/** The country catalogue: merging registry rows into a sorted table, and the bisecting
    lookup in it, against a linear scan of the rows it was built from. */
module RangeIndex {
  import opened Options

  /** `country` and `registry` together are the label of a range. */
  datatype Row = Row(start: int, end: int, country: string, registry: string) {
    predicate Covers(a: int) { start <= a <= end }
    predicate SameLabel(that: Row) { country == that.country && registry == that.registry }
    predicate Before(that: Row) { start < that.start || (start == that.start && end <= that.end) }
  }

  type Label = (string, string)

  function LabelOf(r: Row): Label { (r.country, r.registry) }

  /** Some row gives address `a` the label `l`. */
  ghost predicate Covered(rows: seq<Row>, a: int, l: Label) {
    exists r :: r in rows && r.Covers(a) && LabelOf(r) == l
  }

  // ----- sorting

  predicate Sorted(rows: seq<Row>) {
    forall i :: 0 < i < |rows| ==> rows[i - 1].Before(rows[i])
  }

  /** Inserts ahead of every row that is not earlier. */
  function Insert(r: Row, rows: seq<Row>): (s: seq<Row>)
    ensures multiset(s) == multiset(rows) + multiset{r} && |s| == |rows| + 1
    ensures s[0] == r || (rows != [] && s[0] == rows[0])
  {
    if rows == [] || r.Before(rows[0]) then [r] + rows
    else
      assert rows == [rows[0]] + rows[1..];
      [rows[0]] + Insert(r, rows[1..])
  }

  lemma {:induction false} InsertSorts(r: Row, rows: seq<Row>)
    requires Sorted(rows)
    ensures Sorted(Insert(r, rows))
  {
    if rows != [] && !r.Before(rows[0]) {
      var rest := rows[1..];
      assert forall i :: 0 < i < |rest| ==> rest[i - 1] == rows[i] && rest[i] == rows[i + 1];
      InsertSorts(r, rest);
      assert rest != [] ==> rows[0].Before(rest[0]);
      var s := Insert(r, rest);
      assert Insert(r, rows) == [rows[0]] + s && rows[0].Before(s[0]);
      forall i | 0 < i < |Insert(r, rows)| ensures Insert(r, rows)[i - 1].Before(Insert(r, rows)[i]) {
        if i > 1 { assert s[i - 2].Before(s[i - 1]); }
      }
    }
  }

  /** `rows.sort(key=(start, end))`: ordered, the same rows, equal keys in their old order. */
  function Sort(rows: seq<Row>): (s: seq<Row>)
    ensures multiset(s) == multiset(rows) && |s| == |rows|
  {
    if rows == [] then []
    else
      assert rows == [rows[0]] + rows[1..];
      Insert(rows[0], Sort(rows[1..]))
  }

  lemma {:induction false} SortSorts(rows: seq<Row>)
    ensures Sorted(Sort(rows))
  {
    if rows != [] {
      SortSorts(rows[1..]);
      InsertSorts(rows[0], Sort(rows[1..]));
    }
  }

  lemma {:induction false} SortKeepsRows(rows: seq<Row>, r: Row)
    ensures r in Sort(rows) <==> r in rows
  {
    assert r in Sort(rows) <==> r in multiset(Sort(rows));
    assert r in rows <==> r in multiset(rows);
  }

  // ----- merging

  /** What one more row does to the table built so far. */
  function Absorb(merged: seq<Row>, r: Row): seq<Row> {
    if merged == [] then [r]
    else
      var prev := merged[|merged| - 1];
      if prev.SameLabel(r) && r.start <= prev.end + 1 then
        if r.end > prev.end then merged[..|merged| - 1] + [prev.(end := r.end)] else merged
      else merged + [r]
  }

  function AbsorbAll(rows: seq<Row>): seq<Row> {
    if rows == [] then [] else Absorb(AbsorbAll(rows[..|rows| - 1]), rows[|rows| - 1])
  }

  /** The table built from the rows. */
  function Merged(rows: seq<Row>): seq<Row> { AbsorbAll(Sort(rows)) }

  /** A table whose last row starts no later than `start`. */
  predicate Reaches(merged: seq<Row>, start: int) {
    merged != [] ==> merged[|merged| - 1].start <= start
  }

  /** Absorbing a row adds exactly the addresses it covers, under its label. */
  lemma {:induction false} AbsorbCovers(merged: seq<Row>, r: Row, a: int, l: Label)
    requires Reaches(merged, r.start)
    ensures Covered(Absorb(merged, r), a, l) <==> Covered(merged, a, l) || (r.Covers(a) && LabelOf(r) == l)
  {
    var merged' := Absorb(merged, r);
    if merged == [] {
      assert r in merged';
    } else {
      var front, prev := merged[..|merged| - 1], merged[|merged| - 1];
      assert merged == front + [prev];
      if prev.SameLabel(r) && r.start <= prev.end + 1 {
        var last := if r.end > prev.end then prev.(end := r.end) else prev;
        assert merged' == front + [last];
        assert last.Covers(a) <==> prev.Covers(a) || r.Covers(a);
        CoveredSnoc(front, prev, a, l);
        CoveredSnoc(front, last, a, l);
      } else {
        CoveredSnoc(merged, r, a, l);
      }
    }
  }

  lemma {:induction false} CoveredSnoc(rows: seq<Row>, r: Row, a: int, l: Label)
    ensures Covered(rows + [r], a, l) <==> Covered(rows, a, l) || (r.Covers(a) && LabelOf(r) == l)
  {
    if Covered(rows, a, l) {
      var x :| x in rows && x.Covers(a) && LabelOf(x) == l;
      assert x in rows + [r];
    }
    if r.Covers(a) && LabelOf(r) == l { assert r in rows + [r]; }
  }

  /** Two tables give every address the same labels. */
  ghost predicate SameCover(rows: seq<Row>, rows': seq<Row>) {
    forall a, l :: Covered(rows, a, l) <==> Covered(rows', a, l)
  }

  lemma {:induction false} AbsorbKeepsCover(merged: seq<Row>, seen: seq<Row>, r: Row)
    requires SameCover(merged, seen) && Reaches(merged, r.start)
    ensures SameCover(Absorb(merged, r), seen + [r])
  {
    forall a, l ensures Covered(Absorb(merged, r), a, l) <==> Covered(seen + [r], a, l) {
      AbsorbCovers(merged, r, a, l);
      CoveredSnoc(seen, r, a, l);
    }
  }

  lemma {:induction false} AbsorbSorted(merged: seq<Row>, r: Row)
    requires StartsSorted(merged) && Reaches(merged, r.start)
    ensures StartsSorted(Absorb(merged, r)) && Reaches(Absorb(merged, r), r.start)
    ensures |Absorb(merged, r)| <= |merged| + 1
  {
  }

  /** Sorts the rows and merges neighbours that touch and agree. No address gains or loses a
      label, whatever the rows are; and rows that never disagree become disjoint ranges. */
  method Merge(rows: seq<Row>) returns (merged: seq<Row>)
    ensures merged == Merged(rows)
    ensures SameCover(merged, rows) && StartsSorted(merged)
    ensures SeparateRows(rows) ==> Disjoint(merged)
    ensures |merged| <= |rows|
  {
    var sorted := Sort(rows);
    merged := MergeSorted(sorted);
    MergedCovers(rows);
    if SeparateRows(rows) { MergedDisjoint(rows); }
  }

  method MergeSorted(sorted: seq<Row>) returns (merged: seq<Row>)
    ensures merged == AbsorbAll(sorted) && |merged| <= |sorted|
  {
    merged := [];
    for i := 0 to |sorted|
      invariant merged == AbsorbAll(sorted[..i]) && |merged| <= i
    {
      var r := sorted[i];
      assert sorted[..i + 1][..i] == sorted[..i];
      if merged != [] && merged[|merged| - 1].SameLabel(r) && r.start <= merged[|merged| - 1].end + 1 {
        if r.end > merged[|merged| - 1].end {
          merged := merged[..|merged| - 1] + [merged[|merged| - 1].(end := r.end)];
        }
      } else {
        merged := merged + [r];
      }
    }
    assert sorted[..|sorted|] == sorted;
  }

  lemma {:induction false} SortCovers(rows: seq<Row>)
    ensures SameCover(Sort(rows), rows)
  {
    forall r ensures r in Sort(rows) <==> r in rows { SortKeepsRows(rows, r); }
  }

  // ----- the merged table is an index

  /** Rows as the registries give them: never empty, and no address under two labels. */
  ghost predicate SeparateRows(rows: seq<Row>) { NonEmpty(rows) && OneLabel(rows) }

  predicate StartsSorted(rows: seq<Row>) {
    forall i, j :: 0 <= i < j < |rows| ==> rows[i].start <= rows[j].start
  }

  /** Each row lies wholly before the next. */
  predicate Disjoint(rows: seq<Row>) {
    && (forall i :: 0 <= i < |rows| ==> rows[i].start <= rows[i].end)
    && (forall i, j :: 0 <= i < j < |rows| ==> rows[i].end < rows[j].start)
  }

  lemma {:induction false} KeepsDisjoint(rows: seq<Row>, sorted: seq<Row>, i: nat, merged: seq<Row>)
    requires SeparateRows(rows) && sorted == Sort(rows) && i < |sorted| && Disjoint(merged)
    requires SameCover(merged, sorted[..i]) && Reaches(merged, sorted[i].start)
    ensures Disjoint(Absorb(merged, sorted[i]))
  {
    SortKeepsRows(rows, sorted[i]);
    if merged != [] && sorted[i].start <= merged[|merged| - 1].end {
      OverlapAgrees(rows, sorted, i, merged);
    }
    AbsorbDisjoint(merged, sorted[i]);
  }

  lemma {:induction false} AbsorbDisjoint(merged: seq<Row>, r: Row)
    requires Disjoint(merged) && Reaches(merged, r.start) && r.start <= r.end
    requires merged != [] && r.start <= merged[|merged| - 1].end ==> merged[|merged| - 1].SameLabel(r)
    ensures Disjoint(Absorb(merged, r))
  {
  }

  lemma {:induction false} OverlapAgrees(rows: seq<Row>, sorted: seq<Row>, i: nat, merged: seq<Row>)
    requires SeparateRows(rows) && sorted == Sort(rows) && i < |sorted| && merged != []
    requires SameCover(merged, sorted[..i])
    requires merged[|merged| - 1].Covers(sorted[i].start)
    ensures merged[|merged| - 1].SameLabel(sorted[i])
  {
    var r, prev := sorted[i], merged[|merged| - 1];
    assert Covered(merged, r.start, LabelOf(prev));
    var x :| x in sorted[..i] && x.Covers(r.start) && LabelOf(x) == LabelOf(prev);
    SortKeepsRows(rows, r);
    SortKeepsRows(rows, x);
    assert r.Covers(r.start);
  }

  /** `bisect.bisect_right` over the starts. */
  method BisectRight(starts: seq<int>, value: int) returns (k: nat)
    requires forall i, j :: 0 <= i < j < |starts| ==> starts[i] <= starts[j]
    ensures k <= |starts|
    ensures forall i :: 0 <= i < k ==> starts[i] <= value
    ensures forall i :: k <= i < |starts| ==> value < starts[i]
  {
    var lo, hi := 0, |starts|;
    while lo < hi
      invariant 0 <= lo <= hi <= |starts|
      invariant forall i :: 0 <= i < lo ==> starts[i] <= value
      invariant forall i :: hi <= i < |starts| ==> value < starts[i]
    {
      var mid := (lo + hi) / 2;
      if value < starts[mid] { hi := mid; } else { lo := mid + 1; }
    }
    k := lo;
  }

  /** The last row that starts at or before the address, if any does. */
  function Rightmost(rows: seq<Row>, value: int): Option<Row> {
    if rows == [] then None
    else if rows[|rows| - 1].start <= value then Some(rows[|rows| - 1])
    else Rightmost(rows[..|rows| - 1], value)
  }

  lemma {:induction false} RightmostIs(rows: seq<Row>, value: int, k: nat)
    requires k <= |rows|
    requires forall i :: k <= i < |rows| ==> value < rows[i].start
    requires k > 0 ==> rows[k - 1].start <= value
    ensures Rightmost(rows, value) == if k == 0 then None else Some(rows[k - 1])
  {
    if k < |rows| { RightmostIs(rows[..|rows| - 1], value, k); }
  }

  /** ... and that row, if it reaches the address. */
  function Hit(rows: seq<Row>, value: int): Option<Row> {
    match Rightmost(rows, value)
    case None => None
    case Some(row) => if value <= row.end then Some(row) else None
  }

  /** The lookup in a table sorted by start: the rightmost row that starts at or before the
      address is a hit exactly when it reaches it. */
  method Search(starts: seq<int>, rows: seq<Row>, value: int) returns (found: Option<Row>)
    requires |starts| == |rows| && forall i :: 0 <= i < |rows| ==> starts[i] == rows[i].start
    requires StartsSorted(rows)
    ensures found == Hit(rows, value)
  {
    if |starts| == 0 {
      return None;
    }
    var k := BisectRight(starts, value);
    RightmostIs(rows, value, k);
    if k == 0 {
      return None;
    }
    var row := rows[k - 1];
    found := if value <= row.end then Some(row) else None;
  }

  lemma {:induction false} RightmostSound(rows: seq<Row>, value: int)
    ensures Rightmost(rows, value).Some? ==>
              Rightmost(rows, value).value in rows && Rightmost(rows, value).value.start <= value
  {
    if rows != [] { RightmostSound(rows[..|rows| - 1], value); }
  }

  // ----- exactly when the lookup is right

  /** The last address row `r` answers for, or the one before it if `r` is empty. */
  function Reach(r: Row): int { if r.end < r.start then r.start - 1 else r.end }

  /** Row `i` does not cut row `k` short: it ends no earlier, or the next row takes over at once. */
  predicate Clear(rows: seq<Row>, k: nat, i: nat)
    requires k < i < |rows|
  {
    rows[k].end <= Reach(rows[i]) || (i + 1 < |rows| && rows[i + 1].start <= Reach(rows[i]) + 1)
  }

  ghost predicate Unshadowed(rows: seq<Row>) {
    forall k: nat, i: nat {:trigger Clear(rows, k, i)} :: k < i < |rows| ==> Clear(rows, k, i)
  }

  /** Every address that some row covers is found. */
  ghost predicate FindsAll(rows: seq<Row>) {
    forall r, a :: r in rows && r.Covers(a) ==> Hit(rows, a).Some?
  }

  /** The rightmost start is enough to find every covered address exactly in such tables. */
  lemma {:induction false} FindsAllExactly(rows: seq<Row>)
    requires StartsSorted(rows)
    ensures FindsAll(rows) <==> Unshadowed(rows)
  {
    if Unshadowed(rows) {
      forall r, a | r in rows && r.Covers(a) ensures Hit(rows, a).Some? { NotShadowed(rows, r, a); }
    } else {
      var k: nat, i: nat :| k < i < |rows| && !Clear(rows, k, i);
      Shadowed(rows, k, i);
    }
  }

  lemma {:induction false} Shadowed(rows: seq<Row>, k: nat, i: nat)
    requires StartsSorted(rows) && k < i < |rows| && !Clear(rows, k, i)
    ensures var a := Reach(rows[i]) + 1; rows[k].Covers(a) && Hit(rows, a).None?
  {
    RightmostIs(rows, Reach(rows[i]) + 1, i + 1);
  }

  lemma {:induction false} NotShadowed(rows: seq<Row>, r: Row, a: int)
    requires StartsSorted(rows) && Unshadowed(rows) && r in rows && r.Covers(a)
    ensures Hit(rows, a).Some?
  {
    var k: nat :| k < |rows| && rows[k] == r;
    var n := CountUpTo(rows, a);
    RightmostIs(rows, a, n);
    assert k < n;
    assert k < n - 1 ==> Clear(rows, k, n - 1);
  }

  /** How many rows start at or before the address. */
  lemma {:induction false} CountUpTo(rows: seq<Row>, a: int) returns (n: nat)
    requires StartsSorted(rows)
    ensures n <= |rows| && (forall i :: 0 <= i < n ==> rows[i].start <= a)
    ensures forall i :: n <= i < |rows| ==> a < rows[i].start
  {
    if rows == [] {
      n := 0;
    } else if rows[|rows| - 1].start <= a {
      n := |rows|;
    } else {
      n := CountUpTo(rows[..|rows| - 1], a);
    }
  }

  /** What looking an address up in the table built from the rows answers. */
  function Answer(rows: seq<Row>, a: int): Option<Label> {
    var row := Hit(Merged(rows), a);
    if row.Some? then Some(LabelOf(row.value)) else None
  }

  ghost predicate NonEmpty(rows: seq<Row>) { forall r :: r in rows ==> r.start <= r.end }

  ghost predicate OneLabel(rows: seq<Row>) {
    forall r, s, a :: r in rows && s in rows && r.Covers(a) && s.Covers(a) ==> LabelOf(r) == LabelOf(s)
  }

  /** Every address gets a label exactly if some row gives it that label. */
  ghost predicate AnswersExactly(rows: seq<Row>) {
    forall a, l :: Answer(rows, a) == Some(l) <==> Covered(rows, a, l)
  }

  /** Whatever the rows, an answer is never wrong: some row gives the address that label. */
  lemma {:induction false} AnswerSound(rows: seq<Row>, a: int)
    ensures Answer(rows, a).Some? ==> Covered(rows, a, Answer(rows, a).value)
  {
    MergedCovers(rows);
    var table := Merged(rows);
    RightmostSound(table, a);
    if Hit(table, a).Some? {
      assert Hit(table, a).value in table && Hit(table, a).value.Covers(a);
      assert Covered(table, a, Answer(rows, a).value);
    }
  }

  /** The answers are exact if and only if no address has two labels and no merged row shadows the
      end of an earlier one. */
  lemma {:induction false} AnswersExactlyWhen(rows: seq<Row>)
    ensures AnswersExactly(rows) <==> OneLabel(rows) && Unshadowed(Merged(rows))
  {
    var table := Merged(rows);
    MergedCovers(rows);
    FindsAllExactly(table);
    if AnswersExactly(rows) {
      forall r, s, a | r in rows && s in rows && r.Covers(a) && s.Covers(a) ensures LabelOf(r) == LabelOf(s) {
        assert Covered(rows, a, LabelOf(r)) && Covered(rows, a, LabelOf(s));
      }
      forall r, a | r in table && r.Covers(a) ensures Hit(table, a).Some? {
        assert Covered(table, a, LabelOf(r));
      }
    }
    if OneLabel(rows) && FindsAll(table) {
      forall a, l ensures Answer(rows, a) == Some(l) <==> Covered(rows, a, l) {
        AnswerSound(rows, a);
        if Covered(rows, a, l) { CoveredIsAnswered(rows, a, l); }
      }
    }
  }

  lemma {:induction false} CoveredIsAnswered(rows: seq<Row>, a: int, l: Label)
    requires OneLabel(rows) && FindsAll(Merged(rows)) && Covered(rows, a, l)
    ensures Answer(rows, a) == Some(l)
  {
    MergedCovers(rows);
    assert Covered(Merged(rows), a, l);
    var r :| r in Merged(rows) && r.Covers(a) && LabelOf(r) == l;
    assert Hit(Merged(rows), a).Some?;
    AnswerSound(rows, a);
    var x :| x in rows && x.Covers(a) && LabelOf(x) == l;
    var y :| y in rows && y.Covers(a) && LabelOf(y) == Answer(rows, a).value;
  }

  /** For rows as the registries give them, never empty, the answers are exact if and only if no
      address has two labels. */
  lemma {:induction false} AnswersExactlyOneLabel(rows: seq<Row>)
    requires NonEmpty(rows)
    ensures AnswersExactly(rows) <==> OneLabel(rows)
  {
    AnswersExactlyWhen(rows);
    if OneLabel(rows) {
      var table := Merged(rows);
      MergedDisjoint(rows);
      forall k: nat, i: nat | k < i < |table| ensures Clear(table, k, i) { }
    }
  }

  lemma {:induction false} MergedCovers(rows: seq<Row>)
    ensures SameCover(Merged(rows), rows) && StartsSorted(Merged(rows))
  {
    SortSorts(rows);
    SortCovers(rows);
    var sorted := Sort(rows);
    AbsorbAllCovers(sorted, |sorted|);
    assert sorted[..|sorted|] == sorted;
  }

  lemma {:induction false} AbsorbAllCovers(sorted: seq<Row>, i: nat)
    requires Sorted(sorted) && i <= |sorted|
    ensures SameCover(AbsorbAll(sorted[..i]), sorted[..i]) && StartsSorted(AbsorbAll(sorted[..i]))
    ensures i < |sorted| ==> Reaches(AbsorbAll(sorted[..i]), sorted[i].start)
    decreases i
  {
    if i > 0 {
      var before, r := sorted[..i - 1], sorted[i - 1];
      AbsorbAllCovers(sorted, i - 1);
      assert sorted[..i] == before + [r] && sorted[..i][..i - 1] == before;
      AbsorbKeepsCover(AbsorbAll(before), before, r);
      AbsorbSorted(AbsorbAll(before), r);
      assert i < |sorted| ==> r.Before(sorted[i]);
    }
  }

  lemma {:induction false} MergedDisjoint(rows: seq<Row>)
    requires SeparateRows(rows)
    ensures Disjoint(Merged(rows))
  {
    SortSorts(rows);
    var sorted := Sort(rows);
    AbsorbAllDisjoint(rows, sorted, |sorted|);
    assert sorted[..|sorted|] == sorted;
  }

  lemma {:induction false} AbsorbAllDisjoint(rows: seq<Row>, sorted: seq<Row>, i: nat)
    requires SeparateRows(rows) && sorted == Sort(rows) && Sorted(sorted) && i <= |sorted|
    ensures Disjoint(AbsorbAll(sorted[..i]))
    decreases i
  {
    if i > 0 {
      AbsorbAllDisjoint(rows, sorted, i - 1);
      AbsorbAllCovers(sorted, i - 1);
      var before := AbsorbAll(sorted[..i - 1]);
      assert AbsorbAll(sorted[..i]) == Absorb(before, sorted[i - 1]) by {
        assert sorted[..i][..i - 1] == sorted[..i - 1];
      }
      KeepsDisjoint(rows, sorted, i - 1, before);
    }
  }

  /** A range nested under another label hides the rest of the outer one: the address 50 is in the
      catalogue and is not found. */
  lemma {:induction false} NestedRangeHides()
    ensures var rows := [Row(0, 100, "A", "x"), Row(10, 20, "B", "x")];
      Covered(rows, 50, ("A", "x")) && Answer(rows, 50) == None
  {
    var outer, inner := Row(0, 100, "A", "x"), Row(10, 20, "B", "x");
    var rows := [outer, inner];
    assert outer in rows && outer.Covers(50) && LabelOf(outer) == ("A", "x");
    assert rows[1..] == [inner] && [inner][1..] == [];
    assert Insert(inner, []) == [inner];
    assert Sort([inner]) == [inner];
    assert Sort(rows) == rows;
    assert rows[..1] == [outer] && [outer][..0] == [];
    assert AbsorbAll([outer]) == [outer];
    assert AbsorbAll(rows) == rows;
  }

  /** The reference: scan the original rows for the first that holds the address. */
  function Scan(rows: seq<Row>, a: int): Option<Label> {
    if rows == [] then None
    else if rows[0].Covers(a) then Some(LabelOf(rows[0]))
    else Scan(rows[1..], a)
  }

  lemma {:induction false} CoveredCons(rows: seq<Row>, a: int, l: Label)
    requires rows != []
    ensures Covered(rows, a, l) <==> Covered(rows[1..], a, l) || (rows[0].Covers(a) && LabelOf(rows[0]) == l)
  {
    assert rows == [rows[0]] + rows[1..];
    assert forall r :: r in rows <==> r == rows[0] || r in rows[1..];
  }

  lemma {:induction false} ScanFinds(rows: seq<Row>, a: int)
    ensures Scan(rows, a).Some? ==> Covered(rows, a, Scan(rows, a).value)
    ensures Scan(rows, a).None? ==> forall l :: !Covered(rows, a, l)
  {
    if rows != [] {
      ScanFinds(rows[1..], a);
      forall l ensures Covered(rows, a, l) <==>
                      Covered(rows[1..], a, l) || (rows[0].Covers(a) && LabelOf(rows[0]) == l) {
        CoveredCons(rows, a, l);
      }
    }
  }

  /** Building the table and bisecting it. For rows that are never empty and never disagree that
      is, for every address, the label a linear scan gives. */
  method Lookup(rows: seq<Row>, value: int) returns (found: Option<Label>)
    ensures found == Answer(rows, value)
    ensures found.Some? ==> Covered(rows, value, found.value)
    ensures SeparateRows(rows) ==> found == Scan(rows, value)
  {
    var table := Merge(rows);
    var starts := seq(|table|, i requires 0 <= i < |table| => table[i].start);
    var row := Search(starts, table, value);
    found := if row.Some? then Some(LabelOf(row.value)) else None;
    AnswerSound(rows, value);
    if SeparateRows(rows) { AnswerIsScan(rows, value); }
  }

  lemma {:induction false} AnswerIsScan(rows: seq<Row>, a: int)
    requires SeparateRows(rows)
    ensures Answer(rows, a) == Scan(rows, a)
  {
    AnswersExactlyOneLabel(rows);
    ScanFinds(rows, a);
    AnswerSound(rows, a);
    if Answer(rows, a).Some? { SameLabels(rows, a, Answer(rows, a).value); }
  }

  lemma {:induction false} SameLabels(rows: seq<Row>, a: int, l: Label)
    requires SeparateRows(rows) && Covered(rows, a, l)
    ensures Scan(rows, a) == Some(l)
  {
    ScanFinds(rows, a);
    var r :| r in rows && r.Covers(a) && LabelOf(r) == l;
    assert Scan(rows, a).Some?;
    var s :| s in rows && s.Covers(a) && LabelOf(s) == Scan(rows, a).value;
  }
}
