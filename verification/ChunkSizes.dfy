/** What the chunked decoder takes for a size line, exactly, and what it makes of a body. */
module ChunkSizes {
  import opened Options
  import opened Octets
  import opened ChunkedCoding

  // ----- numbers as the decoder allows them to be written

  /** A hexadecimal digit, in either case, perhaps behind an underscore. */
  datatype Digit = Digit(value: nat, upper: bool, gap: bool) {
    predicate Valid() { value < 16 }
    function Char(): byte
      requires Valid()
    {
      if value < 10 then 48 + value else if upper then 55 + value else 87 + value
    }
  }

  datatype Sign = Unsigned | Plus | Minus
  datatype Prefix = Bare | LowerX | UpperX

  /** A sign, `0x` and digits, all but the digits optional; the first digit has an underscore before it
      only behind `0x`. */
  datatype Numeral = Numeral(sign: Sign, prefix: Prefix, digits: seq<Digit>) {
    predicate Valid() { digits != [] && AllValid(digits) && (prefix.Bare? ==> !digits[0].gap) }
    function Text(): Bytes
      requires Valid()
    {
      SignText(sign) + PrefixText(prefix) + Spelt(digits)
    }
    function Value(): int { (if sign.Minus? then -1 else 1) * Horner(digits, 0) }
  }

  predicate AllValid(ds: seq<Digit>) { forall d :: d in ds ==> d.Valid() }

  function SignText(sign: Sign): Bytes { match sign case Unsigned => [] case Plus => [43] case Minus => [45] }

  function PrefixText(prefix: Prefix): Bytes {
    match prefix case Bare => [] case LowerX => [48, 120] case UpperX => [48, 88]
  }

  function Spelt(ds: seq<Digit>): Bytes
    requires AllValid(ds)
  {
    if ds == [] then [] else (if ds[0].gap then [95, ds[0].Char()] else [ds[0].Char()]) + Spelt(ds[1..])
  }

  /** The value of the digits behind those that make `from`. */
  function Horner(ds: seq<Digit>, from: nat): nat {
    if ds == [] then from else Horner(ds[1..], from * 16 + ds[0].value)
  }

  // ----- digits

  /** The digits may follow: an underscore, or nothing at all, only behind a digit. */
  predicate Follows(ds: seq<Digit>, after: bool) { AllValid(ds) && (ds == [] || ds[0].gap ==> after) }

  lemma {:induction false} SpeltCons(d: Digit, ds: seq<Digit>)
    requires d.Valid() && AllValid(ds)
    ensures AllValid([d] + ds) && ([d] + ds)[1..] == ds
    ensures Spelt([d] + ds) == (if d.gap then [95, d.Char()] else [d.Char()]) + Spelt(ds)
  {
    assert ([d] + ds)[1..] == ds;
  }

  /** The digits with or without an underscore before the first. */
  function WithGap(ds: seq<Digit>, gap: bool): seq<Digit>
    requires ds != []
  {
    [ds[0].(gap := gap)] + ds[1..]
  }

  lemma {:induction false} Gapped(ds: seq<Digit>, from: nat)
    requires ds != [] && AllValid(ds)
    ensures WithGap(ds, ds[0].gap) == ds && AllValid(WithGap(ds, true)) && AllValid(WithGap(ds, false))
    ensures Spelt(WithGap(ds, true)) == [95] + Spelt(WithGap(ds, false))
    ensures Horner(WithGap(ds, true), from) == Horner(ds, from) == Horner(WithGap(ds, false), from)
  {
    var rest := ds[1..];
    assert ds[0] in ds && forall e :: e in rest ==> e in ds;
    SpeltCons(ds[0].(gap := true), rest);
    SpeltCons(ds[0].(gap := false), rest);
    var c := ds[0].Char();
    assert [95] + ([c] + Spelt(rest)) == [95, c] + Spelt(rest);
  }

  lemma {:induction false} DigitsSpelt(s: Bytes, i: nat, hi: nat, value: nat, after: bool) returns (ds: seq<Digit>)
    requires i <= hi <= |s| && Digits(s, i, hi, value, after).Some?
    ensures Follows(ds, after) && Spelt(ds) == s[i..hi] && Digits(s, i, hi, value, after) == Some(Horner(ds, value))
    decreases hi - i
  {
    if i == hi {
      ds := [];
    } else if HexValue(s[i]).Some? {
      var v := HexValue(s[i]).value;
      var rest := DigitsSpelt(s, i + 1, hi, value * 16 + v, true);
      var d := Digit(v, s[i] < 97, false);
      SpeltCons(d, rest);
      assert s[i..hi] == [s[i]] + s[i + 1..hi];
      ds := [d] + rest;
    } else {
      var rest := DigitsSpelt(s, i + 1, hi, value, false);
      Gapped(rest, value);
      assert s[i..hi] == [95] + s[i + 1..hi];
      ds := WithGap(rest, true);
    }
  }

  lemma {:induction false} DigitsRead(s: Bytes, i: nat, hi: nat, value: nat, after: bool, ds: seq<Digit>)
    requires i <= hi <= |s| && Follows(ds, after) && Spelt(ds) == s[i..hi]
    ensures Digits(s, i, hi, value, after) == Some(Horner(ds, value))
    decreases |ds|
  {
    if ds != [] {
      var d, rest := ds[0], ds[1..];
      assert d in ds && forall e :: e in rest ==> e in ds;
      var k := if d.gap then i + 1 else i;
      var text := Spelt(ds);
      assert text[k - i] == d.Char() && s[k] == text[k - i] && (d.gap ==> s[i] == text[0] == 95);
      assert Spelt(rest) == text[k + 1 - i..] == s[k + 1..hi];
      DigitsRead(s, k + 1, hi, value * 16 + d.value, true, rest);
    } else {
      assert |s[i..hi]| == 0;
    }
  }

  // ----- numerals

  lemma {:induction false} FirstChars(ds: seq<Digit>)
    requires AllValid(ds) && ds != []
    ensures |Spelt(ds)| >= 1 && (Spelt(ds)[0] == 95 || HexValue(Spelt(ds)[0]).Some?)
    ensures |Spelt(ds)| >= 2 ==> Spelt(ds)[1] == 95 || HexValue(Spelt(ds)[1]).Some?
    ensures Plain(Spelt(ds))
    decreases |ds|
  {
    assert ds[0] in ds && forall e :: e in ds[1..] ==> e in ds;
    if |ds| > 1 { FirstChars(ds[1..]); } else { assert ds[1..] == []; }
  }

  /** No space and no semicolon. */
  predicate Plain(s: Bytes) { forall i :: 0 <= i < |s| ==> !IsSpace(s[i]) && s[i] != 59 }

  lemma {:induction false} PrefixedSpelt(s: Bytes, i: nat, hi: nat) returns (prefix: Prefix, ds: seq<Digit>)
    requires i <= hi <= |s| && Prefixed(s, i, hi).Some?
    ensures ds != [] && AllValid(ds) && (prefix.Bare? ==> !ds[0].gap)
    ensures s[i..hi] == PrefixText(prefix) + Spelt(ds) && Prefixed(s, i, hi) == Some(Horner(ds, 0))
  {
    if i + 2 <= hi && s[i] == 48 && (s[i + 1] == 120 || s[i + 1] == 88) {
      prefix := if s[i + 1] == 120 then LowerX else UpperX;
      ds := BehindPrefix(s, i + 2, hi);
      assert s[i..hi] == [s[i], s[i + 1]] + s[i + 2..hi];
    } else {
      prefix := Bare;
      ds := DigitsSpelt(s, i, hi, 0, false);
    }
  }

  lemma {:induction false} BehindPrefix(s: Bytes, i: nat, hi: nat) returns (ds: seq<Digit>)
    requires i <= hi <= |s| && Digits(s, if i < hi && s[i] == 95 then i + 1 else i, hi, 0, false).Some?
    ensures ds != [] && AllValid(ds) && s[i..hi] == Spelt(ds)
    ensures Digits(s, if i < hi && s[i] == 95 then i + 1 else i, hi, 0, false) == Some(Horner(ds, 0))
  {
    if i < hi && s[i] == 95 {
      ds := DigitsSpelt(s, i + 1, hi, 0, false);
      Gapped(ds, 0);
      assert s[i..hi] == [95] + s[i + 1..hi];
      ds := WithGap(ds, true);
    } else {
      ds := DigitsSpelt(s, i, hi, 0, false);
    }
  }

  lemma {:induction false} ReadBehindPrefix(s: Bytes, i: nat, hi: nat, ds: seq<Digit>)
    requires i <= hi <= |s| && ds != [] && AllValid(ds) && s[i..hi] == Spelt(ds)
    ensures Digits(s, if i < hi && s[i] == 95 then i + 1 else i, hi, 0, false) == Some(Horner(ds, 0))
  {
    Gapped(ds, 0);
    FirstChars(ds);
    assert s[i] == s[i..hi][0];
    if ds[0].gap {
      assert s[i + 1..hi] == s[i..hi][1..] == Spelt(WithGap(ds, false));
      DigitsRead(s, i + 1, hi, 0, false, WithGap(ds, false));
    } else {
      assert ds[0] in ds && Spelt(ds)[0] == ds[0].Char();
      DigitsRead(s, i, hi, 0, false, ds);
    }
  }

  lemma {:induction false} PrefixedRead(s: Bytes, i: nat, hi: nat, prefix: Prefix, ds: seq<Digit>)
    requires i <= hi <= |s| && ds != [] && AllValid(ds) && (prefix.Bare? ==> !ds[0].gap)
    requires s[i..hi] == PrefixText(prefix) + Spelt(ds)
    ensures Prefixed(s, i, hi) == Some(Horner(ds, 0))
  {
    if prefix.Bare? {
      BareRead(s, i, hi, ds);
    } else {
      var text := s[i..hi];
      assert s[i] == text[0] && s[i + 1] == text[1];
      assert s[i + 2..hi] == text[2..] == Spelt(ds);
      ReadBehindPrefix(s, i + 2, hi, ds);
    }
  }

  lemma {:induction false} BareRead(s: Bytes, i: nat, hi: nat, ds: seq<Digit>)
    requires i <= hi <= |s| && ds != [] && AllValid(ds) && !ds[0].gap && s[i..hi] == Spelt(ds)
    ensures Prefixed(s, i, hi) == Some(Horner(ds, 0))
  {
    FirstChars(ds);
    assert i + 2 <= hi ==> s[i + 1] == s[i..hi][1];
    DigitsRead(s, i, hi, 0, false, ds);
  }

  lemma {:induction false} IntSpelt(s: Bytes, i: nat, hi: nat) returns (n: Numeral)
    requires i <= hi <= |s| && ParseInt(s, i, hi).Some?
    ensures n.Valid() && n.Text() == s[i..hi] && ParseInt(s, i, hi) == Some(n.Value())
  {
    var sign := if i < hi && s[i] == 45 then Minus else if i < hi && s[i] == 43 then Plus else Unsigned;
    var k := if sign.Unsigned? then i else i + 1;
    var prefix, ds := PrefixedSpelt(s, k, hi);
    SignSplit(s, i, hi, sign);
    n := Numeral(sign, prefix, ds);
    Join3(SignText(sign), PrefixText(prefix), Spelt(ds));
  }

  lemma {:induction false} SignSplit(s: Bytes, i: nat, hi: nat, sign: Sign)
    requires i <= hi <= |s| && (sign.Unsigned? || (i < hi && SignText(sign) == [s[i]]))
    ensures s[i..hi] == SignText(sign) + s[if sign.Unsigned? then i else i + 1..hi]
  {
  }

  lemma {:induction false} Join3(a: Bytes, b: Bytes, c: Bytes)
    ensures a + (b + c) == a + b + c
  {
  }

  lemma {:induction false} IntRead(s: Bytes, i: nat, hi: nat, n: Numeral)
    requires i <= hi <= |s| && n.Valid() && n.Text() == s[i..hi]
    ensures ParseInt(s, i, hi) == Some(n.Value())
  {
    var k := if n.sign.Unsigned? then i else i + 1;
    var rest := PrefixText(n.prefix) + Spelt(n.digits);
    Join3(SignText(n.sign), PrefixText(n.prefix), Spelt(n.digits));
    FirstChars(n.digits);
    assert s[k..hi] == n.Text()[k - i..] == rest;
    assert s[i] == n.Text()[0] && |rest| >= 1 && rest[0] !in {43, 45};
    PrefixedRead(s, k, hi, n.prefix, n.digits);
  }

  /** Exactly the numerals are read, as what they say. */
  lemma {:induction false} IntExactly(s: Bytes, i: nat, hi: nat, v: int)
    requires i <= hi <= |s|
    ensures ParseInt(s, i, hi) == Some(v) <==> exists n: Numeral :: n.Valid() && n.Text() == s[i..hi] && n.Value() == v
  {
    if ParseInt(s, i, hi) == Some(v) {
      var n := IntSpelt(s, i, hi);
    }
    if n: Numeral :| n.Valid() && n.Text() == s[i..hi] && n.Value() == v {
      IntRead(s, i, hi, n);
    }
  }

  // ----- size lines

  /** The text of a size line: a numeral, spaces around it, and anything behind a semicolon. */
  ghost predicate Sizes(text: Bytes, v: int) {
    exists lead: Bytes, n: Numeral, trail: Bytes, ext: Bytes :: Spells(text, lead, n, trail, ext) && n.Value() == v
  }

  predicate Spaces(s: Bytes) { forall i :: 0 <= i < |s| ==> IsSpace(s[i]) }

  predicate Spells(text: Bytes, lead: Bytes, n: Numeral, trail: Bytes, ext: Bytes) {
    && n.Valid() && Spaces(lead) && Spaces(trail) && (ext == [] || ext[0] == 59)
    && text == lead + n.Text() + trail + ext
  }

  lemma {:induction false} TextPlain(n: Numeral)
    requires n.Valid()
    ensures n.Text() != [] && Plain(n.Text())
  {
    FirstChars(n.digits);
  }

  lemma {:induction false} CutAt(s: Bytes, i: nat, cut: nat, hi: nat)
    requires i <= cut <= hi <= |s| && (forall j :: i <= j < cut ==> s[j] != 59) && (cut == hi || s[cut] == 59)
    ensures Cut(s, i, hi) == cut
    decreases cut - i
  {
    if i < cut { CutAt(s, i + 1, cut, hi); }
  }

  lemma {:induction false} CutIs(s: Bytes, i: nat, hi: nat)
    requires i <= hi <= |s|
    ensures Cut(s, i, hi) == hi || s[Cut(s, i, hi)] == 59
    decreases hi - i
  {
    if i < hi && s[i] != 59 { CutIs(s, i + 1, hi); }
  }

  lemma {:induction false} StripLeftAt(s: Bytes, lo: nat, k: nat, hi: nat)
    requires lo <= k <= hi <= |s| && (forall j :: lo <= j < k ==> IsSpace(s[j])) && (k == hi || !IsSpace(s[k]))
    ensures StripLeft(s, lo, hi) == k
    decreases k - lo
  {
    if lo < k { StripLeftAt(s, lo + 1, k, hi); }
  }

  lemma {:induction false} StripLeftIs(s: Bytes, lo: nat, hi: nat)
    requires lo <= hi <= |s|
    ensures forall j :: lo <= j < StripLeft(s, lo, hi) ==> IsSpace(s[j])
    decreases hi - lo
  {
    if lo < hi && IsSpace(s[lo]) { StripLeftIs(s, lo + 1, hi); }
  }

  lemma {:induction false} StripRightAt(s: Bytes, lo: nat, k: nat, hi: nat)
    requires lo <= k <= hi <= |s| && (forall j :: k <= j < hi ==> IsSpace(s[j])) && (k == lo || !IsSpace(s[k - 1]))
    ensures StripRight(s, lo, hi) == k
    decreases hi - k
  {
    if k < hi { StripRightAt(s, lo, k, hi - 1); }
  }

  lemma {:induction false} StripRightIs(s: Bytes, lo: nat, hi: nat)
    requires lo <= hi <= |s|
    ensures forall j :: StripRight(s, lo, hi) <= j < hi ==> IsSpace(s[j])
    decreases hi - lo
  {
    if lo < hi && IsSpace(s[hi - 1]) { StripRightIs(s, lo, hi - 1); }
  }

  lemma {:induction false} SizeRead(s: Bytes, i: nat, end: nat, lead: Bytes, n: Numeral, trail: Bytes, ext: Bytes)
    requires i <= end <= |s| && Spells(s[i..end], lead, n, trail, ext)
    ensures ParseSize(s, i, end) == Some(n.Value())
  {
    var number := n.Text();
    TextPlain(n);
    Laid(s, i, end, lead, number, trail, ext);
    var lo := i + |lead|;
    var hi := lo + |number|;
    Stripped(s, i, lo, hi, hi + |trail|, end);
    IntRead(s, lo, hi, n);
  }

  lemma {:induction false} Laid(s: Bytes, i: nat, end: nat, a: Bytes, b: Bytes, c: Bytes, d: Bytes)
    requires i <= end <= |s| && s[i..end] == a + b + c + d
    ensures s[i..i + |a|] == a && s[i + |a|..i + |a| + |b|] == b
    ensures s[i + |a| + |b|..end - |d|] == c && s[end - |d|..end] == d && i + |a| + |b| + |c| == end - |d|
  {
    SliceOf(s, i, end, 0, |a|);
    SliceOf(s, i, end, |a|, |a| + |b|);
    SliceOf(s, i, end, |a| + |b|, |a| + |b| + |c|);
    SliceOf(s, i, end, |a| + |b| + |c|, end - i);
    var all := a + b + c + d;
    assert all[..|a|] == a && all[|a|..|a| + |b|] == b && all[|a| + |b|..|a| + |b| + |c|] == c;
    assert all[|a| + |b| + |c|..] == d;
  }

  lemma {:induction false} SliceOf(s: Bytes, i: nat, end: nat, a: nat, b: nat)
    requires i <= end <= |s| && a <= b <= end - i
    ensures s[i..end][a..b] == s[i + a..i + b]
  {
    assert forall j :: 0 <= j < b - a ==> s[i..end][a..b][j] == s[i + a + j] == s[i + a..i + b][j];
  }

  lemma {:induction false} SpacesAt(s: Bytes, a: nat, b: nat)
    requires a <= b <= |s|
    ensures Spaces(s[a..b]) <==> forall j :: a <= j < b ==> IsSpace(s[j])
  {
    assert forall j :: a <= j < b ==> s[j] == s[a..b][j - a];
    assert forall j :: 0 <= j < b - a ==> s[a..b][j] == s[a + j];
  }

  /** Spaces, a number and spaces, up to a semicolon or the end. */
  lemma {:induction false} Stripped(s: Bytes, i: nat, lo: nat, hi: nat, cut: nat, end: nat)
    requires i <= lo < hi <= cut <= end <= |s|
    requires Spaces(s[i..lo]) && Plain(s[lo..hi]) && Spaces(s[hi..cut]) && (cut == end || s[cut..end][0] == 59)
    ensures Cut(s, i, end) == cut && StripLeft(s, i, cut) == lo && StripRight(s, lo, cut) == hi
  {
    SpacesAt(s, i, lo);
    SpacesAt(s, hi, cut);
    forall j | lo <= j < hi ensures !IsSpace(s[j]) && s[j] != 59 { assert s[j] == s[lo..hi][j - lo]; }
    CutAt(s, i, cut, end);
    StripLeftAt(s, i, lo, cut);
    StripRightAt(s, lo, hi, cut);
  }

  lemma {:induction false} SizeSpelt(s: Bytes, i: nat, end: nat)
    requires i <= end <= |s| && ParseSize(s, i, end).Some?
    ensures Sizes(s[i..end], ParseSize(s, i, end).value)
  {
    var cut := Cut(s, i, end);
    var lo := StripLeft(s, i, cut);
    var hi := StripRight(s, lo, cut);
    CutIs(s, i, end);
    StripLeftIs(s, i, cut);
    StripRightIs(s, lo, cut);
    var n := IntSpelt(s, lo, hi);
    Pieces4(s, i, lo, hi, cut, end);
    SpacesAt(s, i, lo);
    SpacesAt(s, hi, cut);
    assert s[cut..end] == [] || s[cut..end][0] == s[cut];
    assert Spells(s[i..end], s[i..lo], n, s[hi..cut], s[cut..end]);
  }

  lemma {:induction false} Pieces4(s: Bytes, i: nat, lo: nat, hi: nat, cut: nat, end: nat)
    requires i <= lo <= hi <= cut <= end <= |s|
    ensures s[i..end] == s[i..lo] + s[lo..hi] + s[hi..cut] + s[cut..end]
  {
    Pieces2(s, i, cut, end);
    Pieces2(s, i, hi, cut);
    Pieces2(s, i, lo, hi);
  }

  lemma {:induction false} Pieces2(s: Bytes, a: nat, b: nat, c: nat)
    requires a <= b <= c <= |s|
    ensures s[a..c] == s[a..b] + s[b..c]
  {
  }

  /** The line that starts at `i` ends at `end`, and what follows it starts at `start`: at the first CRLF,
      or at the first line feed if there is no CRLF. */
  ghost predicate LineTo(body: Bytes, i: nat, end: nat, start: nat) {
    && i <= end < |body|
    && if CrlfAt(body, end)
       then start == end + 2 && forall j: nat :: i <= j < end ==> !CrlfAt(body, j)
       else start == end + 1 && body[end] == 10 && (forall j :: i <= j < end ==> body[j] != 10)
            && forall j: nat :: i <= j ==> !CrlfAt(body, j)
  }

  predicate CrlfAt(body: Bytes, j: nat) { j + 1 < |body| && body[j] == 13 && body[j + 1] == 10 }

  lemma {:induction false} CrlfIs(s: Bytes, i: nat)
    ensures FindCrlf(s, i).Some? ==> var k := FindCrlf(s, i).value;
              i <= k && CrlfAt(s, k) && forall j: nat :: i <= j < k ==> !CrlfAt(s, j)
    ensures FindCrlf(s, i).None? ==> forall j: nat :: i <= j ==> !CrlfAt(s, j)
    decreases |s| - i
  {
    if i + 1 < |s| && !CrlfAt(s, i) { CrlfIs(s, i + 1); }
  }

  lemma {:induction false} LfIs(s: Bytes, i: nat)
    ensures FindLf(s, i).Some? ==> var k := FindLf(s, i).value;
              i <= k < |s| && s[k] == 10 && forall j :: i <= j < k ==> s[j] != 10
    ensures FindLf(s, i).None? ==> forall j :: i <= j < |s| ==> s[j] != 10
    decreases |s| - i
  {
    if i < |s| && s[i] != 10 { LfIs(s, i + 1); }
  }

  /** A line at `i` gives the size `v`, and its data starts at `start`. */
  ghost predicate Sized(body: Bytes, i: nat, v: int, start: nat) {
    exists end: nat :: LineTo(body, i, end, start) && Sizes(body[i..end], v)
  }

  /** Exactly such lines are read. */
  lemma {:induction false} SizeLineExactly(body: Bytes, i: nat, v: int, start: nat)
    ensures SizeLine(body, i) == Some(Line(v, start)) <==> Sized(body, i, v, start)
  {
    if SizeLine(body, i) == Some(Line(v, start)) {
      ReadIsSized(body, i, v, start);
    }
    if Sized(body, i, v, start) {
      SizedIsRead(body, i, v, start);
    }
  }

  lemma {:induction false} ReadIsSized(body: Bytes, i: nat, v: int, start: nat)
    requires SizeLine(body, i) == Some(Line(v, start))
    ensures Sized(body, i, v, start)
  {
    CrlfIs(body, i);
    LfIs(body, i);
    LineEndAhead(body, i);
    var crlf := FindCrlf(body, i);
    var end: nat := if crlf.Some? then crlf.value else FindLf(body, i).value;
    SizeSpelt(body, i, end);
    assert LineTo(body, i, end, start);
  }

  lemma {:induction false} SizedIsRead(body: Bytes, i: nat, v: int, start: nat)
    requires Sized(body, i, v, start)
    ensures SizeLine(body, i) == Some(Line(v, start))
  {
    var end: nat :| LineTo(body, i, end, start) && Sizes(body[i..end], v);
    LineEnds(body, i, end, start);
    SizesRead(body, i, end, v);
  }

  lemma {:induction false} SizesRead(s: Bytes, i: nat, end: nat, v: int)
    requires i <= end <= |s| && Sizes(s[i..end], v)
    ensures ParseSize(s, i, end) == Some(v)
  {
    var lead, n, trail, ext :| Spells(s[i..end], lead, n, trail, ext) && n.Value() == v;
    SizeRead(s, i, end, lead, n, trail, ext);
  }

  lemma {:induction false} LineEnds(body: Bytes, i: nat, end: nat, start: nat)
    requires LineTo(body, i, end, start)
    ensures var size := ParseSize(body, i, end);
      SizeLine(body, i) == if size.None? then None else Some(Line(size.value, start))
  {
    CrlfIs(body, i);
    LfIs(body, i);
    if CrlfAt(body, end) {
      assert FindCrlf(body, i) == Some(end);
    } else {
      assert FindCrlf(body, i).None? && FindLf(body, i) == Some(end);
    }
  }
}
