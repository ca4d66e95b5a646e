/** Finding the registrable domain of a name with the Public Suffix List. */
module PublicSuffix {

  datatype Rules = Rules(exact: set<string>, wildcard: set<string>, exception: set<string>)

  // ----- names and labels

  function Join(labels: seq<string>): string {
    if labels == [] then ""
    else if |labels| == 1 then labels[0]
    else labels[0] + "." + Join(labels[1..])
  }

  /** `name.split(".")`. */
  function Split(name: string): (labels: seq<string>)
    ensures |labels| >= 1
  {
    if name == "" then [""]
    else
      var rest := Split(name[1..]);
      if name[0] == '.' then [""] + rest else [[name[0]] + rest[0]] + rest[1..]
  }

  predicate NoDot(part: string) { '.' !in part }

  /** A name in the form the lookups use: labels that are not empty, separated by dots. */
  predicate Normal(labels: seq<string>) {
    labels != [] && forall i :: 0 <= i < |labels| ==> labels[i] != "" && NoDot(labels[i])
  }

  lemma {:induction false} JoinSplit(name: string)
    ensures Join(Split(name)) == name
    ensures forall i :: 0 <= i < |Split(name)| ==> NoDot(Split(name)[i])
  {
    if name != "" {
      var rest := Split(name[1..]);
      JoinSplit(name[1..]);
      var labels := Split(name);
      if name[0] == '.' {
        assert labels[1..] == rest;
        assert Join(labels) == "" + "." + Join(rest);
        assert name == ['.'] + name[1..];
      } else {
        assert labels[1..] == rest[1..];
        assert name == [name[0]] + name[1..];
        if |rest| == 1 {
          assert Join(rest) == rest[0];
        } else {
          assert Join(labels) == [name[0]] + rest[0] + "." + Join(rest[1..]);
          assert Join(rest) == rest[0] + "." + Join(rest[1..]);
          assert [name[0]] + (rest[0] + "." + Join(rest[1..])) == [name[0]] + rest[0] + "." + Join(rest[1..]);
        }
      }
    }
  }

  lemma {:induction false} SplitJoin(labels: seq<string>)
    requires labels != [] && forall i :: 0 <= i < |labels| ==> NoDot(labels[i])
    ensures Split(Join(labels)) == labels
  {
    if |labels| == 1 {
      SplitLabel(labels[0], "");
      assert labels[0] + "" == labels[0] && labels == [labels[0]];
    } else {
      SplitJoin(labels[1..]);
      var tail := "." + Join(labels[1..]);
      assert tail[1..] == Join(labels[1..]) && tail[0] == '.';
      assert Split(tail) == [""] + labels[1..] && Split(tail)[1..] == labels[1..];
      SplitLabel(labels[0], tail);
      assert Join(labels) == labels[0] + tail;
      assert labels[0] + "" == labels[0] && labels == [labels[0]] + labels[1..];
    }
  }

  /** A dot-free prefix joins the first part of what follows. */
  lemma {:induction false} SplitLabel(part: string, tail: string)
    requires NoDot(part)
    ensures Split(part + tail) == [part + Split(tail)[0]] + Split(tail)[1..]
  {
    var rest := Split(tail);
    if part == "" {
      assert part + tail == tail && rest == [rest[0]] + rest[1..] && part + rest[0] == rest[0];
    } else {
      assert (part + tail)[1..] == part[1..] + tail && (part + tail)[0] == part[0];
      SplitLabel(part[1..], tail);
      assert [part[0]] + (part[1..] + rest[0]) == part + rest[0];
    }
  }

  // ----- rules

  /** The last `c` labels. */
  function Last(labels: seq<string>, c: nat): seq<string>
    requires c <= |labels|
  {
    labels[|labels| - c..]
  }

  predicate Hit(rules: set<string>, labels: seq<string>, c: nat)
    requires c <= |labels|
  {
    Join(Last(labels, c)) in rules
  }

  /** The largest count from 1 to `c` whose suffix is a rule, or 0. */
  function LongestHit(rules: set<string>, labels: seq<string>, c: nat): (n: nat)
    requires c <= |labels|
    ensures n <= c
  {
    if c == 0 then 0 else if Hit(rules, labels, c) then c else LongestHit(rules, labels, c - 1)
  }

  lemma {:induction false} LongestHitIs(rules: set<string>, labels: seq<string>, c: nat)
    requires c <= |labels|
    ensures Largest(LongestHit(rules, labels, c), rules, labels, 0, c)
  {
    if c > 0 && !Hit(rules, labels, c) { LongestHitIs(rules, labels, c - 1); }
  }

  function Max(a: nat, b: nat): nat { if a >= b then a else b }

  /** How many labels the public suffix of a name has. */
  function SuffixLabels(labels: seq<string>, rules: Rules): nat
    requires labels != []
  {
    var e := LongestHit(rules.exception, labels, |labels|);
    var x := LongestHit(rules.exact, labels, |labels|);
    var w := LongestHit(rules.wildcard, labels, |labels| - 1);
    if e > 0 then e - 1 else Max(1, Max(x, if w > 0 then w + 1 else 0))
  }

  /** The registrable domain, given which names are addresses. */
  function Registrable(name: string, rules: Rules, isIp: string -> bool): string {
    var labels := Split(name);
    if name == "" || isIp(name) || |labels| == 1 then name
    else
      var n := SuffixLabels(labels, rules);
      if |labels| <= n then name else Join(Last(labels, n + 1))
  }

  /** An empty name, an address and a single label are their own base. Any other name is cut to its
      public suffix and one label more, if it has that many. */
  method RegistrableDomain(name: string, rules: Rules, isIp: string -> bool) returns (base: string)
    ensures name == "" || isIp(name) || |Split(name)| == 1 ==> base == name
    ensures name != "" && !isIp(name) && |Split(name)| > 1 ==> IsBase(name, rules, base)
    ensures base == Registrable(name, rules, isIp)
  {
    base := CutName(name, rules, isIp);
    CutAsPrescribed(name, rules, isIp, base);
  }

  method CutName(name: string, rules: Rules, isIp: string -> bool) returns (base: string)
    ensures name == "" || isIp(name) || |Split(name)| == 1 ==> base == name
    ensures base == Registrable(name, rules, isIp)
  {
    if name == "" || isIp(name) {
      return name;
    }
    var labels := Split(name);
    if |labels| == 1 {
      return name;
    }
    var n := CountSuffixLabels(labels, rules);
    if |labels| <= n {
      return name;
    }
    return Join(labels[|labels| - (n + 1)..]);
  }

  /** The loop over all suffixes, longest first, with its three maxima. */
  method CountSuffixLabels(labels: seq<string>, rules: Rules) returns (n: nat)
    requires labels != []
    ensures n == SuffixLabels(labels, rules)
  {
    var e: nat, x: nat, w: nat := 0, 0, 0;
    for i := 0 to |labels|
      invariant Maxima(e, x, w, rules, labels, i)
    {
      var count := |labels| - i;
      var suffix := Join(labels[i..]);
      MaximaStep(e, x, w, rules, labels, i);
      if suffix in rules.exception { e := Max(e, count); }
      if suffix in rules.exact { x := Max(x, count); }
      if i > 0 && suffix in rules.wildcard { w := Max(w, count + 1); }
    }
    MaximaEnd(e, x, w, rules, labels);
    n := if e > 0 then e - 1 else Max(1, Max(x, w));
  }

  /** The maxima after the suffixes from the first `i` indices; a wildcard needs one label more. */
  predicate Maxima(e: nat, x: nat, w: nat, rules: Rules, labels: seq<string>, i: nat)
    requires i <= |labels| && labels != []
  {
    && Largest(e, rules.exception, labels, |labels| - i, |labels|)
    && Largest(x, rules.exact, labels, |labels| - i, |labels|)
    && (i == 0 ==> w == 0) && w != 1
    && Largest(Dec(w), rules.wildcard, labels, if i == 0 then |labels| - 1 else |labels| - i, |labels| - 1)
  }

  lemma {:induction false} MaximaStep(e: nat, x: nat, w: nat, rules: Rules, labels: seq<string>, i: nat)
    requires i < |labels| && Maxima(e, x, w, rules, labels, i)
    ensures var count, suffix := |labels| - i, Join(labels[i..]);
      Maxima(if suffix in rules.exception then Max(e, count) else e, if suffix in rules.exact then Max(x, count) else x,
             if i > 0 && suffix in rules.wildcard then Max(w, count + 1) else w, rules, labels, i + 1)
  {
    var count := |labels| - i;
    LargestStep(e, rules.exception, labels, count, |labels|);
    LargestStep(x, rules.exact, labels, count, |labels|);
    if i > 0 { LargestStep(Dec(w), rules.wildcard, labels, count, |labels| - 1); }
  }

  lemma {:induction false} MaximaEnd(e: nat, x: nat, w: nat, rules: Rules, labels: seq<string>)
    requires labels != [] && Maxima(e, x, w, rules, labels, |labels|)
    ensures SuffixLabels(labels, rules) == if e > 0 then e - 1 else Max(1, Max(x, w))
  {
    LargestIs(e, rules.exception, labels, |labels|);
    LargestIs(x, rules.exact, labels, |labels|);
    LargestIs(Dec(w), rules.wildcard, labels, |labels| - 1);
  }

  /** `n` is the largest hit above `lo` and up to `hi`, or 0 if there is none. */
  predicate Largest(n: nat, rules: set<string>, labels: seq<string>, lo: nat, hi: nat)
    requires hi <= |labels|
  {
    && (n == 0 || (lo < n <= hi && Hit(rules, labels, n)))
    && forall k :: lo < k <= hi && k > n ==> !Hit(rules, labels, k)
  }

  function Dec(w: nat): nat { if w > 0 then w - 1 else 0 }

  lemma {:induction false} LargestStep(n: nat, rules: set<string>, labels: seq<string>, count: nat, hi: nat)
    requires 1 <= count <= hi <= |labels| && Largest(n, rules, labels, count, hi)
    ensures Largest(if Join(labels[|labels| - count..]) in rules then Max(n, count) else n,
                    rules, labels, count - 1, hi)
  {
    assert Hit(rules, labels, count) == (Join(labels[|labels| - count..]) in rules);
  }

  lemma {:induction false} LargestIs(n: nat, rules: set<string>, labels: seq<string>, hi: nat)
    requires hi <= |labels| && Largest(n, rules, labels, 0, hi)
    ensures n == LongestHit(rules, labels, hi)
  {
    LongestHitIs(rules, labels, hi);
  }

  // ----- what the list prescribes

  datatype Rule = Exact(labels: seq<string>) | Wildcard(labels: seq<string>) | Exception(labels: seq<string>) {
    predicate In(rules: Rules) {
      match this
      case Exact(l) => Join(l) in rules.exact
      case Wildcard(l) => Join(l) in rules.wildcard
      case Exception(l) => Join(l) in rules.exception
    }
    /** The labels of the rule, the `*` included. */
    function Count(): nat { |labels| + if Wildcard? then 1 else 0 }
    /** Label by part from the right; `*` stands for any one part. */
    predicate Matches(name: seq<string>) {
      labels != [] && Count() <= |name| && Last(name, |labels|) == labels
    }
  }

  /** The public suffix of `name` has `n` labels by the published algorithm: a matching exception
      rule prevails, less its leftmost part; otherwise the matching rule with the most labels;
      and if none matches, the rule `*`. */
  ghost predicate Prescribed(name: seq<string>, rules: Rules, n: nat) {
    if exists r: Rule :: r.Exception? && r.In(rules) && r.Matches(name) then
      exists r: Rule :: r.Exception? && r.In(rules) && r.Matches(name) && n == r.Count() - 1 &&
        forall s: Rule :: s.Exception? && s.In(rules) && s.Matches(name) ==> s.Count() <= r.Count()
    else
      && (n == 1 || exists r: Rule :: r.In(rules) && r.Matches(name) && n == r.Count())
      && n >= 1 && forall s: Rule :: s.In(rules) && s.Matches(name) ==> s.Count() <= n
  }

  lemma {:induction false} RuleHits(r: Rule, rules: Rules, name: seq<string>)
    requires r.In(rules) && r.Matches(name)
    ensures r.Exception? ==> 1 <= r.Count() <= LongestHit(rules.exception, name, |name|)
    ensures r.Exact? ==> r.Count() <= LongestHit(rules.exact, name, |name|)
    ensures r.Wildcard? ==> 1 <= r.Count() - 1 <= LongestHit(rules.wildcard, name, |name| - 1)
  {
    var hits := if r.Exact? then rules.exact else if r.Wildcard? then rules.wildcard else rules.exception;
    assert Hit(hits, name, |r.labels|);
    LongestHitIs(hits, name, if r.Wildcard? then |name| - 1 else |name|);
  }

  /** The code follows the published algorithm, for every rule set and name. */
  lemma {:induction false} FollowsTheList(labels: seq<string>, rules: Rules)
    requires labels != []
    ensures Prescribed(labels, rules, SuffixLabels(labels, rules))
  {
    var n := SuffixLabels(labels, rules);
    var e := LongestHit(rules.exception, labels, |labels|);
    var x := LongestHit(rules.exact, labels, |labels|);
    var w := LongestHit(rules.wildcard, labels, |labels| - 1);
    LongestHitIs(rules.exception, labels, |labels|);
    LongestHitIs(rules.exact, labels, |labels|);
    LongestHitIs(rules.wildcard, labels, |labels| - 1);
    forall s: Rule | s.In(rules) && s.Matches(labels)
      ensures if s.Exception? then 1 <= s.Count() <= e else s.Count() <= Max(x, if w > 0 then w + 1 else 0)
    {
      RuleHits(s, rules, labels);
    }
    if e > 0 {
      var r := Exception(Last(labels, e));
      assert r.In(rules) && r.Matches(labels) && r.Count() == e;
    } else {
      if n > 1 {
        var r := if n == x then Exact(Last(labels, x)) else Wildcard(Last(labels, w));
        assert r.In(rules) && r.Matches(labels) && r.Count() == n;
      }
    }
  }

  /** The algorithm prescribes one length only. */
  lemma {:induction false} PrescribedOnce(name: seq<string>, rules: Rules, m: nat, n: nat)
    requires Prescribed(name, rules, m) && Prescribed(name, rules, n)
    ensures m == n
  {
    if r: Rule :| r.Exception? && r.In(rules) && r.Matches(name) {
      MostLabels(name, rules, m, n);
    } else {
      AtMost(name, rules, m, n);
      AtMost(name, rules, n, m);
    }
  }

  lemma {:induction false} MostLabels(name: seq<string>, rules: Rules, m: nat, n: nat)
    requires exists r: Rule :: r.Exception? && r.In(rules) && r.Matches(name)
    requires Prescribed(name, rules, m) && Prescribed(name, rules, n)
    ensures m == n
  {
    var r: Rule :| r.Exception? && r.In(rules) && r.Matches(name) && m == r.Count() - 1 &&
      forall s: Rule :: s.Exception? && s.In(rules) && s.Matches(name) ==> s.Count() <= r.Count();
    var t: Rule :| t.Exception? && t.In(rules) && t.Matches(name) && n == t.Count() - 1 &&
      forall s: Rule :: s.Exception? && s.In(rules) && s.Matches(name) ==> s.Count() <= t.Count();
    assert r.Count() <= t.Count() && t.Count() <= r.Count();
  }

  lemma {:induction false} AtMost(name: seq<string>, rules: Rules, m: nat, n: nat)
    requires !exists r: Rule :: r.Exception? && r.In(rules) && r.Matches(name)
    requires Prescribed(name, rules, m) && Prescribed(name, rules, n)
    ensures m <= n
  {
    if m > 1 {
      var r: Rule :| r.In(rules) && r.Matches(name) && m == r.Count();
    }
  }

  /** `base` is `name`, cut to its last `n + 1` labels if it has more than `n`. */
  predicate CutTo(name: string, n: nat, base: string) {
    var labels := Split(name);
    if |labels| <= n then base == name else base == Join(labels[|labels| - (n + 1)..])
  }

  /** The algorithm prescribes a public suffix for `name`, and `base` has one label more. */
  ghost predicate IsBase(name: string, rules: Rules, base: string) {
    exists n {:trigger CutTo(name, n, base)} :: OnlyPrescribed(Split(name), rules, n) && CutTo(name, n, base)
  }

  ghost predicate OnlyPrescribed(labels: seq<string>, rules: Rules, n: nat) {
    Prescribed(labels, rules, n) && forall m :: Prescribed(labels, rules, m) ==> m == n
  }

  lemma {:induction false} SuffixIsPrescribed(labels: seq<string>, rules: Rules)
    requires labels != []
    ensures OnlyPrescribed(labels, rules, SuffixLabels(labels, rules))
  {
    var n := SuffixLabels(labels, rules);
    FollowsTheList(labels, rules);
    forall m | Prescribed(labels, rules, m) ensures m == n { PrescribedOnce(labels, rules, m, n); }
  }

  lemma {:induction false} CutAsPrescribed(name: string, rules: Rules, isIp: string -> bool, base: string)
    requires base == Registrable(name, rules, isIp)
    ensures name != "" && !isIp(name) && |Split(name)| > 1 ==> IsBase(name, rules, base)
  {
    SuffixIsPrescribed(Split(name), rules);
    if name != "" && !isIp(name) && |Split(name)| > 1 {
      assert CutTo(name, SuffixLabels(Split(name), rules), base);
    }
  }

  // ----- what follows for names

  /** The registrable domain is a suffix of the name, label by label. */
  lemma {:induction false} IsLabelSuffix(name: string, rules: Rules, isIp: string -> bool)
    ensures exists c :: 0 < c <= |Split(name)| && Registrable(name, rules, isIp) == Join(Last(Split(name), c))
  {
    var labels := Split(name);
    JoinSplit(name);
    var n := if name == "" || isIp(name) || |labels| == 1 || |labels| <= SuffixLabels(labels, rules)
             then |labels| else SuffixLabels(labels, rules) + 1;
    assert Last(labels, |labels|) == labels;
    assert Registrable(name, rules, isIp) == Join(Last(labels, n));
  }

  /** Cutting a name down to `m` labels keeps the hits up to `m`. */
  lemma {:induction false} HitsOfLast(rules: set<string>, labels: seq<string>, m: nat, c: nat)
    requires c <= m <= |labels|
    ensures LongestHit(rules, Last(labels, m), c) == LongestHit(rules, labels, c)
  {
    assert Last(Last(labels, m), c) == Last(labels, c);
    if c > 0 { HitsOfLast(rules, labels, m, c - 1); }
  }

  lemma {:induction false} HitsBelow(rules: set<string>, labels: seq<string>, c: nat, d: nat)
    requires c <= d <= |labels| && LongestHit(rules, labels, d) <= c
    ensures LongestHit(rules, labels, c) == LongestHit(rules, labels, d)
  {
    if c < d { HitsBelow(rules, labels, c, d - 1); }
  }

  lemma {:induction false} SameHits(rules: set<string>, labels: seq<string>, m: nat, c: nat, d: nat)
    requires c <= m <= |labels| && c <= d <= |labels| && LongestHit(rules, labels, d) <= c
    ensures LongestHit(rules, Last(labels, m), c) == LongestHit(rules, labels, d)
  {
    HitsOfLast(rules, labels, m, c);
    HitsBelow(rules, labels, c, d);
  }

  /** The base of a name has the same public suffix as the name. */
  lemma {:induction false} BaseKeepsSuffix(labels: seq<string>, rules: Rules)
    requires labels != [] && SuffixLabels(labels, rules) < |labels|
    ensures SuffixLabels(Last(labels, SuffixLabels(labels, rules) + 1), rules) == SuffixLabels(labels, rules)
  {
    var n := SuffixLabels(labels, rules);
    var m := n + 1;
    SameHits(rules.exception, labels, m, m, |labels|);
    if LongestHit(rules.exception, labels, |labels|) == 0 {
      SameHits(rules.exact, labels, m, m, |labels|);
      SameHits(rules.wildcard, labels, m, m - 1, |labels| - 1);
    }
  }

  /** The registrable domain of a registrable domain is itself. */
  lemma {:induction false} FixedPoint(name: string, rules: Rules, isIp: string -> bool)
    ensures var base := Registrable(name, rules, isIp); Registrable(base, rules, isIp) == base
  {
    var labels := Split(name);
    JoinSplit(name);
    if !(name == "" || isIp(name) || |labels| == 1) {
      var n := SuffixLabels(labels, rules);
      if n < |labels| {
        var last := Last(labels, n + 1);
        SplitJoin(last);
        BaseKeepsSuffix(labels, rules);
        assert Last(last, n + 1) == last;
      }
    }
  }

  // ----- subdomains

  predicate EndsWith(name: string, tail: string) {
    |tail| <= |name| && name[|name| - |tail|..] == tail
  }

  /** The part of the name before its base, as `describe` reports it. */
  function Subdomain(name: string, base: string): string {
    if name != "" && base != "" && name != base && EndsWith(name, "." + base)
    then name[..|name| - (|base| + 1)] else ""
  }

  lemma {:induction false} JoinAppend(a: seq<string>, b: seq<string>)
    requires a != [] && b != []
    ensures Join(a + b) == Join(a) + "." + Join(b)
  {
    if |a| == 1 {
      assert (a + b)[1..] == b;
    } else {
      assert (a + b)[1..] == a[1..] + b;
      JoinAppend(a[1..], b);
      assert a[0] + "." + (Join(a[1..]) + "." + Join(b)) == a[0] + "." + Join(a[1..]) + "." + Join(b);
    }
  }

  lemma {:induction false} JoinNonEmpty(labels: seq<string>)
    requires Normal(labels)
    ensures Join(labels) != ""
  {
  }

  lemma {:induction false} SubdomainIs(name: string, sub: string, base: string)
    requires name == sub + "." + base && base != ""
    ensures Subdomain(name, base) == sub && name != base
  {
    assert name[..|sub|] == sub && name[|sub|..] == "." + base;
  }

  /** The name cut after its first `c` labels. */
  ghost predicate CutAt(labels: seq<string>, c: nat, sub: string, base: string) {
    0 < c < |labels| && sub == Join(labels[..c]) && base == Join(labels[c..])
  }

  /** For a name in normal form, a subdomain is reported exactly when the base is shorter than
      the name; it is the remaining labels; and subdomain, dot and base rebuild the name. */
  lemma {:induction false} SubdomainRebuilds(name: string, rules: Rules, isIp: string -> bool)
    requires Normal(Split(name))
    ensures var base := Registrable(name, rules, isIp); var sub := Subdomain(name, base);
      && (sub != "" <==> name != base)
      && (name != base ==> name == sub + "." + base && exists c :: CutAt(Split(name), c, sub, base))
  {
    var labels, base := Split(name), Registrable(name, rules, isIp);
    JoinSplit(name);
    IsLabelSuffix(name, rules, isIp);
    var m :| 0 < m <= |labels| && base == Join(Last(labels, m));
    var c := |labels| - m;
    if c == 0 {
      assert labels[0..] == labels;
    } else {
      JoinNonEmpty(labels[..c]);
      JoinNonEmpty(labels[c..]);
      JoinAppend(labels[..c], labels[c..]);
      assert labels == labels[..c] + labels[c..];
      SubdomainIs(name, Join(labels[..c]), base);
      assert CutAt(labels, c, Subdomain(name, base), base);
    }
  }
}
