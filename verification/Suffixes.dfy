/** The strings a multi-pattern matcher reasons about: suffixes, occurrences and
    the longest suffix of a text that a trie holds. */
module Suffixes {

  predicate IsSuffix(s: string, t: string) {
    |s| <= |t| && t[|t| - |s|..] == s
  }

  /** The reference meaning of a match: `p` is a contiguous substring of `text`. */
  ghost predicate Occurs(p: string, text: string) {
    exists i, j :: 0 <= i <= j <= |text| && text[i..j] == p
  }

  ghost predicate HasParent(p: string, trie: set<string>) {
    p != "" ==> p[..|p| - 1] in trie
  }

  /** `trie` holds the empty string and the parent of each of its strings. */
  ghost predicate PrefixClosed(trie: set<string>) {
    && "" in trie
    && forall p {:trigger HasParent(p, trie)} :: p in trie ==> HasParent(p, trie)
  }

  lemma {:induction false} Parent(p: string, c: char, trie: set<string>)
    requires PrefixClosed(trie) && p + [c] in trie
    ensures p in trie
  {
    assert HasParent(p + [c], trie) && (p + [c])[..|p|] == p;
  }

  /** `s` is the longest suffix of `t` in `trie`. */
  ghost predicate IsLongest(s: string, t: string, trie: set<string>) {
    && s in trie && IsSuffix(s, t)
    && forall u :: u in trie && IsSuffix(u, t) ==> |u| <= |s|
  }

  /** `f` is the longest proper suffix of `p` in `trie`. */
  ghost predicate IsFail(f: string, p: string, trie: set<string>) {
    && f in trie && IsSuffix(f, p) && |f| < |p|
    && forall u :: u in trie && IsSuffix(u, p) && |u| < |p| ==> |u| <= |f|
  }

  /** The patterns that end where `t` ends. */
  ghost function Ending(t: string, patterns: set<string>): set<string> {
    set w | w in patterns && IsSuffix(w, t)
  }

  /** `f` is a proper suffix of `p`, and no longer one can be extended by `c`:
      the state of a walk along failure links that looks for a `c` edge. */
  ghost predicate Walks(f: string, p: string, c: char, bound: int, trie: set<string>) {
    && f in trie && IsSuffix(f, p) && |f| < bound
    && forall u :: u + [c] in trie && IsSuffix(u, p) && |u| < bound ==> |u| <= |f|
  }

  lemma {:induction false} TakeSnoc(t: string, i: nat)
    requires i < |t|
    ensures t[..i + 1] == t[..i] + [t[i]]
  {
  }

  lemma {:induction false} SuffixTransitive(s: string, t: string, u: string)
    requires IsSuffix(s, t) && IsSuffix(t, u)
    ensures IsSuffix(s, u)
  {
    assert u[|u| - |s|..] == u[|u| - |t|..][|t| - |s|..];
  }

  /** Of two suffixes of one string, the shorter is a suffix of the longer. */
  lemma {:induction false} SuffixesNest(s: string, t: string, u: string)
    requires IsSuffix(s, u) && IsSuffix(t, u) && |s| <= |t|
    ensures IsSuffix(s, t)
  {
    assert t[|t| - |s|..] == u[|u| - |s|..];
  }

  lemma {:induction false} SuffixSnoc(s: string, t: string, c: char)
    ensures IsSuffix(s + [c], t + [c]) <==> IsSuffix(s, t)
  {
    if |s| <= |t| {
      assert (t + [c])[|t| + 1 - (|s| + 1)..] == t[|t| - |s|..] + [c];
      assert (s + [c])[..|s|] == s && (t[|t| - |s|..] + [c])[..|s|] == t[|t| - |s|..];
    }
  }

  /** A non-empty suffix of `t + [c]` is a suffix of `t` with `c` behind it. */
  lemma {:induction false} SuffixUnsnoc(v: string, t: string, c: char)
    requires IsSuffix(v, t + [c]) && v != ""
    ensures v == v[..|v| - 1] + [c] && IsSuffix(v[..|v| - 1], t)
  {
    assert v[|v| - 1] == (t + [c])[|t|];
    assert v == v[..|v| - 1] + [v[|v| - 1]];
    SuffixSnoc(v[..|v| - 1], t, c);
  }

  /** Following one failure link keeps the walk sound. */
  lemma {:induction false} WalkStep(f: string, g: string, p: string, c: char, bound: int, trie: set<string>)
    requires Walks(f, p, c, bound, trie) && PrefixClosed(trie)
    requires f + [c] !in trie && IsFail(g, f, trie)
    ensures Walks(g, p, c, bound, trie)
  {
    SuffixTransitive(g, f, p);
    forall u | u + [c] in trie && IsSuffix(u, p) && |u| < bound
      ensures |u| <= |g|
    {
      Parent(u, c, trie);
      SuffixesNest(u, f, p);
    }
  }

  /** Where a walk stops, its `c` edge (or the root, when there is none) is the
      longest suffix of `p + [c]` of length at most `bound` in the trie. */
  lemma {:induction false} WalkEnd(f: string, p: string, c: char, bound: int, g: string, trie: set<string>)
    requires Walks(f, p, c, bound, trie) && PrefixClosed(trie)
    requires g == (if f + [c] in trie then f + [c] else "")
    requires f == "" || f + [c] in trie
    ensures g in trie && IsSuffix(g, p + [c]) && |g| <= bound
    ensures forall v :: v in trie && IsSuffix(v, p + [c]) && |v| <= bound ==> |v| <= |g|
  {
    SuffixSnoc(f, p, c);
    forall v | v in trie && IsSuffix(v, p + [c]) && |v| <= bound
      ensures |v| <= |g|
    {
      if v != "" {
        SuffixUnsnoc(v, p, c);
        assert v[..|v| - 1] + [c] in trie;
      }
    }
  }

  /** A walk over the proper suffixes of `p` finds the failure link of `p + [c]`. */
  lemma {:induction false} WalkFindsFail(f: string, p: string, c: char, g: string, trie: set<string>)
    requires Walks(f, p, c, |p|, trie) && PrefixClosed(trie)
    requires g == (if f + [c] in trie then f + [c] else "")
    requires f == "" || f + [c] in trie
    ensures IsFail(g, p + [c], trie)
  {
    WalkEnd(f, p, c, |p|, g, trie);
  }

  /** A walk over all suffixes of `t` finds the longest suffix of `t + [c]`. */
  lemma {:induction false} WalkFindsLongest(f: string, t: string, c: char, g: string, trie: set<string>)
    requires Walks(f, t, c, |t| + 1, trie) && PrefixClosed(trie)
    requires g == (if f + [c] in trie then f + [c] else "")
    requires f == "" || f + [c] in trie
    ensures IsLongest(g, t + [c], trie)
  {
    WalkEnd(f, t, c, |t| + 1, g, trie);
  }

  lemma {:induction false} WalkStart(f: string, t: string, c: char, bound: int, trie: set<string>)
    requires PrefixClosed(trie)
    requires (bound == |t| + 1 && IsLongest(f, t, trie)) || (bound == |t| && IsFail(f, t, trie))
    ensures Walks(f, t, c, bound, trie)
  {
    forall u | u + [c] in trie ensures u in trie { Parent(u, c, trie); }
  }

  /** The patterns ending at `p` are `p` itself, if it is one, and those ending at its failure link. */
  lemma {:induction false} EndingViaFail(p: string, f: string, trie: set<string>, patterns: set<string>)
    requires IsFail(f, p, trie) && patterns <= trie
    ensures Ending(p, patterns) == (if p in patterns then {p} else {}) + Ending(f, patterns)
  {
    forall w | w in patterns
      ensures IsSuffix(w, p) <==> w == p || IsSuffix(w, f)
    {
      if IsSuffix(w, p) && |w| < |p| { SuffixesNest(w, f, p); }
      if IsSuffix(w, f) { SuffixTransitive(w, f, p); }
    }
  }

  /** The patterns ending at a text are those ending at its longest suffix in the trie. */
  lemma {:induction false} EndingViaLongest(t: string, s: string, trie: set<string>, patterns: set<string>)
    requires IsLongest(s, t, trie) && patterns <= trie
    ensures Ending(t, patterns) == Ending(s, patterns)
  {
    forall w | w in patterns
      ensures IsSuffix(w, t) <==> IsSuffix(w, s)
    {
      if IsSuffix(w, t) { SuffixesNest(w, s, t); }
      if IsSuffix(w, s) { SuffixTransitive(w, s, t); }
    }
  }

  /** The reference result of a search: one substring test per pattern. */
  ghost function Found(text: string, patterns: set<string>): set<string> {
    set w | w in patterns && Occurs(w, text)
  }

  lemma {:induction false} FoundSnoc(text: string, i: nat, patterns: set<string>)
    requires i < |text|
    ensures Found(text[..i + 1], patterns) == Found(text[..i], patterns) + Ending(text[..i + 1], patterns)
  {
    forall w | w in patterns { OccursSnoc(w, text, i); }
  }

  lemma {:induction false} FoundMonotone(text: string, i: nat, patterns: set<string>)
    requires i <= |text|
    ensures Found(text[..i], patterns) <= Found(text, patterns)
  {
    forall w | w in Found(text[..i], patterns) ensures Occurs(w, text) {
      var a, b :| 0 <= a <= b <= i && text[..i][a..b] == w;
      assert text[a..b] == w;
    }
  }

  lemma {:induction false} FoundEmpty(patterns: set<string>)
    requires "" !in patterns
    ensures Found("", patterns) == {}
  {
  }

  /** A pattern occurs in one more character of text exactly when it occurred before or ends there. */
  lemma {:induction false} OccursSnoc(p: string, text: string, i: nat)
    requires i < |text|
    ensures Occurs(p, text[..i + 1]) <==> Occurs(p, text[..i]) || IsSuffix(p, text[..i + 1])
  {
    var t, t' := text[..i], text[..i + 1];
    if Occurs(p, t') {
      var a, b :| 0 <= a <= b <= |t'| && t'[a..b] == p;
      if b <= i {
        assert t[a..b] == p;
      } else {
        assert t'[|t'| - |p|..] == p;
      }
    }
    if Occurs(p, t) {
      var a, b :| 0 <= a <= b <= |t| && t[a..b] == p;
      assert t'[a..b] == p;
    }
    if IsSuffix(p, t') {
      assert t'[|t'| - |p|..|t'|] == p;
    }
  }
}
