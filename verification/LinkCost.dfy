/** The amortised cost of linking: failure steps are paid by depth along each pattern. */
module LinkCost {
  import opened Suffixes
  import opened SetSums

  ghost predicate Begins(x: string, patterns: set<string>) {
    exists w :: w in patterns && x <= w
  }

  /** Per linked string: the failure steps it took, and the depth of its failure link. */
  datatype Link = Link(hops: nat, depth: nat)

  /** The link of `x` climbs at most one level above its parent's, and every step drops one. */
  ghost predicate Paid(x: string, links: map<string, Link>)
    requires x in links
  {
    x != "" ==>
      && x[..|x| - 1] in links
      && links[x].hops + links[x].depth <= links[x[..|x| - 1]].depth + 1
  }

  ghost predicate Amortised(links: map<string, Link>) {
    && "" in links && links[""] == Link(0, 0)
    && forall x {:trigger Paid(x, links)} :: x in links ==> Paid(x, links)
  }

  ghost function Hops(links: map<string, Link>): string -> int {
    x => if x in links then links[x].hops else 0
  }

  ghost function Length(w: string): int { |w| }

  ghost function TotalLength(patterns: set<string>): int { Sum(patterns, Length) }

  ghost function Prefixes(w: string): set<string> {
    set n | 0 <= n <= |w| :: w[..n]
  }

  lemma {:induction false} PathCost(links: map<string, Link>, w: string)
    requires Amortised(links) && w in links
    ensures Sum(Prefixes(w), Hops(links)) + links[w].depth <= |w|
    decreases |w|
  {
    var f := Hops(links);
    if w == "" {
      assert Prefixes(w) == {""} && {} + {""} == {""};
      SumAdd({}, f, "");
    } else {
      var v := w[..|w| - 1];
      assert Paid(w, links);
      PathCost(links, v);
      forall x ensures x in Prefixes(w) <==> x in Prefixes(v) + {w} {
        if x in Prefixes(w) {
          var n :| 0 <= n <= |w| && x == w[..n];
          if n < |w| { assert x == v[..n]; } else { assert x == w; }
        }
        if x in Prefixes(v) {
          var n :| 0 <= n <= |v| && x == v[..n];
          assert x == w[..n];
        }
        assert w == w[..|w|];
      }
      assert Prefixes(w) == Prefixes(v) + {w};
      SumAdd(Prefixes(v), f, w);
    }
  }

  lemma {:induction false} CoverCost(links: map<string, Link>, cover: set<string>, patterns: set<string>)
    requires Amortised(links) && patterns <= links.Keys
    requires cover <= links.Keys
    requires forall x {:trigger Begins(x, patterns)} :: x in cover ==> Begins(x, patterns)
    ensures Sum(cover, Hops(links)) <= TotalLength(patterns)
    decreases patterns
  {
    var f := Hops(links);
    if patterns == {} {
      assert forall x :: x in cover ==> Begins(x, patterns);
    } else {
      var w :| w in patterns;
      var rest := patterns - {w};
      var own, other := set x | x in cover && x <= w, set x | x in cover && !(x <= w);
      SumRemove(patterns, Length, w);
      forall x | x in other ensures Begins(x, rest) {
        assert Begins(x, patterns);
        var v :| v in patterns && x <= v;
        assert v in rest;
      }
      forall x | x in own ensures x in Prefixes(w) { assert x == w[..|x|]; }
      CoverCost(links, other, rest);
      PathCost(links, w);
      SumSubset(own, Prefixes(w), f);
      assert own + other == cover;
      SumUnion(own, other, f);
    }
  }

  /** All failure steps together number at most the summed pattern lengths. */
  lemma {:induction false} TotalCost(links: map<string, Link>, patterns: set<string>)
    requires Amortised(links) && patterns <= links.Keys
    requires forall x {:trigger Begins(x, patterns)} :: x in links && x != "" ==> Begins(x, patterns)
    ensures Sum(links.Keys, Hops(links)) <= TotalLength(patterns)
  {
    CoverCost(links, links.Keys - {""}, patterns);
    SumRemove(links.Keys, Hops(links), "");
  }

  lemma {:induction false} AddLink(links: map<string, Link>, x: string, link: Link)
    requires Amortised(links) && x !in links && x != "" && x[..|x| - 1] in links
    requires link.hops + link.depth <= links[x[..|x| - 1]].depth + 1
    ensures Amortised(links[x := link]) && links[x := link].Keys == links.Keys + {x}
    ensures Sum(links[x := link].Keys, Hops(links[x := link])) == Sum(links.Keys, Hops(links)) + link.hops
  {
    var links' := links[x := link];
    assert links'.Keys == links.Keys + {x};
    forall y | y in links' ensures Paid(y, links') {
      if y != x { assert Paid(y, links); }
    }
    SumAdd(links.Keys, Hops(links'), x);
    SumAgree(links.Keys, Hops(links), Hops(links'));
  }
}
