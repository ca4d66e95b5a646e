/** The matcher: a trie of node objects, its failure links, and the scans over it. */
module Matcher {
  import opened Suffixes
  import opened BreadthFirst
  import opened LinkCost
  import opened SetSums

  /** A breadth-first pass: the paths queued, expanded and being expanded, the edges
      left of the latter, and the links made so far. */
  datatype Pass = Pass(paths: seq<string>, done: set<string>, current: string, rest: set<char>,
                       links: map<string, Link>)
  {
    ghost function Cost(): int { Sum(links.Keys, Hops(links)) }

    ghost function Link(c: char, link: Link): Pass {
      this.(paths := paths + [current + [c]], rest := rest - {c}, links := links[current + [c] := link])
    }
  }

  class Node {
    var children: map<char, Node>
    var fail: Node
    var output: set<string>
    /** The string spelled out on the way from the root to this node. */
    ghost const path: string

    constructor (ghost path: string)
      ensures this.path == path && children == map[] && fail == this && output == {}
    {
      this.path := path;
      children := map[];
      fail := this;
      output := {};
    }
  }

  class AhoCorasick {
    var root: Node
    var patternCount: nat
    ghost var patterns: set<string>
    ghost var nodes: map<string, Node>

    /** The node of `p` spells `p`, and its edges lead exactly to the strings one longer. */
    ghost predicate Knit(p: string)
      requires p in nodes
      reads this, nodes[p]
    {
      && nodes[p].path == p
      && (forall c :: c in nodes[p].children ==> p + [c] in nodes && nodes[p].children[c] == nodes[p + [c]])
      && (forall c :: p + [c] in nodes ==> c in nodes[p].children)
    }

    ghost predicate Has(node: Node)
      reads this
    {
      node.path in nodes && node == nodes[node.path]
    }

    /** The nodes form the trie of the strings `nodes.Keys`. */
    ghost predicate Shape()
      reads this, nodes.Values
    {
      && PrefixClosed(nodes.Keys) && nodes[""] == root
      && forall p {:trigger Knit(p)} :: p in nodes ==> Knit(p)
    }

    lemma {:induction false} Edge(node: Node, c: char)
      requires Shape() && Has(node)
      ensures c in node.children <==> node.path + [c] in nodes
      ensures c in node.children ==> Has(node.children[c]) && node.children[c].path == node.path + [c]
    {
      assert Knit(node.path);
      if c in node.children { assert Knit(node.path + [c]); }
    }

    lemma {:induction false} RootHere()
      requires Shape()
      ensures Has(root) && root.path == ""
    {
      assert Knit("");
    }

    /** Every string of the trie begins a pattern, and every pattern is in the trie. */
    ghost predicate Spans()
      reads this
    {
      && patterns <= nodes.Keys && "" !in patterns
      && forall p {:trigger Begins(p, patterns)} :: p in nodes && p != "" ==> Begins(p, patterns)
    }

    /** `p` has its final failure link and merged output. */
    ghost predicate Final(p: string)
      requires p in nodes
      reads this, nodes[p]
    {
      && nodes[p].output == Ending(p, patterns)
      && (p != "" ==> && IsFail(nodes[p].fail.path, p, nodes.Keys)
                      && nodes[p].fail == nodes[nodes[p].fail.path])
    }

    /** A node not yet linked only knows its own pattern. */
    ghost predicate Bare(p: string)
      requires p in nodes
      reads this, nodes[p]
    {
      nodes[p].output == if p in patterns then {p} else {}
    }

    /** The nodes of `linked` are final, the others bare. */
    ghost predicate Linked(linked: set<string>)
      reads this, nodes.Values
    {
      && (forall p {:trigger Final(p)} :: p in nodes && p in linked ==> Final(p))
      && (forall p {:trigger Bare(p)} :: p in nodes && p !in linked ==> Bare(p))
    }

    ghost predicate Built()
      reads this, nodes.Values
    {
      Shape() && Spans() && Linked(nodes.Keys) && patternCount == |patterns|
    }

    constructor (input: seq<string>)
      ensures patterns == (set p | p in input && p != "") && Built()
      ensures fresh(nodes.Values)
    {
      var top := new Node("");
      root := top;
      nodes := map["" := top];
      patterns := {};
      var distinct := set p | p in input && p != "";
      patternCount := |distinct|;
      new;
      var rest := distinct;
      while rest != {}
        invariant Shape() && Spans() && Linked({}) && "" !in rest
        invariant patterns + rest == distinct
        invariant patternCount == |distinct|
        invariant fresh(nodes.Values)
      {
        var pattern :| pattern in rest;
        Insert(pattern);
        rest := rest - {pattern};
      }
      ghost var hops := BuildFailLinks();
    }

    method Insert(pattern: string)
      requires Shape() && Spans() && Linked({}) && pattern != ""
      modifies this`nodes, this`patterns, nodes.Values
      ensures Shape() && Spans() && Linked({})
      ensures patterns == old(patterns) + {pattern}
      ensures fresh(nodes.Values - old(nodes.Values))
    {
      RootHere();
      var node := root;
      var i := 0;
      while i < |pattern|
        invariant 0 <= i <= |pattern|
        invariant Shape() && Linked({}) && patterns == old(patterns) <= nodes.Keys
        invariant Has(node) && node.path == pattern[..i]
        invariant forall p {:trigger Begins(p, patterns)} :: p in nodes && p != "" ==>
                    p <= pattern || Begins(p, patterns)
        invariant fresh(nodes.Values - old(nodes.Values))
      {
        var c := pattern[i];
        TakeSnoc(pattern, i);
        Edge(node, c);
        if c in node.children {
          node := node.children[c];
        } else {
          node := AddChild(node, c);
        }
        i := i + 1;
      }
      assert pattern[..i] == pattern;
      assert Bare(pattern);
      label L:
      node.output := node.output + {pattern};
      patterns := patterns + {pattern};
      forall p | p in nodes ensures Knit(p) && Bare(p) { assert old@L(Knit(p) && Bare(p)); }
      forall p | p in nodes && p != "" ensures Begins(p, patterns) {
        assert p <= pattern || old(Begins(p, patterns));
        if !(p <= pattern) {
          var w :| w in old(patterns) && p <= w;
          assert w in patterns;
        }
      }
    }

    /** Adds the missing `c` child of `node`. */
    method AddChild(node: Node, c: char) returns (child: Node)
      requires Shape() && Linked({}) && patterns <= nodes.Keys
      requires Has(node) && c !in node.children
      modifies this`nodes, node`children
      ensures Shape() && Linked({})
      ensures nodes == old(nodes)[node.path + [c] := child] && fresh(child)
      ensures Has(child) && child.path == node.path + [c]
      ensures nodes.Values == old(nodes.Values) + {child}
    {
      ghost var q := node.path + [c];
      Edge(node, c);
      child := new Node(q);
      node.children := node.children[c := child];
      nodes := nodes[q := child];
      forall n | n in old(nodes.Values) ensures n in nodes.Values {
        var p :| p in old(nodes) && old(nodes)[p] == n;
        assert nodes[p] == n;
      }
      assert nodes[q] == child;
      assert q[..|q| - 1] == node.path;
      forall p | p in nodes ensures Knit(p) {
        if p in old(nodes) { assert old(Knit(p)); }
        forall b | p + [b] == q ensures p == node.path && b == c {
          assert p == (p + [b])[..|p|] && b == (p + [b])[|p|];
        }
        forall b | p == q ensures p + [b] !in nodes {
          if p + [b] in old(nodes) { Parent(p, b, old(nodes.Keys)); }
        }
      }
      forall p | p in nodes ensures Bare(p) && HasParent(p, nodes.Keys) {
        if p in old(nodes) { assert old(Bare(p)) && HasParent(p, old(nodes.Keys)); }
      }
    }

    ghost predicate Deep(x: string, links: map<string, Link>)
      requires x in links && x in nodes
      reads this, nodes[x]
    {
      x != "" ==> links[x].depth == |nodes[x].fail.path|
    }

    ghost predicate Deeps(links: map<string, Link>)
      reads this, nodes.Values
    {
      && links.Keys <= nodes.Keys
      && forall x {:trigger Deep(x, links)} :: x in links ==> Deep(x, links)
    }

    /** `queue` is ahead of the breadth-first pass described by `pass`. */
    ghost predicate Progress(queue: seq<Node>, pass: Pass)
      reads this, nodes.Values
    {
      && Shape() && Spans() && Linked(pass.links.Keys)
      && Deeps(pass.links) && Amortised(pass.links)
      && Expanding(nodes.Keys, pass.paths, pass.done, pass.links.Keys, pass.current, pass.rest)
      && Tracks(queue, pass.paths)
    }

    ghost predicate Tracks(queue: seq<Node>, paths: seq<string>)
      reads this
    {
      && |queue| == |paths|
      && forall i :: 0 <= i < |queue| ==> Has(queue[i]) && queue[i].path == paths[i]
    }

    lemma {:induction false} TracksPush(queue: seq<Node>, paths: seq<string>, child: Node)
      requires Tracks(queue, paths) && Has(child)
      ensures Tracks(queue + [child], paths + [child.path])
    {
    }

    /** What the pass knows about the edge `c` out of the node it is expanding. */
    lemma {:induction false} NextEdge(queue: seq<Node>, pass: Pass, node: Node, c: char)
      requires Progress(queue, pass) && Has(node) && node.path == pass.current && c in pass.rest
      ensures c in node.children && Has(node.children[c]) && node.children[c].path == node.path + [c]
      ensures node.path + [c] !in pass.links && node.path in pass.links
      ensures node.path != "" ==> pass.links[node.path].depth == |node.fail.path|
      ensures forall p :: p in nodes && |p| <= |node.path| ==> p in pass.links
    {
      Edge(node, c);
      assert Unlinked(c, nodes.Keys, pass.links.Keys, pass.current, pass.rest);
      assert Deep(node.path, pass.links);
      forall p | p in nodes && |p| <= |node.path| ensures p in pass.links {
        assert Placed(p, nodes.Keys, pass.paths, pass.done, pass.links.Keys, pass.current);
      }
    }

    /** Links every node. All failure steps together number at most the summed pattern lengths. */
    method BuildFailLinks() returns (ghost hops: nat)
      requires Shape() && Spans() && Linked({})
      modifies nodes.Values`fail, nodes.Values`output
      ensures Shape() && Spans() && Linked(nodes.Keys)
      ensures hops <= TotalLength(patterns)
    {
      var queue;
      ghost var pass;
      queue, pass := LinkTop();
      hops := 0;
      while queue != []
        invariant Progress(queue, pass) && pass.rest == {}
        invariant hops == pass.Cost()
        decreases nodes.Keys - pass.done
      {
        ghost var h;
        queue, pass, h := Expand(queue, pass);
        hops := hops + h;
      }
      Exhausted(nodes.Keys, pass.done, pass.links.Keys, pass.current);
      TotalCost(pass.links, patterns);
    }

    /** The children of the root fail to the root. */
    method LinkTop() returns (queue: seq<Node>, ghost pass: Pass)
      requires Shape() && Spans() && Linked({})
      modifies nodes.Values`fail, nodes.Values`output
      ensures Progress(queue, pass) && pass.rest == {} && pass.Cost() == 0
    {
      RootHere();
      queue := [];
      var rest := root.children.Keys;
      pass := Pass([], {}, "", rest, map["" := Link(0, 0)]);
      StartPass(pass);
      while rest != {}
        invariant Progress(queue, pass) && pass.rest == rest && pass.current == "" && pass.Cost() == 0
      {
        var c :| c in rest;
        NextEdge(queue, pass, root, c);
        assert Final("") && root.output == {};
        var child := root.children[c];
        queue, pass := Attach(child, root, child.output, queue, pass, c, 0);
        rest := rest - {c};
      }
    }

    lemma {:induction false} StartPass(pass: Pass)
      requires Shape() && Spans() && Linked({})
      requires pass == Pass([], {}, "", root.children.Keys, map["" := Link(0, 0)])
      ensures Progress([], pass) && pass.Cost() == 0
    {
      RootHere();
      assert Bare("") && Knit("");
      SumAdd({}, Hops(pass.links), "");
      assert pass.links.Keys == {} + {""};
    }

    /** Takes the head off the queue and links its children. */
    method Expand(queue: seq<Node>, ghost pass: Pass)
      returns (queue': seq<Node>, ghost pass': Pass, ghost hops: nat)
      requires Progress(queue, pass) && pass.rest == {} && queue != []
      modifies nodes.Values`fail, nodes.Values`output
      ensures Progress(queue', pass') && pass'.rest == {} && pass'.Cost() == pass.Cost() + hops
      ensures pass'.done == pass.done + {pass.current} && pass.current in nodes && pass.current !in pass.done
    {
      var node := queue[0];
      var rest := node.children.Keys;
      queue' := queue[1..];
      forall c ensures c in rest <==> node.path + [c] in nodes { Edge(node, c); }
      Pop(nodes.Keys, pass.paths, pass.done, pass.links.Keys, pass.current, rest);
      pass' := pass.(paths := pass.paths[1..], done := pass.done + {pass.current}, current := node.path, rest := rest);
      hops := 0;
      while rest != {}
        invariant Progress(queue', pass') && pass'.rest == rest && pass'.Cost() == pass.Cost() + hops
        invariant Has(node) && node.path == pass'.current && node.path != ""
        invariant pass'.done == pass.done + {pass.current}
      {
        var c :| c in rest;
        ghost var h;
        queue', pass', h := LinkEdge(node, c, queue', pass');
        hops := hops + h;
        rest := rest - {c};
      }
    }

    /** Links the `c` child of the node being expanded. */
    method LinkEdge(node: Node, c: char, queue: seq<Node>, ghost pass: Pass)
      returns (queue': seq<Node>, ghost pass': Pass, ghost hops: nat)
      requires Progress(queue, pass) && c in pass.rest
      requires Has(node) && node.path == pass.current && node.path != ""
      modifies nodes.Values`fail, nodes.Values`output
      ensures Progress(queue', pass') && pass'.Cost() == pass.Cost() + hops
      ensures pass'.done == pass.done && pass'.current == pass.current && pass'.rest == pass.rest - {c}
    {
      NextEdge(queue, pass, node, c);
      var child := node.children[c];
      var target;
      target, hops := FindFail(node, c, pass.links.Keys);
      queue', pass' := Attach(child, target, child.output + target.output, queue, pass, c, hops);
    }

    /** The failure link of the `c` child of `node`: the longest proper suffix of its string in the trie. */
    method FindFail(node: Node, c: char, ghost linked: set<string>) returns (target: Node, ghost hops: nat)
      requires Shape() && Linked(linked)
      requires Has(node) && node.path != "" && c in node.children
      requires forall p :: p in nodes && |p| <= |node.path| ==> p in linked
      ensures Has(target) && IsFail(target.path, node.path + [c], nodes.Keys)
      ensures hops + |target.path| <= |node.fail.path| + 1
    {
      assert Final(node.path);
      var fail := node.fail;
      hops := 0;
      WalkStart(fail.path, node.path, c, |node.path|, nodes.Keys);
      while fail != root && c !in fail.children
        invariant Has(fail)
        invariant Walks(fail.path, node.path, c, |node.path|, nodes.Keys)
        invariant hops + |fail.path| <= |node.fail.path|
        decreases |fail.path|
      {
        assert Final(fail.path);
        Edge(fail, c);
        RootHere();
        WalkStep(fail.path, fail.fail.path, node.path, c, |node.path|, nodes.Keys);
        fail := fail.fail;
        hops := hops + 1;
      }
      Edge(fail, c);
      RootHere();
      target := if c in fail.children then fail.children[c] else root;
      WalkFindsFail(fail.path, node.path, c, target.path, nodes.Keys);
    }

    /** Records one link in the pass and queues the child. */
    method Attach(child: Node, target: Node, output: set<string>, queue: seq<Node>, ghost pass: Pass,
                  ghost c: char, ghost hops: nat)
      returns (queue': seq<Node>, ghost pass': Pass)
      requires Progress(queue, pass) && c in pass.rest
      requires Has(child) && child.path == pass.current + [c]
      requires Has(target) && IsFail(target.path, child.path, nodes.Keys)
      requires output == child.output + target.output
      requires hops + |target.path| <= pass.links[pass.current].depth + 1
      modifies child`fail, child`output
      ensures queue' == queue + [child]
      ensures pass' == pass.Link(c, Link(hops, |target.path|)) && pass'.Cost() == pass.Cost() + hops
      ensures Progress(queue', pass')
    {
      pass' := pass.Link(c, Link(hops, |target.path|));
      queue' := queue + [child];
      Push(nodes.Keys, pass.paths, pass.done, pass.links.Keys, pass.current, pass.rest, c);
      AddLink(pass.links, child.path, Link(hops, |target.path|));
      assert target.path in pass.links by {
        assert Placed(target.path, nodes.Keys, pass.paths, pass.done, pass.links.Keys, pass.current);
      }
      WriteLink(child, target, output, pass.links, pass'.links);
      TracksPush(queue, pass.paths, child);
    }

    /** Writes one link and its merged output. */
    method WriteLink(child: Node, target: Node, output: set<string>,
                     ghost links: map<string, Link>, ghost links': map<string, Link>)
      requires Shape() && Spans() && Linked(links.Keys) && Deeps(links)
      requires Has(child) && child.path !in links
      requires Has(target) && target.path in links && IsFail(target.path, child.path, nodes.Keys)
      requires output == child.output + target.output
      requires links'.Keys == links.Keys + {child.path}
      requires links'[child.path].depth == |target.path| && forall x :: x in links ==> links'[x] == links[x]
      modifies child`fail, child`output
      ensures Shape() && Linked(links'.Keys) && Deeps(links')
    {
      ghost var q := child.path;
      EndingViaFail(q, target.path, nodes.Keys, patterns);
      assert Bare(q) && Final(target.path);
      child.fail := target;
      child.output := output;
      forall p | p in nodes ensures Knit(p) { assert old(Knit(p)); }
      forall p | p in nodes && p in links ensures Final(p) && Deep(p, links') {
        assert old(Final(p)) && old(Deep(p, links));
        assert Knit(p) && Knit(q);
      }
      forall p | p in nodes && p !in links && p != q ensures Bare(p) {
        assert old(Bare(p));
        assert Knit(p) && Knit(q);
      }
      assert Final(q);
    }

    /** One pass over the text; each failure step is paid for by a character read before. */
    method Search(text: string) returns (matches: set<string>, ghost hops: nat)
      requires Built()
      ensures matches == Found(text, patterns)
      ensures hops <= |text|
    {
      matches, hops := {}, 0;
      FoundEmpty(patterns);
      if patternCount == 0 || text == "" {
        return;
      }
      RootHere();
      var node := root;
      for i := 0 to |text|
        invariant Has(node) && IsLongest(node.path, text[..i], nodes.Keys)
        invariant matches == Found(text[..i], patterns)
        invariant hops + |node.path| <= i
      {
        ghost var h;
        node, h := Advance(node, text, i);
        hops := hops + h;
        FoundSnoc(text, i, patterns);
        matches := matches + node.output;
      }
      assert text[..|text|] == text;
    }

    /** Whether any pattern occurs in `text`; stops at the first one. */
    method ContainsAny(text: string) returns (found: bool, ghost hops: nat)
      requires Built()
      ensures found <==> Found(text, patterns) != {}
      ensures hops <= |text|
    {
      hops := 0;
      FoundEmpty(patterns);
      if patternCount == 0 || text == "" {
        return false, 0;
      }
      RootHere();
      var node := root;
      for i := 0 to |text|
        invariant Has(node) && IsLongest(node.path, text[..i], nodes.Keys)
        invariant Found(text[..i], patterns) == {}
        invariant hops + |node.path| <= i
      {
        ghost var h;
        node, h := Advance(node, text, i);
        hops := hops + h;
        FoundSnoc(text, i, patterns);
        if node.output != {} {
          FoundMonotone(text, i + 1, patterns);
          return true, hops;
        }
      }
      assert text[..|text|] == text;
      found := false;
    }

    /** One character of a scan: walk failure links to a node with that edge, and take it. */
    method Advance(node: Node, text: string, i: nat) returns (next: Node, ghost hops: nat)
      requires Built() && i < |text|
      requires Has(node) && IsLongest(node.path, text[..i], nodes.Keys)
      ensures Has(next) && IsLongest(next.path, text[..i + 1], nodes.Keys)
      ensures next.output == Ending(text[..i + 1], patterns)
      ensures hops + |next.path| <= |node.path| + 1
    {
      var c := text[i];
      ghost var t := text[..i];
      TakeSnoc(text, i);
      var at := node;
      hops := 0;
      WalkStart(at.path, t, c, |t| + 1, nodes.Keys);
      RootHere();
      while at != root && c !in at.children
        invariant Has(at) && Walks(at.path, t, c, |t| + 1, nodes.Keys)
        invariant hops + |at.path| <= |node.path|
        decreases |at.path|
      {
        assert Final(at.path);
        Edge(at, c);
        WalkStep(at.path, at.fail.path, t, c, |t| + 1, nodes.Keys);
        at := at.fail;
        hops := hops + 1;
      }
      Edge(at, c);
      next := if c in at.children then at.children[c] else root;
      WalkFindsLongest(at.path, t, c, next.path, nodes.Keys);
      assert Final(next.path);
      EndingViaLongest(t + [c], next.path, nodes.Keys, patterns);
    }
  }

  /** Building from any list of patterns and scanning any text agrees with one substring
      test per pattern, whatever order the patterns are inserted and linked in. */
  method BuildAndScan(input: seq<string>, text: string) returns (matches: set<string>, found: bool)
    ensures forall w :: w in matches <==> w in input && w != "" && Occurs(w, text)
    ensures found <==> exists w :: w in input && w != "" && Occurs(w, text)
  {
    var matcher := new AhoCorasick(input);
    ghost var h;
    matches, h := matcher.Search(text);
    found, h := matcher.ContainsAny(text);
    assert found ==> exists w :: w in Found(text, matcher.patterns);
  }
}
