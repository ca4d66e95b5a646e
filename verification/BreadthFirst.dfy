/** The breadth-first order of linking, on the strings of the trie alone. */
module BreadthFirst {
  import opened Suffixes

  /** Where `x` stands while the children of `current` are visited. `done` has been
      expanded, `queue` waits to be, `linked` is everything that was ever queued. */
  ghost predicate Placed(x: string, trie: set<string>, queue: seq<string>, done: set<string>,
                         linked: set<string>, current: string)
  {
    && (x in done ==> x in linked && x != current && x !in queue)
    && (x in queue ==> x in linked && x != current && |current| <= |x| <= |current| + 1)
    && (x in linked ==> x in trie && (x in done || x == current || x in queue))
    && (x in trie && |x| <= |current| ==> x in linked)
    && (x in linked && x != "" ==> x[..|x| - 1] in done || x[..|x| - 1] == current)
    && (x in trie && x != "" && x[..|x| - 1] in done ==> x in linked)
  }

  /** `rest` holds exactly the edges of `current` still to link. */
  ghost predicate Unlinked(c: char, trie: set<string>, linked: set<string>, current: string, rest: set<char>) {
    c in rest <==> current + [c] in trie && current + [c] !in linked
  }

  ghost predicate Ordered(queue: seq<string>) {
    forall i, j :: 0 <= i < j < |queue| ==> queue[i] != queue[j] && |queue[i]| <= |queue[j]|
  }

  ghost predicate Expanding(trie: set<string>, queue: seq<string>, done: set<string>,
                            linked: set<string>, current: string, rest: set<char>)
  {
    && PrefixClosed(trie) && current in linked && Ordered(queue)
    && (forall x {:trigger Placed(x, trie, queue, done, linked, current)} ::
          Placed(x, trie, queue, done, linked, current))
    && (forall c {:trigger Unlinked(c, trie, linked, current, rest)} ::
          Unlinked(c, trie, linked, current, rest))
  }

  lemma {:induction false} Push(trie: set<string>, queue: seq<string>, done: set<string>, linked: set<string>,
             current: string, rest: set<char>, c: char)
    requires Expanding(trie, queue, done, linked, current, rest) && c in rest
    ensures Expanding(trie, queue + [current + [c]], done, linked + {current + [c]}, current, rest - {c})
    ensures current + [c] in trie && current + [c] !in linked
  {
    var q := current + [c];
    assert Unlinked(c, trie, linked, current, rest);
    assert Placed(q, trie, queue, done, linked, current);
    assert q[..|q| - 1] == current;
    forall x | x in queue ensures x != q && |x| <= |q| {
      assert Placed(x, trie, queue, done, linked, current);
    }
    forall x ensures Placed(x, trie, queue + [q], done, linked + {q}, current) {
      assert Placed(x, trie, queue, done, linked, current);
      assert Placed(current, trie, queue, done, linked, current);
    }
    forall b ensures Unlinked(b, trie, linked + {q}, current, rest - {c}) {
      assert Unlinked(b, trie, linked, current, rest);
      assert (current + [b])[|current|] == b && q[|current|] == c;
    }
  }

  lemma {:induction false} Pop(trie: set<string>, queue: seq<string>, done: set<string>, linked: set<string>,
            current: string, rest: set<char>)
    requires Expanding(trie, queue, done, linked, current, {}) && queue != []
    requires forall c :: c in rest <==> queue[0] + [c] in trie
    ensures Expanding(trie, queue[1..], done + {current}, linked, queue[0], rest)
    ensures current !in done && current in trie && queue[0] != ""
  {
    var next := queue[0];
    assert Placed(next, trie, queue, done, linked, current);
    assert Placed(current, trie, queue, done, linked, current);
    forall x ensures Placed(x, trie, queue[1..], done + {current}, linked, next) {
      assert Placed(x, trie, queue, done, linked, current);
      if x in trie && x != "" {
        var p := x[..|x| - 1];
        assert x == p + [x[|x| - 1]];
        assert HasParent(x, trie) && Placed(p, trie, queue, done, linked, current);
        assert p == current ==> Unlinked(x[|x| - 1], trie, linked, current, {});
      }
    }
    forall c ensures Unlinked(c, trie, linked, next, rest) {
      assert (next + [c])[..|next|] == next;
      assert Placed(next + [c], trie, queue, done, linked, current);
    }
  }

  /** With nothing left to expand, the whole trie is linked. */
  lemma {:induction false} Exhausted(trie: set<string>, done: set<string>, linked: set<string>, current: string)
    requires Expanding(trie, [], done, linked, current, {})
    ensures linked == trie
  {
    forall x ensures x in linked <==> x in trie {
      assert Placed(x, trie, [], done, linked, current);
      if x in trie { Reached(trie, done, linked, current, x); }
    }
  }

  lemma {:induction false} Reached(trie: set<string>, done: set<string>, linked: set<string>,
                                   current: string, x: string)
    requires Expanding(trie, [], done, linked, current, {}) && x in trie
    ensures x in linked
    decreases |x|
  {
    assert Placed(x, trie, [], done, linked, current);
    if x != "" {
      var p := x[..|x| - 1];
      assert HasParent(x, trie) && x == p + [x[|x| - 1]];
      Reached(trie, done, linked, current, p);
      assert Placed(p, trie, [], done, linked, current);
      assert Unlinked(x[|x| - 1], trie, linked, current, {});
    }
  }
}
