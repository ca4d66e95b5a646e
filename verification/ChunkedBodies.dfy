/** What the decoder makes of a body whose size lines are not negative, however they are written. */
module ChunkedBodies {
  import opened Options
  import opened Octets
  import opened ChunkedCoding
  import opened ChunkSizes

  /** Where the next size line starts: behind the line end that follows the data, if one does. */
  function Behind(body: Bytes, next: nat): nat {
    if CrlfAt(body, next) then next + 2
    else if next < |body| && body[next] == 10 then next + 1
    else next
  }

  /** At `i` stand a size line and the whole of `chunk`; the next line is looked for at `next`. */
  ghost predicate Holds(body: Bytes, i: nat, chunk: Bytes, next: nat) {
    && chunk != [] && i < |body|
    && exists start: nat :: Sized(body, i, |chunk|, start) && start + |chunk| <= |body|
         && body[start..start + |chunk|] == chunk && next == Behind(body, start + |chunk|)
  }

  /** What links a size line and its chunk to the next line. Chains are stated over it, so that what
      holds of a chain does not depend on how a size is written. */
  type Link = (nat, Bytes, nat) -> bool

  ghost function LinkOf(body: Bytes): Link { (i: nat, chunk: Bytes, next: nat) => Holds(body, i, chunk, next) }

  /** The chunks follow each other from `i` on, and the next line is looked for at `end`. */
  ghost predicate Chain(link: Link, i: nat, chunks: seq<Bytes>, end: nat)
    decreases |chunks|
  {
    if chunks == [] then i == end
    else exists next: nat :: link(i, chunks[0], next) && Chain(link, next, chunks[1..], end)
  }

  /** A line says zero, or the body is at its end. */
  ghost predicate Finishes(body: Bytes, end: nat) {
    end >= |body| || exists start: nat :: Sized(body, end, 0, start)
  }

  /** There is no size line where there should be one, or its data is cut short. */
  ghost predicate Breaks(body: Bytes, end: nat) {
    && end < |body|
    && ((forall v, start: nat {:trigger Sized(body, end, v, start)} :: !Sized(body, end, v, start))
        || exists v: nat, start: nat :: Sized(body, end, v, start) && start + v > |body|)
  }

  // ----- one pass

  lemma {:induction false} SkipIsBehind(body: Bytes, next: nat)
    requires next <= |body|
    ensures SkipLineEnd(body, next) == Behind(body, next)
  {
  }

  lemma {:induction false} PassHolds(body: Bytes, i: nat, chunk: Bytes, next: nat, decoded: Bytes)
    requires Holds(body, i, chunk, next)
    ensures Decode1(body, SizeLine(body, i), decoded) == Again(next, decoded + chunk)
  {
    var start := DataStart(body, i, chunk, next);
    PassTakesData(body, start, chunk, decoded);
  }

  lemma {:induction false} DataStart(body: Bytes, i: nat, chunk: Bytes, next: nat) returns (start: nat)
    requires Holds(body, i, chunk, next)
    ensures SizeLine(body, i) == Some(Line(|chunk|, start)) && start + |chunk| <= |body|
    ensures body[start..start + |chunk|] == chunk && next == Behind(body, start + |chunk|)
  {
    start :| Sized(body, i, |chunk|, start) && start + |chunk| <= |body|
             && body[start..start + |chunk|] == chunk && next == Behind(body, start + |chunk|);
    SizeLineExactly(body, i, |chunk|, start);
  }

  lemma {:induction false} PassTakesData(body: Bytes, start: nat, chunk: Bytes, decoded: Bytes)
    requires chunk != [] && start + |chunk| <= |body| && body[start..start + |chunk|] == chunk
    ensures Decode1(body, Some(Line(|chunk|, start)), decoded)
         == Again(Behind(body, start + |chunk|), decoded + chunk)
  {
    SkipIsBehind(body, start + |chunk|);
  }

  lemma {:induction false} PassFinishes(body: Bytes, end: nat, decoded: Bytes)
    requires Finishes(body, end) && end < |body|
    ensures Decode1(body, SizeLine(body, end), decoded) == Return(decoded)
  {
    var start: nat :| Sized(body, end, 0, start);
    SizeLineExactly(body, end, 0, start);
  }

  lemma {:induction false} PassBreaks(body: Bytes, end: nat, decoded: Bytes)
    requires Breaks(body, end)
    ensures Decode1(body, SizeLine(body, end), decoded) == Return(body)
  {
    var line := SizeLine(body, end);
    if line.Some? { SizeLineExactly(body, end, line.value.size, line.value.start); }
    if v: nat, start: nat :| Sized(body, end, v, start) && start + v > |body| {
      SizeLineExactly(body, end, v, start);
    }
  }

  // ----- the whole body

  /** A loop, as what it returns from an offset with some data after some passes. */
  type Runner = (nat, Bytes, nat) -> Outcome

  ghost predicate TakesChunks(run: Runner, link: Link) {
    forall i, chunk, next, decoded, passes: nat {:trigger link(i, chunk, next), run(i, decoded, passes)} ::
      link(i, chunk, next) && passes > 0 ==> run(i, decoded, passes) == run(next, decoded + chunk, passes - 1)
  }

  function LoopRunner(body: Bytes, read: Reader): Runner {
    (i: nat, decoded: Bytes, passes: nat) => Loop(body, read, i, decoded, passes)
  }

  lemma {:induction false} LoopTakesChunks(body: Bytes, read: Reader)
    requires Reads(read, body)
    ensures TakesChunks(LoopRunner(body, read), LinkOf(body))
  {
    var run := LoopRunner(body, read);
    forall i: nat, chunk, next: nat, decoded, passes: nat | Holds(body, i, chunk, next) && passes > 0
      ensures run(i, decoded, passes) == run(next, decoded + chunk, passes - 1)
    {
      LoopTakes(body, read, i, chunk, next, decoded, passes, decoded + chunk);
    }
  }

  lemma {:induction false} RunFollows(run: Runner, link: Link, i: nat, chunks: seq<Bytes>, end: nat, decoded: Bytes,
                                      passes: nat, total: Bytes, left: nat)
    requires TakesChunks(run, link) && Chain(link, i, chunks, end)
    requires total == decoded + Joined(chunks) && passes == |chunks| + left
    ensures run(i, decoded, passes) == run(end, total, left)
    decreases |chunks|
  {
    if chunks == [] {
      assert total == decoded;
    } else {
      var next := FirstLink(link, i, chunks, end);
      var more := decoded + chunks[0];
      JoinedCons(chunks, decoded);
      RunFollows(run, link, next, chunks[1..], end, more, passes - 1, total, left);
    }
  }

  lemma {:induction false} JoinedCons(chunks: seq<Bytes>, decoded: Bytes)
    requires chunks != []
    ensures decoded + chunks[0] + Joined(chunks[1..]) == decoded + Joined(chunks)
  {
  }

  lemma {:induction false} FirstLink(link: Link, i: nat, chunks: seq<Bytes>, end: nat) returns (next: nat)
    requires Chain(link, i, chunks, end) && chunks != []
    ensures link(i, chunks[0], next) && Chain(link, next, chunks[1..], end)
  {
    next :| link(i, chunks[0], next) && Chain(link, next, chunks[1..], end);
  }

  lemma {:induction false} LoopTakes(body: Bytes, read: Reader, i: nat, chunk: Bytes, next: nat, decoded: Bytes,
                                     passes: nat, more: Bytes)
    requires Reads(read, body) && Holds(body, i, chunk, next) && passes > 0 && more == decoded + chunk
    ensures Loop(body, read, i, decoded, passes) == Loop(body, read, next, more, passes - 1)
  {
    PassHolds(body, i, chunk, next, decoded);
    LoopGoesOn(body, read, i, decoded, passes, read(i));
  }

  lemma {:induction false} LoopEnds(body: Bytes, read: Reader, end: nat, decoded: Bytes, passes: nat)
    requires Reads(read, body) && passes > 0
    ensures Finishes(body, end) ==>
              Loop(body, read, end, decoded, passes)
              == Done(if end >= |body| && decoded == [] then body else decoded)
    ensures Breaks(body, end) ==> Loop(body, read, end, decoded, passes) == Done(body)
  {
    if end < |body| {
      if Finishes(body, end) { PassFinishes(body, end, decoded); }
      if Breaks(body, end) { PassBreaks(body, end, decoded); }
      LoopGoesOn(body, read, end, decoded, passes, read(end));
    }
  }

  lemma {:induction false} ChainNotEmpty(body: Bytes, i: nat, chunks: seq<Bytes>, end: nat)
    requires Chain(LinkOf(body), i, chunks, end) && chunks != []
    ensures Joined(chunks) != []
  {
    var next := FirstLink(LinkOf(body), i, chunks, end);
    assert Holds(body, i, chunks[0], next);
  }

  lemma {:induction false} LoopDecodes(body: Bytes, read: Reader, chunks: seq<Bytes>, end: nat, passes: nat)
    requires Reads(read, body) && body != [] && Chain(LinkOf(body), 0, chunks, end) && passes > |chunks|
    ensures Finishes(body, end) ==> Loop(body, read, 0, [], passes) == Done(Joined(chunks))
    ensures Breaks(body, end) ==> Loop(body, read, 0, [], passes) == Done(body)
  {
    var total, left := Joined(chunks), passes - |chunks|;
    assert total == [] + Joined(chunks);
    LoopTakesChunks(body, read);
    RunFollows(LoopRunner(body, read), LinkOf(body), 0, chunks, end, [], passes, total, left);
    LoopEnds(body, read, end, total, left);
    if chunks != [] { ChainNotEmpty(body, 0, chunks, end); } else { assert end == 0; }
  }

  /** A body whose chunks follow each other up to its end or a zero size decodes to their bytes, and a
      body that breaks off or goes wrong after some chunks comes back as it is. */
  lemma {:induction false} BodyDecodes(body: Bytes, chunks: seq<Bytes>, end: nat, passes: nat)
    requires body != [] && Chain(LinkOf(body), 0, chunks, end) && passes > |chunks|
    ensures Finishes(body, end) ==> Decoded(body, passes) == Done(Joined(chunks))
    ensures Breaks(body, end) ==> Decoded(body, passes) == Done(body)
  {
    LoopDecodes(body, LineReader(body), chunks, end, passes);
  }

  /** Every body without a minus sign is of one of these two kinds. */
  lemma {:induction false} BodyKind(body: Bytes, i: nat) returns (chunks: seq<Bytes>, end: nat)
    requires NoMinus(body)
    ensures Chain(LinkOf(body), i, chunks, end) && (Finishes(body, end) || Breaks(body, end))
    decreases |body| - i
  {
    chunks, end := [], i;
    if i < |body| {
      var line := SizeLine(body, i);
      if line.Some? && line.value.size > 0 && line.value.start + line.value.size <= |body| {
        var chunk, next := TakeChunk(body, i, line.value.size, line.value.start);
        var rest;
        rest, end := BodyKind(body, next);
        ChainCons(LinkOf(body), i, chunk, next, rest, end);
        chunks := [chunk] + rest;
      } else {
        Stops(body, i);
      }
    }
  }

  lemma {:induction false} TakeChunk(body: Bytes, i: nat, v: nat, start: nat) returns (chunk: Bytes, next: nat)
    requires i < |body| && SizeLine(body, i) == Some(Line(v, start)) && v > 0 && start + v <= |body|
    ensures Holds(body, i, chunk, next) && i < next
  {
    chunk, next := body[start..start + v], Behind(body, start + v);
    SizeLineExactly(body, i, v, start);
    HoldsFrom(body, i, chunk, start, next);
  }

  lemma {:induction false} HoldsFrom(body: Bytes, i: nat, chunk: Bytes, start: nat, next: nat)
    requires chunk != [] && i < |body| && Sized(body, i, |chunk|, start) && start + |chunk| <= |body|
    requires body[start..start + |chunk|] == chunk && next == Behind(body, start + |chunk|)
    ensures Holds(body, i, chunk, next)
  {
  }

  /** Without a chunk to take the body finishes or breaks. */
  lemma {:induction false} Stops(body: Bytes, i: nat)
    requires NoMinus(body) && i < |body|
    requires var line := SizeLine(body, i);
      line.Some? ==> line.value.size <= 0 || line.value.start + line.value.size > |body|
    ensures Finishes(body, i) || Breaks(body, i)
  {
    var line := SizeLine(body, i);
    if line.None? {
      forall v, start: nat ensures !Sized(body, i, v, start) { SizeLineExactly(body, i, v, start); }
    } else {
      SizeLineExactly(body, i, line.value.size, line.value.start);
      SizeNotNegative(body, i);
    }
  }

  lemma {:induction false} ChainCons(link: Link, i: nat, chunk: Bytes, next: nat, rest: seq<Bytes>, end: nat)
    requires link(i, chunk, next) && Chain(link, next, rest, end)
    ensures Chain(link, i, [chunk] + rest, end)
  {
    assert ([chunk] + rest)[1..] == rest;
  }
}
