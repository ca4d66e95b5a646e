/** The chunked transfer coding (section 7.1 of RFC 9112): the response writer's printer and the
    body decoder. */
module ChunkedCoding {
  import opened Options
  import opened Octets

  type Bytes = seq<byte>

  const CRLF: Bytes := [13, 10]
  const LAST: Bytes := [48, 13, 10, 13, 10]

  // ----- printing

  function HexDigit(d: nat): byte
    requires d < 16
  {
    if d < 10 then 48 + d else 55 + d
  }

  /** `f"{n:X}"`. */
  function Hex(n: nat): (s: Bytes)
    ensures s != [] && forall i :: 0 <= i < |s| ==> IsUpperHex(s[i])
  {
    if n < 16 then [HexDigit(n)] else Hex(n / 16) + [HexDigit(n % 16)]
  }

  predicate IsUpperHex(c: byte) { 48 <= c <= 57 || 65 <= c <= 70 }

  /** One chunk on the wire: its size, its data and a line end after each. */
  function Piece(chunk: Bytes): Bytes { Hex(|chunk|) + CRLF + chunk + CRLF }

  function Pieces(chunks: seq<Bytes>): Bytes {
    if chunks == [] then [] else Piece(chunks[0]) + Pieces(chunks[1..])
  }

  /** The body of a chunked response. */
  function Frame(chunks: seq<Bytes>): Bytes { Pieces(chunks) + LAST }

  lemma {:induction false} PiecesSnoc(chunks: seq<Bytes>, chunk: Bytes)
    ensures Pieces(chunks + [chunk]) == Pieces(chunks) + Piece(chunk)
  {
    if chunks == [] {
      assert chunks + [chunk] == [chunk] && [chunk][1..] == [];
      assert Piece(chunk) + [] == [] + Piece(chunk);
    } else {
      PiecesSnoc(chunks[1..], chunk);
      assert (chunks + [chunk])[1..] == chunks[1..] + [chunk];
      Joins(Piece(chunks[0]), Pieces(chunks[1..]), Piece(chunk));
    }
  }

  lemma {:induction false} Joins(a: Bytes, b: Bytes, c: Bytes)
    ensures a + (b + c) == a + b + c
  {
  }

  /** The writer's loop. */
  method WriteChunks(chunks: seq<Bytes>) returns (wire: Bytes)
    ensures wire == Frame(chunks)
  {
    wire := [];
    for i := 0 to |chunks|
      invariant wire == Pieces(chunks[..i])
    {
      var chunk := chunks[i];
      PiecesSnoc(chunks[..i], chunk);
      assert chunks[..i + 1] == chunks[..i] + [chunk];
      wire := wire + Hex(|chunk|) + CRLF;
      wire := wire + chunk;
      wire := wire + CRLF;
    }
    assert chunks[..|chunks|] == chunks;
    wire := wire + LAST;
  }

  // ----- the host language's slices, search and integers

  /** Where a possibly negative index points in a sequence of length `n`. */
  function Norm(i: int, n: nat): nat {
    if i < 0 then (if n + i < 0 then 0 else n + i) else if i > n then n else i
  }

  /** The first CRLF at or after `i`. */
  function FindCrlf(s: Bytes, i: nat): Option<nat>
    decreases |s| - i
  {
    if i + 1 >= |s| then None
    else if s[i] == 13 && s[i + 1] == 10 then Some(i)
    else FindCrlf(s, i + 1)
  }

  function FindLf(s: Bytes, i: nat): Option<nat>
    decreases |s| - i
  {
    if i >= |s| then None else if s[i] == 10 then Some(i) else FindLf(s, i + 1)
  }

  predicate IsSpace(c: byte) { c == 32 || 9 <= c <= 13 }

  /** Where the part of `s[i..hi]` before the first semicolon ends. */
  function Cut(s: Bytes, i: nat, hi: nat): (k: nat)
    requires i <= hi <= |s|
    ensures i <= k <= hi
    decreases hi - i
  {
    if i == hi || s[i] == 59 then i else Cut(s, i + 1, hi)
  }

  /** `s[lo..hi]` without its leading spaces starts here. */
  function StripLeft(s: Bytes, lo: nat, hi: nat): (k: nat)
    requires lo <= hi <= |s|
    ensures lo <= k <= hi
    decreases hi - lo
  {
    if lo < hi && IsSpace(s[lo]) then StripLeft(s, lo + 1, hi) else lo
  }

  /** `s[lo..hi]` without its trailing spaces ends here. */
  function StripRight(s: Bytes, lo: nat, hi: nat): (k: nat)
    requires lo <= hi <= |s|
    ensures lo <= k <= hi
    decreases hi - lo
  {
    if lo < hi && IsSpace(s[hi - 1]) then StripRight(s, lo, hi - 1) else hi
  }

  function HexValue(c: byte): Option<nat> {
    if 48 <= c <= 57 then Some(c - 48)
    else if 65 <= c <= 70 then Some(c - 55)
    else if 97 <= c <= 102 then Some(c - 87)
    else None
  }

  /** The hexadecimal digits `s[i..hi]` with single underscores between them; `after` says a
      digit came last. */
  function Digits(s: Bytes, i: nat, hi: nat, value: nat, after: bool): Option<nat>
    requires i <= hi <= |s|
    decreases hi - i
  {
    if i == hi then (if after then Some(value) else None)
    else if HexValue(s[i]).Some? then Digits(s, i + 1, hi, value * 16 + HexValue(s[i]).value, true)
    else if s[i] == 95 && after then Digits(s, i + 1, hi, value, false)
    else None
  }

  /** Digits behind an optional `0x`, which one underscore may follow. */
  function Prefixed(s: Bytes, i: nat, hi: nat): Option<nat>
    requires i <= hi <= |s|
  {
    if i + 2 <= hi && s[i] == 48 && (s[i + 1] == 120 || s[i + 1] == 88) then
      Digits(s, if i + 2 < hi && s[i + 2] == 95 then i + 3 else i + 2, hi, 0, false)
    else Digits(s, i, hi, 0, false)
  }

  function Signed(n: Option<nat>, sign: int): Option<int> {
    if n.Some? then Some(sign * n.value) else None
  }

  /** The integer `s[i..hi]` in base 16, a sign allowed. */
  function ParseInt(s: Bytes, i: nat, hi: nat): Option<int>
    requires i <= hi <= |s|
  {
    if i < hi && s[i] == 45 then Signed(Prefixed(s, i + 1, hi), -1)
    else Signed(Prefixed(s, if i < hi && s[i] == 43 then i + 1 else i, hi), 1)
  }

  /** The size on the line `s[i..end]`: what is left of its extensions, without the spaces. */
  function ParseSize(s: Bytes, i: nat, end: nat): Option<int>
    requires i <= end <= |s|
  {
    var cut := Cut(s, i, end);
    var lo := StripLeft(s, i, cut);
    ParseInt(s, lo, StripRight(s, lo, cut))
  }

  // ----- decoding

  /** One pass of the decoder's loop: give up or finish with a result, or go on. */
  datatype Pass = Return(result: Bytes) | Again(offset: int, decoded: Bytes)

  /** A pass that read `line`. */
  function Decode1(body: Bytes, line: Option<Line>, decoded: Bytes): Pass {
    if line.None? then Return(body)
    else if line.value.size == 0 then Return(decoded)
    else
      var start := line.value.start;
      var next := start + line.value.size;
      if next > |body| then Return(body)
      else Again(SkipLineEnd(body, next), decoded + Slice(body, start, Norm(next, |body|)))
  }

  datatype Line = Line(size: int, start: nat)

  /** The size line at `i` and where its data starts; none if it has no end or no number. */
  function SizeLine(body: Bytes, i: nat): (line: Option<Line>)
    ensures line.Some? ==> i < line.value.start <= |body|
  {
    var crlf := FindCrlf(body, i);
    var end := if crlf.Some? then crlf else FindLf(body, i);
    LineEndAhead(body, i);
    if end.None? then None
    else
      var size := ParseSize(body, i, end.value);
      if size.None? then None else Some(Line(size.value, end.value + if crlf.Some? then 2 else 1))
  }

  /** The offset behind a line end at `next`, if there is one. */
  function SkipLineEnd(body: Bytes, next: int): int {
    var lo := Norm(next, |body|);
    if Norm(next + 2, |body|) == lo + 2 && body[lo] == 13 && body[lo + 1] == 10 then next + 2
    else if Norm(next + 1, |body|) == lo + 1 && body[lo] == 10 then next + 1
    else next
  }

  function Slice(s: Bytes, lo: nat, hi: nat): Bytes {
    if lo <= hi <= |s| then s[lo..hi] else []
  }

  lemma {:induction false} LineEndAhead(s: Bytes, i: nat)
    ensures FindCrlf(s, i).Some? ==> i <= FindCrlf(s, i).value && FindCrlf(s, i).value + 1 < |s|
    ensures FindLf(s, i).Some? ==> i <= FindLf(s, i).value < |s|
    decreases |s| - i
  {
    if i < |s| { LineEndAhead(s, i + 1); }
  }

  /** What finds the size line at an offset. The loop is stated over it, so that what holds of the
      loop does not depend on how a number is read. */
  type Reader = nat -> Option<Line>

  ghost predicate Reads(read: Reader, body: Bytes) {
    forall i: nat {:trigger SizeLine(body, i)} :: read(i) == SizeLine(body, i)
  }

  function LineReader(body: Bytes): (read: Reader)
    ensures Reads(read, body)
  {
    (i: nat) => SizeLine(body, i)
  }

  datatype Outcome = Done(result: Bytes) | StillRunning

  /** What the loop has returned after at most `passes` passes. */
  function Loop(body: Bytes, read: Reader, offset: int, decoded: Bytes, passes: nat): Outcome
    decreases passes
  {
    if offset >= |body| then Done(if decoded != [] then decoded else body)
    else if passes == 0 then StillRunning
    else match Decode1(body, read(Norm(offset, |body|)), decoded)
      case Return(result) => Done(result)
      case Again(next, more) => Loop(body, read, next, more, passes - 1)
  }

  /** What the decoder has returned after at most `passes` passes. */
  function Decoded(body: Bytes, passes: nat): Outcome {
    if body == [] then Done(body) else Loop(body, LineReader(body), 0, [], passes)
  }

  lemma {:induction false} LoopGoesOn(body: Bytes, read: Reader, offset: int, decoded: Bytes, left: nat,
                                      line: Option<Line>)
    requires offset < |body| && left > 0 && line == read(Norm(offset, |body|))
    ensures var p := Decode1(body, line, decoded);
            Loop(body, read, offset, decoded, left)
            == if p.Return? then Done(p.result) else Loop(body, read, p.offset, p.decoded, left - 1)
  {
  }

  /** The decoder, run for at most `passes` passes. */
  method DecodeChunkedBody(body: Bytes, passes: nat) returns (outcome: Outcome)
    ensures outcome == Decoded(body, passes)
  {
    if body == [] {
      return Done(body);
    }
    outcome := RunLoop(body, LineReader(body), passes);
  }

  method RunLoop(body: Bytes, ghost read: Reader, passes: nat) returns (outcome: Outcome)
    requires Reads(read, body)
    ensures outcome == Loop(body, read, 0, [], passes)
  {
    var offset, decoded, left := 0, [], passes;
    ghost var last := Loop(body, read, 0, [], passes);
    while offset < |body|
      invariant last == Loop(body, read, offset, decoded, left)
      decreases left
    {
      if left == 0 {
        return StillRunning;
      }
      var line := SizeLine(body, Norm(offset, |body|));
      LoopGoesOn(body, read, offset, decoded, left, line);
      var pass := Decode1(body, line, decoded);
      if pass.Return? {
        return Done(pass.result);
      }
      offset, decoded, left := pass.offset, pass.decoded, left - 1;
    }
    return Done(if decoded != [] then decoded else body);
  }

  // ----- reading back a printed size

  lemma {:induction false} FindCrlfAt(s: Bytes, i: nat, k: nat)
    requires i <= k && k + 1 < |s| && s[k] == 13 && s[k + 1] == 10
    requires forall j :: i <= j < k ==> s[j] != 13
    ensures FindCrlf(s, i) == Some(k)
    decreases k - i
  {
    if i < k { FindCrlfAt(s, i + 1, k); }
  }

  lemma {:induction false} DigitsOfHex(s: Bytes, i: nat, k: nat, hi: nat, n: nat)
    requires i <= k <= hi <= |s| && s[i..k] == Hex(n)
    ensures Digits(s, i, hi, 0, false) == Digits(s, k, hi, n, true)
    decreases n
  {
    assert s[k - 1] == s[i..k][k - i - 1];
    if n >= 16 {
      assert s[i..k - 1] == s[i..k][..k - i - 1] == Hex(n / 16);
      DigitsOfHex(s, i, k - 1, hi, n / 16);
    } else {
      assert k == i + 1;
    }
  }

  predicate UpperHex(s: Bytes, i: nat, k: nat)
    requires i <= k <= |s|
  {
    forall j :: i <= j < k ==> IsUpperHex(s[j])
  }

  lemma {:induction false} NoSemicolon(s: Bytes, i: nat, k: nat)
    requires i <= k <= |s| && UpperHex(s, i, k)
    ensures Cut(s, i, k) == k
    decreases k - i
  {
    if i < k { NoSemicolon(s, i + 1, k); }
  }

  /** A printed size reads back as itself. */
  lemma {:induction false} SizeReadsBack(s: Bytes, i: nat, k: nat, n: nat)
    requires i <= k <= |s| && s[i..k] == Hex(n)
    ensures UpperHex(s, i, k) && ParseSize(s, i, k) == Some(n)
  {
    forall j | i <= j < k ensures IsUpperHex(s[j]) { assert s[j] == s[i..k][j - i]; }
    NoSemicolon(s, i, k);
    assert IsUpperHex(s[i]) && IsUpperHex(s[k - 1]);
    DigitsOfHex(s, i, k, k, n);
    assert Prefixed(s, i, k) == Some(n) by {
      assert i + 1 < k ==> IsUpperHex(s[i + 1]);
    }
  }

  // ----- reading back a printed frame

  /** One pass over a printed chunk takes exactly that chunk, whatever bytes it holds. */
  lemma {:induction false} PassOverChunk(body: Bytes, read: Reader, before: Bytes, chunk: Bytes, rest: Bytes,
                                         decoded: Bytes)
    requires Reads(read, body) && body == before + Piece(chunk) + rest
    ensures Decode1(body, read(|before|), decoded)
         == if chunk == [] then Return(decoded) else Again(|before + Piece(chunk)|, decoded + chunk)
  {
    PieceParts(body, before, chunk, rest);
    var end := |before| + |Hex(|chunk|)|;
    LineReads(body, |before|, end, |chunk|);
    PassTakes(body, end, chunk, decoded);
  }

  lemma {:induction false} PassTakes(body: Bytes, end: nat, chunk: Bytes, decoded: Bytes)
    requires end + 2 + |chunk| + 2 <= |body| && body[end + 2..end + 2 + |chunk|] == chunk
    requires body[end + 2 + |chunk|] == 13 && body[end + 3 + |chunk|] == 10
    ensures Decode1(body, Some(Line(|chunk|, end + 2)), decoded)
         == if chunk == [] then Return(decoded) else Again(end + |chunk| + 4, decoded + chunk)
  {
  }

  lemma {:induction false} LineReads(body: Bytes, at: nat, end: nat, size: nat)
    requires at <= end && end + 1 < |body| && body[end] == 13 && body[end + 1] == 10
    requires body[at..end] == Hex(size)
    ensures SizeLine(body, at) == Some(Line(size, end + 2))
  {
    SizeReadsBack(body, at, end, size);
    FindCrlfAt(body, at, end);
  }

  lemma {:induction false} PieceParts(body: Bytes, before: Bytes, chunk: Bytes, rest: Bytes)
    requires body == before + Piece(chunk) + rest
    ensures var at, end := |before|, |before| + |Hex(|chunk|)|;
            var next := end + 2 + |chunk|;
            next + 2 <= |body| && body[at..end] == Hex(|chunk|) && body[end] == 13 && body[end + 1] == 10
            && body[end + 2..next] == chunk && body[next] == 13 && body[next + 1] == 10
            && |before + Piece(chunk)| == next + 2
  {
    var h := Hex(|chunk|);
    assert body == before + (h + (CRLF + (chunk + (CRLF + rest))));
  }

  /** The chunks' bytes, one chunk after the other. */
  function Joined(chunks: seq<Bytes>): Bytes {
    if chunks == [] then [] else chunks[0] + Joined(chunks[1..])
  }

  /** The bytes of the chunks before the first empty one. */
  function JoinedToEmpty(chunks: seq<Bytes>): Bytes {
    if chunks == [] || chunks[0] == [] then [] else chunks[0] + JoinedToEmpty(chunks[1..])
  }

  lemma {:induction false} FrameDecodes(body: Bytes, read: Reader, before: Bytes, chunks: seq<Bytes>,
                                        decoded: Bytes, passes: nat, total: Bytes)
    requires Reads(read, body) && body == before + Frame(chunks) && passes > |chunks|
    requires total == decoded + JoinedToEmpty(chunks)
    ensures Loop(body, read, |before|, decoded, passes) == Done(total)
    decreases |chunks|
  {
    var chunk: Bytes := if chunks == [] then [] else chunks[0];
    var after, more := before + Piece(chunk), decoded + chunk;
    FirstChunk(body, read, before, chunks, decoded, chunk);
    ChunkPassed(body, read, before, chunk, decoded, passes, after, more);
    if chunk != [] {
      FrameDecodes(body, read, after, chunks[1..], more, passes - 1, total);
    }
  }

  lemma {:induction false} ChunkPassed(body: Bytes, read: Reader, before: Bytes, chunk: Bytes, decoded: Bytes,
                                       passes: nat,
                                       after: Bytes, more: Bytes)
    requires |before| < |body| && passes > 0
    requires Decode1(body, read(|before|), decoded) == if chunk == [] then Return(decoded) else Again(|after|, more)
    ensures Loop(body, read, |before|, decoded, passes)
         == if chunk == [] then Done(decoded) else Loop(body, read, |after|, more, passes - 1)
  {
    LoopGoesOn(body, read, |before|, decoded, passes, read(|before|));
  }

  lemma {:induction false} FirstChunk(body: Bytes, read: Reader, before: Bytes, chunks: seq<Bytes>,
                                      decoded: Bytes, chunk: Bytes)
    requires Reads(read, body) && body == before + Frame(chunks)
    requires chunk == if chunks == [] then [] else chunks[0]
    ensures |before| < |body|
    ensures chunk != [] ==> body == before + Piece(chunk) + Frame(chunks[1..])
    ensures Decode1(body, read(|before|), decoded)
         == if chunk == [] then Return(decoded) else Again(|before + Piece(chunk)|, decoded + chunk)
    ensures decoded + JoinedToEmpty(chunks)
         == if chunk == [] then decoded else decoded + chunk + JoinedToEmpty(chunks[1..])
  {
    FrameSplits(chunks);
    var rest := if chunks == [] then [] else Frame(chunks[1..]);
    assert body == before + Piece(chunk) + rest;
    PassOverChunk(body, read, before, chunk, rest, decoded);
  }

  lemma {:induction false} FrameSplits(chunks: seq<Bytes>)
    ensures chunks == [] ==> Frame(chunks) == Piece([])
    ensures chunks != [] ==> Frame(chunks) == Piece(chunks[0]) + Frame(chunks[1..])
  {
    if chunks == [] {
      assert Hex(0) == [48];
    } else {
      Joins(Piece(chunks[0]), Pieces(chunks[1..]), LAST);
    }
  }

  predicate AllNonEmpty(chunks: seq<Bytes>) { forall i :: 0 <= i < |chunks| ==> chunks[i] != [] }

  /** Printing non-empty chunks and decoding the result gives their concatenation, even where the
      data itself contains line ends. */
  lemma {:induction false} ChunksRoundTrip(chunks: seq<Bytes>, passes: nat)
    requires AllNonEmpty(chunks) && passes > |chunks|
    ensures Decoded(Frame(chunks), passes) == Done(Joined(chunks))
  {
    RoundTripExactly(chunks, passes);
  }

  /** An empty chunk prints as the terminator, so only empty chunks may follow it. */
  predicate EmptyOnlyLast(chunks: seq<Bytes>) {
    forall i, j :: 0 <= i < j < |chunks| && chunks[i] == [] ==> chunks[j] == []
  }

  lemma {:induction false} RoundTripExactly(chunks: seq<Bytes>, passes: nat)
    requires passes > |chunks|
    ensures Decoded(Frame(chunks), passes) == Done(Joined(chunks)) <==> EmptyOnlyLast(chunks)
  {
    assert Frame(chunks) == [] + Frame(chunks);
    assert [] + JoinedToEmpty(chunks) == JoinedToEmpty(chunks);
    FrameDecodes(Frame(chunks), LineReader(Frame(chunks)), [], chunks, [], passes, JoinedToEmpty(chunks));
    JoinedAgrees(chunks);
  }

  lemma {:induction false} JoinedAgrees(chunks: seq<Bytes>)
    ensures Joined(chunks) == JoinedToEmpty(chunks) <==> EmptyOnlyLast(chunks)
  {
    if chunks == [] {
    } else if chunks[0] == [] {
      assert Joined(chunks) == Joined(chunks[1..]);
      JoinedOfEmpties(chunks[1..]);
      if EmptyOnlyLast(chunks) {
        forall i | 0 <= i < |chunks[1..]| ensures chunks[1..][i] == [] { assert chunks[i + 1] == []; }
      }
      if Joined(chunks[1..]) == [] {
        forall i, j | 0 <= i < j < |chunks| && chunks[i] == [] ensures chunks[j] == [] {
          assert chunks[j] == chunks[1..][j - 1];
        }
      }
    } else {
      JoinedAgrees(chunks[1..]);
      var c, a, b := chunks[0], Joined(chunks[1..]), JoinedToEmpty(chunks[1..]);
      assert (c + a)[|c|..] == a && (c + b)[|c|..] == b;
      TailEmptyOnlyLast(chunks);
    }
  }

  lemma {:induction false} TailEmptyOnlyLast(chunks: seq<Bytes>)
    requires chunks != [] && chunks[0] != []
    ensures EmptyOnlyLast(chunks) <==> EmptyOnlyLast(chunks[1..])
  {
    var tail := chunks[1..];
    if EmptyOnlyLast(chunks) {
      forall i, j | 0 <= i < j < |tail| && tail[i] == [] ensures tail[j] == [] {
        assert chunks[i + 1] == [] && chunks[j + 1] == [];
      }
    }
    if EmptyOnlyLast(tail) {
      forall i, j | 0 <= i < j < |chunks| && chunks[i] == [] ensures chunks[j] == [] {
        assert tail[i - 1] == [] && tail[j - 1] == [];
      }
    }
  }

  lemma {:induction false} JoinedOfEmpties(chunks: seq<Bytes>)
    ensures Joined(chunks) == [] <==> forall i :: 0 <= i < |chunks| ==> chunks[i] == []
  {
    if chunks != [] {
      JoinedOfEmpties(chunks[1..]);
      if Joined(chunks) == [] {
        forall i | 0 <= i < |chunks| ensures chunks[i] == [] {
          if i > 0 { assert chunks[i] == chunks[1..][i - 1]; }
        }
      }
    }
  }

  // ----- as many passes as bytes decide

  /** Where the pass after the one at `v` reads, if there is one. */
  function Onward(body: Bytes, read: Reader, v: nat): (w: Option<nat>)
    ensures body != [] && w.Some? ==> w.value < |body|
  {
    match Decode1(body, read(v), [])
    case Return(_) => None
    case Again(next, _) => if next >= |body| then None else Some(Norm(next, |body|))
  }

  type Move = nat -> Option<nat>

  function Mover(body: Bytes, read: Reader): (move: Move)
    ensures forall v :: move(v) == Onward(body, read, v)
  {
    v => Onward(body, read, v)
  }

  /** Where `k` moves lead from `v`. */
  function Trail(move: Move, v: nat, k: nat): Option<nat>
    decreases k
  {
    if k == 0 then Some(v)
    else match move(v) case None => None case Some(w) => Trail(move, w, k - 1)
  }

  lemma {:induction false} LoopLeavesTrail(body: Bytes, read: Reader, move: Move, offset: int, decoded: Bytes, k: nat)
    requires offset < |body| && forall v :: move(v) == Onward(body, read, v)
    ensures Loop(body, read, offset, decoded, k).StillRunning? <==> Trail(move, Norm(offset, |body|), k).Some?
    decreases k
  {
    if k > 0 {
      var v := Norm(offset, |body|);
      LoopGoesOn(body, read, offset, decoded, k, read(v));
      var p := Decode1(body, read(v), decoded);
      if p.Again? && p.offset < |body| { LoopLeavesTrail(body, read, move, p.offset, p.decoded, k - 1); }
    }
  }

  lemma {:induction false} TrailAdds(move: Move, v: nat, i: nat, j: nat)
    ensures Trail(move, v, i + j) == var w := Trail(move, v, i); if w.None? then None else Trail(move, w.value, j)
    decreases i
  {
    if i > 0 {
      var w := move(v);
      if w.Some? { TrailAdds(move, w.value, i - 1, j); }
    }
  }

  lemma {:induction false} TrailStays(move: Move, n: nat, v: nat, k: nat)
    requires v < n && forall u :: move(u).Some? ==> move(u).value < n
    ensures Trail(move, v, k).Some? ==> Trail(move, v, k).value < n
    decreases k
  {
    if k > 0 && move(v).Some? { TrailStays(move, n, move(v).value, k - 1); }
  }

  /** A position that comes back keeps coming back. */
  lemma {:induction false} TrailCycles(move: Move, v: nat, d: nat, k: nat)
    requires d > 0 && Trail(move, v, d) == Some(v)
    ensures Trail(move, v, k).Some?
    decreases k
  {
    if k < d {
      TrailAdds(move, v, k, d - k);
    } else {
      TrailAdds(move, v, d, k - d);
      TrailCycles(move, v, d, k - d);
    }
  }

  /** Among more than `n` numbers below `n` one comes twice. */
  lemma {:induction false} Pigeonhole(s: seq<nat>, n: nat) returns (i: nat, j: nat)
    requires |s| > n && forall k :: 0 <= k < |s| ==> s[k] < n
    ensures i < j < |s| && s[i] == s[j]
    decreases n
  {
    var last := s[|s| - 1];
    if k :| 0 <= k < |s| - 1 && s[k] == last {
      i, j := k, |s| - 1;
    } else {
      var t := seq(|s| - 1, k requires 0 <= k < |s| - 1 => if s[k] == n - 1 then last else s[k]);
      i, j := Pigeonhole(t, n - 1);
    }
  }

  /** A trail of `n` moves among `n` positions comes back to one of them. */
  lemma {:induction false} TrailComesBack(move: Move, n: nat) returns (i: nat, j: nat)
    requires n > 0 && (forall v :: move(v).Some? ==> move(v).value < n) && Trail(move, 0, n).Some?
    ensures i < j && Trail(move, 0, i).Some? && Trail(move, 0, i) == Trail(move, 0, j)
  {
    forall i: nat | i <= n ensures Trail(move, 0, i).Some? && Trail(move, 0, i).value < n {
      TrailAdds(move, 0, i, n - i);
      TrailStays(move, n, 0, i);
    }
    var s := seq(n + 1, i requires 0 <= i <= n => Trail(move, 0, i).value);
    i, j := Pigeonhole(s, n);
    assert s[i] == s[j];
  }

  lemma {:induction false} TrailReturns(move: Move, i: nat, j: nat, v: nat, k: nat)
    requires i < j && Trail(move, 0, i) == Some(v) == Trail(move, 0, j)
    ensures Trail(move, 0, k).Some?
  {
    TrailAdds(move, 0, i, j - i);
    if k <= i {
      TrailAdds(move, 0, k, i - k);
    } else {
      TrailAdds(move, 0, i, k - i);
      TrailCycles(move, v, j - i, k - i);
    }
  }

  lemma {:induction false} LoopSettled(body: Bytes, read: Reader, offset: int, decoded: Bytes, passes: nat, more: nat)
    requires passes <= more && Loop(body, read, offset, decoded, passes).Done?
    ensures Loop(body, read, offset, decoded, more) == Loop(body, read, offset, decoded, passes)
    decreases passes
  {
    if offset < |body| {
      var line := read(Norm(offset, |body|));
      LoopGoesOn(body, read, offset, decoded, passes, line);
      LoopGoesOn(body, read, offset, decoded, more, line);
      var p := Decode1(body, line, decoded);
      if p.Again? { LoopSettled(body, read, p.offset, p.decoded, passes - 1, more - 1); }
    }
  }

  /** The decoder's answer is the one it has after as many passes as the body has bytes; if it has
      none by then it never returns. */
  lemma {:induction false} PassesAreEnough(body: Bytes, more: nat)
    ensures more >= |body| ==> Decoded(body, more) == Decoded(body, |body|)
    ensures Decoded(body, |body|).StillRunning? ==> Decoded(body, more).StillRunning?
  {
    if body != [] {
      var read := LineReader(body);
      var move := Mover(body, read);
      LoopLeavesTrail(body, read, move, 0, [], |body|);
      LoopLeavesTrail(body, read, move, 0, [], more);
      if Trail(move, 0, |body|).Some? {
        var i, j := TrailComesBack(move, |body|);
        TrailReturns(move, i, j, Trail(move, 0, i).value, more);
      } else if more >= |body| {
        LoopSettled(body, read, 0, [], |body|, more);
      }
    }
  }

  // ----- when the decoder stops

  /** Where the decoder reads its `k`-th size line, counting from zero, if it gets that far. */
  function ReadAt(body: Bytes, k: nat): Option<nat> { Trail(Mover(body, LineReader(body)), 0, k) }

  ghost predicate ComesBack(body: Bytes) {
    exists i: nat, j: nat :: i < j && ReadAt(body, i).Some? && ReadAt(body, i) == ReadAt(body, j)
  }

  lemma {:induction false} RunsAsRead(body: Bytes, k: nat)
    requires body != []
    ensures Decoded(body, k).StillRunning? <==> ReadAt(body, k).Some?
  {
    LoopLeavesTrail(body, LineReader(body), Mover(body, LineReader(body)), 0, [], k);
  }

  /** The decoder never returns if and only if it comes back to a size line it has read. */
  lemma {:induction false} NeverReturnsExactly(body: Bytes)
    requires body != []
    ensures (forall k: nat :: Decoded(body, k).StillRunning?) <==> ComesBack(body)
  {
    var move := Mover(body, LineReader(body));
    if ComesBack(body) {
      var i: nat, j: nat :| i < j && ReadAt(body, i).Some? && ReadAt(body, i) == ReadAt(body, j);
      forall k: nat ensures Decoded(body, k).StillRunning? {
        TrailReturns(move, i, j, ReadAt(body, i).value, k);
        RunsAsRead(body, k);
      }
    }
    if forall k: nat :: Decoded(body, k).StillRunning? {
      assert Decoded(body, |body|).StillRunning?;
      RunsAsRead(body, |body|);
      var i, j := TrailComesBack(move, |body|);
      assert i < j && ReadAt(body, i).Some? && ReadAt(body, i) == ReadAt(body, j);
    }
  }

  /** The size line at `v`, if it is one, does not hold a negative number. */
  predicate NotNegative(body: Bytes, v: nat) {
    SizeLine(body, v).Some? ==> SizeLine(body, v).value.size >= 0
  }

  /** No size line the decoder reads is negative. */
  ghost predicate NoneNegative(body: Bytes) {
    forall k: nat {:trigger ReadAt(body, k)} :: ReadAt(body, k).Some? ==> NotNegative(body, ReadAt(body, k).value)
  }

  lemma {:induction false} MovesAhead(body: Bytes, v: nat)
    requires v < |body| && NotNegative(body, v)
    ensures var w := Onward(body, LineReader(body), v); w.Some? ==> v < w.value
  {
    assert LineReader(body)(v) == SizeLine(body, v);
  }

  /** From `w`, if it is a position, a move leads ahead. */
  predicate Climbs(move: Move, w: Option<nat>) {
    w.Some? && move(w.value).Some? ==> w.value < move(w.value).value
  }

  lemma {:induction false} TrailClimbs(move: Move, k: nat)
    requires forall i: nat {:trigger Trail(move, 0, i)} :: Climbs(move, Trail(move, 0, i))
    ensures Trail(move, 0, k).Some? ==> k <= Trail(move, 0, k).value
    decreases k
  {
    if k > 0 {
      TrailClimbs(move, k - 1);
      TrailAdds(move, 0, k - 1, 1);
      var w := Trail(move, 0, k - 1);
      assert Climbs(move, w);
      if w.Some? { OneMove(move, w.value); }
    }
  }

  lemma {:induction false} OneMove(move: Move, v: nat)
    ensures Trail(move, v, 1) == move(v)
  {
    if move(v).Some? { assert Trail(move, move(v).value, 0) == move(v); }
  }

  lemma {:induction false} ReadsAhead(body: Bytes, k: nat)
    requires body != [] && NoneNegative(body)
    ensures ReadAt(body, k).Some? ==> k <= ReadAt(body, k).value < |body|
  {
    var move := Mover(body, LineReader(body));
    forall i: nat ensures Climbs(move, Trail(move, 0, i)) { ReadClimbs(body, i); }
    TrailClimbs(move, k);
    TrailStays(move, |body|, 0, k);
  }

  lemma {:induction false} ReadClimbs(body: Bytes, i: nat)
    requires body != [] && NoneNegative(body)
    ensures Climbs(Mover(body, LineReader(body)), ReadAt(body, i))
  {
    TrailStays(Mover(body, LineReader(body)), |body|, 0, i);
    if ReadAt(body, i).Some? { MovesAhead(body, ReadAt(body, i).value); }
  }

  /** Unless a size line it reads is negative, no body keeps the decoder busy for more passes than it
      has bytes, whatever its data holds. */
  lemma {:induction false} DecoderStops(body: Bytes)
    requires NoneNegative(body)
    ensures Decoded(body, |body|).Done?
  {
    if body != [] {
      ReadsAhead(body, |body|);
      RunsAsRead(body, |body|);
    }
  }

  predicate NoMinus(s: Bytes) { forall i :: 0 <= i < |s| ==> s[i] != 45 }

  /** A body without a minus sign is one of those. */
  lemma {:induction false} NoMinusNoneNegative(body: Bytes)
    requires NoMinus(body)
    ensures NoneNegative(body)
  {
    forall k: nat | ReadAt(body, k).Some? ensures NotNegative(body, ReadAt(body, k).value) {
      SizeNotNegative(body, ReadAt(body, k).value);
    }
  }

  lemma {:induction false} SizeNotNegative(body: Bytes, i: nat)
    requires NoMinus(body)
    ensures NotNegative(body, i)
  {
  }

  /** A negative size takes the decoder back to the same line for ever. */
  lemma {:induction false} NegativeSizeNeverStops(passes: nat)
    ensures Decoded([45, 52, 13, 10], passes) == StillRunning
  {
    var body: Bytes := [45, 52, 13, 10];
    FindCrlfAt(body, 0, 2);
    assert Cut(body, 0, 2) == 2;
    assert Digits(body, 1, 2, 0, false) == Some(4);
    assert SizeLine(body, 0) == Some(Line(-4, 4));
    NegativeLoop(body, LineReader(body), [], passes);
  }

  lemma {:induction false} NegativeLoop(body: Bytes, read: Reader, decoded: Bytes, passes: nat)
    requires body == [45, 52, 13, 10] && read(0) == Some(Line(-4, 4))
    ensures Loop(body, read, 0, decoded, passes) == StillRunning
    decreases passes
  {
    if passes > 0 {
      assert decoded + [] == decoded;
      LoopGoesOn(body, read, 0, decoded, passes, read(0));
      NegativeLoop(body, read, decoded, passes - 1);
    }
  }
}
