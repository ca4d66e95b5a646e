/** Reading names and questions out of a DNS message, and building the honeypot's answer
    (sections 4.1.1 to 4.1.4 of RFC 1035). */
module DnsCodec {
  import opened Options
  import opened Octets

  type Label = seq<byte>
  type Ipv4 = s: seq<byte> | |s| == 4 witness [127, 0, 0, 1]

  const MAX_JUMPS := 20

  datatype NameError =
    | TruncatedPointer | PointerOutOfRange | TooManyJumps | InvalidLabel | TruncatedLabel | NoTerminator

  datatype Reading = Labels(labels: seq<Label>) | Fails(error: NameError) {
    function After(first: seq<Label>): Reading {
      if Labels? then Labels(first + labels) else this
    }
  }

  datatype Decoded = Name(labels: seq<Label>, next: nat) | Malformed(error: NameError)

  predicate IsPointer(b: byte) { b >= 0xC0 }

  function Target(p: seq<byte>, i: nat): nat
    requires i + 1 < |p| && IsPointer(p[i])
  {
    var high: int, low: int := p[i], p[i + 1];
    (high - 0xC0) * 256 + low
  }

  /** A name at `i`, read as section 4.1.4 of RFC 1035 describes it: labels ending in a zero
      byte, a pointer, or labels ending in a pointer; at most `budget` pointers are followed. */
  function ReadName(p: seq<byte>, i: nat, budget: nat): Reading
    decreases budget, |p| - i
  {
    if i >= |p| then Fails(NoTerminator)
    else if p[i] == 0 then Labels([])
    else if IsPointer(p[i]) then
      if i + 1 >= |p| then Fails(TruncatedPointer)
      else if Target(p, i) >= |p| then Fails(PointerOutOfRange)
      else if budget == 0 then Fails(TooManyJumps)
      else ReadName(p, Target(p, i), budget - 1)
    else if p[i] > 63 then Fails(InvalidLabel)
    else if i + 1 + p[i] > |p| then Fails(TruncatedLabel)
    else ReadName(p, i + 1 + p[i], budget).After([p[i + 1..i + 1 + p[i]]])
  }

  /** Where the message goes on after the name at `i`: past its zero byte or its pointer. */
  function NameEnd(p: seq<byte>, i: nat): nat
    decreases |p| - i
  {
    if i >= |p| then i
    else if p[i] == 0 then i + 1
    else if IsPointer(p[i]) then i + 2
    else NameEnd(p, i + 1 + p[i])
  }

  lemma {:induction false} AfterAfter(first: seq<Label>, second: seq<Label>, r: Reading)
    ensures r.After(second).After(first) == r.After(first + second)
  {
    if r.Labels? { assert first + (second + r.labels) == first + second + r.labels; }
  }

  lemma {:induction false} LabelRead(p: seq<byte>, i: nat, budget: nat, labels: seq<Label>)
    requires i < |p| && p[i] != 0 && p[i] <= 63 && i + 1 + p[i] <= |p|
    ensures var end := i + 1 + p[i];
      && ReadName(p, i, budget).After(labels) == ReadName(p, end, budget).After(labels + [p[i + 1..end]])
      && NameEnd(p, i) == NameEnd(p, end)
  {
    AfterAfter(labels, [p[i + 1..i + 1 + p[i]]], ReadName(p, i + 1 + p[i], budget));
  }

  lemma {:induction false} PointerRead(p: seq<byte>, i: nat, budget: nat)
    requires i + 1 < |p| && IsPointer(p[i]) && Target(p, i) < |p|
    ensures ReadName(p, i, budget) == if budget == 0 then Fails(TooManyJumps) else ReadName(p, Target(p, i), budget - 1)
    ensures NameEnd(p, i) == i + 2
  {
  }

  ghost function Scale(n: nat, len: nat): nat { if n == 0 then 0 else len + Scale(n - 1, len) }

  lemma {:induction false} ScaleIsProduct(n: nat, len: nat)
    ensures Scale(n, len) == n * len
  {
    if n > 0 { ScaleIsProduct(n - 1, len); }
  }

  /** What is left to read of `all` is the name at `idx`, behind `labels`. */
  ghost predicate ReadsOn(p: seq<byte>, all: Reading, idx: nat, budget: nat, labels: seq<Label>) {
    all == ReadName(p, idx, budget).After(labels)
  }

  /** Where the message goes on, `end`: at `next` once a pointer was followed, and else where it does at `idx`. */
  ghost predicate EndsAt(p: seq<byte>, start: nat, end: nat, idx: nat, jumped: bool, next: int) {
    if jumped then next == end && start < next <= |p| && idx <= |p| else start <= idx && end == NameEnd(p, idx)
  }

  /** Each pass is paid for by the bytes it skips, and each pointer by a packet length. */
  ghost predicate Paid(len: nat, idx: nat, budget: nat, steps: nat, left: int) {
    && left == Scale(budget, len)
    && (if idx <= len then steps + left <= 20 * len + idx else steps == 0)
  }

  /** What the decoder returns for a reading. */
  ghost predicate Matches(r: Decoded, all: Reading, start: nat, end: nat, len: nat) {
    match all
    case Labels(labels) => r == Name(labels, end) && start < r.next <= len
    case Fails(error) => r == Malformed(error)
  }

  /** Where the reading fails. */
  lemma {:induction false} Failing(p: seq<byte>, all: Reading, i: nat, budget: nat, labels: seq<Label>)
    requires ReadsOn(p, all, i, budget, labels)
    ensures i >= |p| ==> all == Fails(NoTerminator)
    ensures i < |p| && IsPointer(p[i]) && i + 1 >= |p| ==> all == Fails(TruncatedPointer)
    ensures i + 1 < |p| && IsPointer(p[i]) && Target(p, i) >= |p| ==> all == Fails(PointerOutOfRange)
    ensures i < |p| && 63 < p[i] && !IsPointer(p[i]) ==> all == Fails(InvalidLabel)
    ensures i < |p| && 0 < p[i] <= 63 && i + 1 + p[i] > |p| ==> all == Fails(TruncatedLabel)
  {
  }

  lemma {:induction false} AtZero(p: seq<byte>, all: Reading, start: nat, end: nat, i: nat, budget: nat,
                                  labels: seq<Label>, jumped: bool, next: int, steps: nat, left: int)
    requires i < |p| && p[i] == 0 && Going(p, all, start, end, i, budget, labels, jumped, next, steps, left)
    ensures Matches(Name(labels, if jumped then next else i + 1), all, start, end, |p|) && steps + 1 <= 21 * |p|
  {
  }

  /** The reading goes on at `i`. */
  ghost predicate Going(p: seq<byte>, all: Reading, start: nat, end: nat, i: nat, budget: nat, labels: seq<Label>,
                        jumped: bool, next: int, steps: nat, left: int)
  {
    ReadsOn(p, all, i, budget, labels) && EndsAt(p, start, end, i, jumped, next) && Paid(|p|, i, budget, steps, left)
    && 0 <= next && (i < |p| ==> steps + 1 <= 21 * |p|) && steps <= 21 * |p|
  }

  /** A pass over a label ... */
  lemma {:induction false} AfterLabel(p: seq<byte>, all: Reading, start: nat, end: nat, i: nat, budget: nat,
                                      labels: seq<Label>, jumped: bool, next: int, steps: nat, left: int)
    requires i < |p| && p[i] != 0 && p[i] <= 63 && i + 1 + p[i] <= |p|
    requires Going(p, all, start, end, i, budget, labels, jumped, next, steps, left)
    ensures var k := i + 1 + p[i];
      Going(p, all, start, end, k, budget, labels + [p[i + 1..k]], jumped, next, steps + 1, left)
  {
    LabelRead(p, i, budget, labels);
  }

  /** ... and over a pointer. */
  lemma {:induction false} AfterPointer(p: seq<byte>, all: Reading, start: nat, end: nat, i: nat, budget: nat,
                                        labels: seq<Label>, jumped: bool, next: int, steps: nat, left: int)
    requires i + 1 < |p| && IsPointer(p[i]) && Target(p, i) < |p|
    requires Going(p, all, start, end, i, budget, labels, jumped, next, steps, left)
    ensures if budget == 0 then all == Fails(TooManyJumps)
            else Going(p, all, start, end, Target(p, i), budget - 1, labels, true, if jumped then next else i + 2,
                       steps + 1, left - |p|)
  {
    PointerRead(p, i, budget);
  }

  /** The decoder follows pointers, backward and cyclic ones too. It reads what `ReadName` reads with a
      budget of 20 pointers, fails as it fails, and stops within 21 times the packet length. */
  method DecodeName(packet: seq<byte>, start: nat) returns (r: Decoded, ghost steps: nat)
    ensures match ReadName(packet, start, MAX_JUMPS)
            case Labels(labels) => r == Name(labels, NameEnd(packet, start)) && start < r.next <= |packet|
            case Fails(error) => r == Malformed(error)
    ensures steps <= 21 * |packet|
  {
    ScaleIsProduct(20, |packet|);
    r, steps := DecodeLoop(packet, start, ReadName(packet, start, MAX_JUMPS), NameEnd(packet, start));
  }

  method DecodeLoop(packet: seq<byte>, start: nat, ghost all: Reading, ghost end: nat)
      returns (r: Decoded, ghost steps: nat)
    requires Going(packet, all, start, end, start, MAX_JUMPS, [], false, start, 0, Scale(MAX_JUMPS, |packet|))
    ensures Matches(r, all, start, end, |packet|) && steps <= 21 * |packet|
  {
    var labels: seq<Label> := [];
    var idx, next := start, start;
    var jumped, jumps := false, 0;
    steps := 0;
    ghost var left := Scale(MAX_JUMPS, |packet|);
    while idx < |packet|
      invariant 0 <= jumps <= MAX_JUMPS && 0 <= idx
      invariant Going(packet, all, start, end, idx, MAX_JUMPS - jumps, labels, jumped, next, steps, left)
      decreases MAX_JUMPS - jumps, |packet| - idx
    {
      var length := packet[idx];
      ghost var budget := MAX_JUMPS - jumps;
      Failing(packet, all, idx, budget, labels);
      if length == 0 {
        AtZero(packet, all, start, end, idx, budget, labels, jumped, next, steps, left);
        idx := idx + 1;
        if !jumped {
          next := idx;
        }
        return Name(labels, next), steps + 1;
      }
      if IsPointer(length) {
        if idx + 1 >= |packet| {
          return Malformed(TruncatedPointer), steps + 1;
        }
        var pointer := Target(packet, idx);
        if pointer >= |packet| {
          return Malformed(PointerOutOfRange), steps + 1;
        }
        AfterPointer(packet, all, start, end, idx, budget, labels, jumped, next, steps, left);
        if !jumped {
          next := idx + 2;
        }
        idx := pointer;
        jumped := true;
        jumps := jumps + 1;
        if jumps > MAX_JUMPS {
          return Malformed(TooManyJumps), steps + 1;
        }
        steps, left := steps + 1, left - |packet|;
        continue;
      }
      if length > 63 {
        return Malformed(InvalidLabel), steps + 1;
      }
      idx := idx + 1;
      if idx + length > |packet| {
        return Malformed(TruncatedLabel), steps + 1;
      }
      AfterLabel(packet, all, start, end, idx - 1, budget, labels, jumped, next, steps, left);
      labels := labels + [packet[idx..idx + length]];
      idx := idx + length;
      steps := steps + 1;
    }
    Failing(packet, all, idx, MAX_JUMPS - jumps, labels);
    r := Malformed(NoTerminator);
  }

  // ----- questions

  datatype Question = Question(labels: seq<Label>, qtype: nat, qclass: nat, offset: nat, wire: seq<byte>)

  function U16(p: seq<byte>, i: nat): nat
    requires i + 1 < |p|
  {
    var high: int, low: int := p[i], p[i + 1];
    high * 256 + low
  }

  function Bytes16(n: nat): (b: seq<byte>)
    requires n < 0x10000
    ensures |b| == 2 && U16(b, 0) == n
  {
    [n / 256, n % 256]
  }

  /** The question at `idx`, if a whole one is there. */
  function QuestionAt(p: seq<byte>, idx: nat): Option<Question> {
    var name := ReadName(p, idx, MAX_JUMPS);
    var end := NameEnd(p, idx);
    if name.Fails? || end < idx || end + 4 > |p| then None
    else Some(Question(name.labels, U16(p, end), U16(p, end + 2), idx, p[idx..end + 4]))
  }

  /** What finds the question at an offset. Lists of questions are stated over it, so that what
      holds of a list does not depend on how a name is read. */
  type Finder = nat -> Option<Question>

  ghost predicate Finds(at: Finder, p: seq<byte>) {
    forall i: nat {:trigger QuestionAt(p, i)} :: at(i) == QuestionAt(p, i)
  }

  function FinderOf(p: seq<byte>): (at: Finder)
    ensures Finds(at, p)
  {
    (i: nat) => QuestionAt(p, i)
  }

  /** Up to `n` questions, back to back from `idx`. */
  function List(at: Finder, idx: nat, n: nat): seq<Question>
    decreases n
  {
    if n == 0 then []
    else match at(idx)
      case None => []
      case Some(q) => [q] + List(at, idx + |q.wire|, n - 1)
  }

  function QuestionsFrom(p: seq<byte>, idx: nat, n: nat): seq<Question> { List(FinderOf(p), idx, n) }

  function Questions(query: seq<byte>): seq<Question> {
    if |query| < 12 then [] else QuestionsFrom(query, 12, U16(query, 4))
  }

  lemma {:induction false} QuestionShape(p: seq<byte>, idx: nat)
    ensures match QuestionAt(p, idx)
            case None => true
            case Some(q) => && q.offset == idx && NameEnd(p, idx) + 4 == idx + |q.wire| <= |p|
                            && q.wire == p[idx..idx + |q.wire|] && |q.wire| >= 4
  {
  }

  lemma {:induction false} QuestionIs(p: seq<byte>, idx: nat, q: Question)
    requires ReadName(p, idx, MAX_JUMPS) == Labels(q.labels) && idx <= NameEnd(p, idx) && NameEnd(p, idx) + 4 <= |p|
    requires q.qtype == U16(p, NameEnd(p, idx)) && q.qclass == U16(p, NameEnd(p, idx) + 2)
    requires q.offset == idx && q.wire == p[idx..NameEnd(p, idx) + 4]
    ensures QuestionAt(p, idx) == Some(q)
  {
  }

  lemma {:induction false} TakeQuestion(at: Finder, all: seq<Question>, before: seq<Question>, idx: nat, n: nat)
    requires n > 0 && all == before + List(at, idx, n)
    ensures match at(idx)
            case None => all == before
            case Some(q) => all == before + [q] + List(at, idx + |q.wire|, n - 1)
  {
  }

  method ParseQuestions(query: seq<byte>) returns (questions: seq<Question>)
    ensures questions == Questions(query)
  {
    if |query| < 12 {
      return [];
    }
    questions := ParseList(query, U16(query, 4), FinderOf(query));
  }

  /** The parser's loop. */
  method ParseList(query: seq<byte>, count: nat, ghost at: Finder) returns (questions: seq<Question>)
    requires Finds(at, query)
    ensures questions == List(at, 12, count)
  {
    var idx: nat := 12;
    questions := [];
    ghost var all := List(at, 12, count);
    for i := 0 to count
      invariant all == questions + List(at, idx, count - i)
    {
      TakeQuestion(at, all, questions, idx, count - i);
      if idx >= |query| {
        BeyondEnd(query, idx);
        return;
      }
      var question := ParseQuestion(query, idx);
      if question.None? {
        return;
      }
      questions := questions + [question.value];
      idx := idx + |question.value.wire|;
    }
  }

  lemma {:induction false} BeyondEnd(query: seq<byte>, idx: nat)
    requires idx >= |query|
    ensures QuestionAt(query, idx) == None
  {
  }

  /** One pass of the loop above: the question at `idx`, or none to stop. */
  method ParseQuestion(query: seq<byte>, idx: nat) returns (question: Option<Question>)
    ensures question == QuestionAt(query, idx)
  {
    ghost var steps;
    var name;
    name, steps := DecodeName(query, idx);
    if name.Malformed? {
      return None;
    }
    var end := name.next;
    if end + 4 > |query| {
      return None;
    }
    question := Some(Question(name.labels, U16(query, end), U16(query, end + 2), idx, query[idx..end + 4]));
    QuestionIs(query, idx, question.value);
  }

  /** The wire bytes of the questions, joined. */
  function Wire(questions: seq<Question>): seq<byte> {
    if questions == [] then [] else questions[0].wire + Wire(questions[1..])
  }

  // ----- the answer

  const TTL: seq<byte> := [0, 0, 0, 60]

  /** The pointer `0xC000 | offset`: only the low 14 bits of the offset fit. */
  function Pointer(offset: nat): (b: seq<byte>)
    requires offset < 0x10000
    ensures |b| == 2 && IsPointer(b[0]) && Target(b, 0) == offset % 0x4000
  {
    Bytes16(0xC000 + offset % 0x4000)
  }

  function Answer(q: Question, ip: Ipv4): (b: seq<byte>)
    requires q.offset < 0x10000
    ensures |b| == 16
  {
    Pointer(q.offset) + [0, 1, 0, 1] + TTL + [0, 4] + ip
  }

  function Answers(questions: seq<Question>, ip: Ipv4): (b: seq<byte>)
    requires forall q :: q in questions ==> q.offset < 0x10000
    ensures |b| == 16 * |questions|
  {
    if questions == [] then [] else Answer(questions[0], ip) + Answers(questions[1..], ip)
  }

  /** What the builder returns; an offset that does not fit two bytes raises. */
  datatype Response = Response(data: seq<byte>, questions: seq<Question>) | OffsetOverflow

  function BuildResponse(query: seq<byte>, ip: Ipv4, banner: seq<byte>): Response {
    if |query| < 12 then Response(banner, []) else
      var questions := Questions(query);
      if questions == [] then Response(query[..2] + [0x81, 0x82] + [0, 0, 0, 0, 0, 0, 0, 0], [])
      else if exists q :: q in questions && q.offset >= 0x10000 then OffsetOverflow
      else
        QuestionCount(FinderOf(query), 12, U16(query, 4));
        var header := query[..2] + [0x81, 0x80] + Bytes16(|questions|) + Bytes16(|questions|) + [0, 0, 0, 0];
        Response(header + Wire(questions) + Answers(questions, ip), questions)
  }

  lemma {:induction false} QuestionCount(at: Finder, idx: nat, n: nat)
    ensures |List(at, idx, n)| <= n
    decreases n
  {
    if n > 0 {
      match at(idx)
      case None =>
      case Some(q) => QuestionCount(at, idx + |q.wire|, n - 1);
    }
  }

  /** Each question is found where the one before it ends. */
  ghost predicate Chain(at: Finder, idx: nat, questions: seq<Question>)
    decreases |questions|
  {
    questions == [] || (at(idx) == Some(questions[0]) && Chain(at, idx + |questions[0].wire|, questions[1..]))
  }

  lemma {:induction false} ListChain(at: Finder, idx: nat, n: nat)
    ensures Chain(at, idx, List(at, idx, n))
    decreases n
  {
    if n > 0 && at(idx).Some? {
      var q := at(idx).value;
      var rest := List(at, idx + |q.wire|, n - 1);
      ListChain(at, idx + |q.wire|, n - 1);
      assert ([q] + rest)[1..] == rest;
    }
  }

  lemma {:induction false} ChainList(at: Finder, idx: nat, questions: seq<Question>)
    requires Chain(at, idx, questions)
    ensures List(at, idx, |questions|) == questions
    decreases |questions|
  {
    if questions != [] { ChainList(at, idx + |questions[0].wire|, questions[1..]); }
  }

  /** A question stands at its offset, inside the message. */
  ghost predicate Stands(p: seq<byte>, i: nat, q: Question) {
    q.offset == i && i + |q.wire| <= |p| && q.wire == p[i..i + |q.wire|]
  }

  ghost predicate Shaped(at: Finder, p: seq<byte>) {
    forall i: nat {:trigger Stands(p, i, at(i).value)} :: at(i).Some? ==> Stands(p, i, at(i).value)
  }

  lemma {:induction false} FinderShaped(p: seq<byte>)
    ensures Shaped(FinderOf(p), p)
  {
    forall i: nat | FinderOf(p)(i).Some? ensures Stands(p, i, FinderOf(p)(i).value) { QuestionShape(p, i); }
  }

  lemma {:induction false} SliceJoin(p: seq<byte>, a: nat, b: nat, c: nat, x: seq<byte>, y: seq<byte>)
    requires a <= b <= c <= |p| && x == p[a..b] && y == p[b..c]
    ensures x + y == p[a..c]
  {
  }

  /** The parsed questions lie back to back: their wire bytes are a stretch of the message. */
  lemma {:induction false} ChainWire(at: Finder, p: seq<byte>, idx: nat, questions: seq<Question>)
    requires Shaped(at, p) && Chain(at, idx, questions) && idx <= |p|
    ensures idx + |Wire(questions)| <= |p| && Wire(questions) == p[idx..idx + |Wire(questions)|]
    decreases |questions|
  {
    if questions == [] {
      assert p[idx..idx] == [];
    } else {
      var q, rest := questions[0], questions[1..];
      assert Stands(p, idx, at(idx).value);
      ChainWire(at, p, idx + |q.wire|, rest);
      SliceJoin(p, idx, idx + |q.wire|, idx + |q.wire| + |Wire(rest)|, q.wire, Wire(rest));
    }
  }

  lemma {:induction false} WireIsSlice(p: seq<byte>, idx: nat, n: nat, questions: seq<Question>)
    requires idx <= |p| && questions == QuestionsFrom(p, idx, n)
    ensures idx + |Wire(questions)| <= |p| && Wire(questions) == p[idx..idx + |Wire(questions)|]
  {
    FinderShaped(p);
    ListChain(FinderOf(p), idx, n);
    ChainWire(FinderOf(p), p, idx, questions);
  }

  /** Every question of a chain is found at its own offset, behind the ones before it, and ends
      ahead of the ones after it. */
  lemma {:induction false} ChainEntry(at: Finder, p: seq<byte>, idx: nat, questions: seq<Question>, k: nat)
    requires Shaped(at, p) && Chain(at, idx, questions) && k < |questions|
    ensures var q, last := questions[k], questions[|questions| - 1];
      && at(q.offset) == Some(q) && idx <= q.offset
      && q.offset + |q.wire| <= idx + |Wire(questions)| && q.offset <= idx + |Wire(questions)| - |last.wire|
    decreases |questions|
  {
    var rest := questions[1..];
    assert Stands(p, idx, at(idx).value);
    if k > 0 {
      ChainEntry(at, p, idx + |questions[0].wire|, rest, k - 1);
    } else if rest != [] {
      ChainEntry(at, p, idx + |questions[0].wire|, rest, |rest| - 1);
    }
  }

  lemma {:induction false} WireCons(q: Question, rest: seq<Question>)
    ensures Wire([q] + rest) == q.wire + Wire(rest)
  {
    assert ([q] + rest)[1..] == rest;
  }

  // ----- names that stay inside a stretch of the message

  /** Reading the name at `i` succeeds within `budget` pointers and touches only `p[lo..hi]`. */
  predicate Within(p: seq<byte>, i: nat, lo: nat, hi: nat, budget: nat)
    requires hi <= |p|
    decreases budget, hi - i
  {
    lo <= i < hi &&
    if p[i] == 0 then true
    else if IsPointer(p[i]) then i + 1 < hi && budget > 0 && Within(p, Target(p, i), lo, hi, budget - 1)
    else p[i] <= 63 && i + 1 + p[i] <= hi && Within(p, i + 1 + p[i], lo, hi, budget)
  }

  predicate SameBytes(p: seq<byte>, p': seq<byte>, lo: nat, hi: nat) {
    lo <= hi <= |p| && hi <= |p'| && forall k :: lo <= k < hi ==> p[k] == p'[k]
  }

  lemma {:induction false} SameSlice(p: seq<byte>, p': seq<byte>, lo: nat, hi: nat, a: nat, b: nat)
    requires SameBytes(p, p', lo, hi) && lo <= a <= b <= hi
    ensures p[a..b] == p'[a..b]
  {
  }

  /** Such a name reads the same in any message that has the same stretch. */
  lemma {:induction false} WithinTransfers(p: seq<byte>, p': seq<byte>, i: nat, lo: nat, hi: nat, budget: nat,
                                           more: nat)
    requires SameBytes(p, p', lo, hi)
    requires Within(p, i, lo, hi, budget) && budget <= more
    ensures ReadName(p, i, more).Labels? && ReadName(p', i, more) == ReadName(p, i, more)
    ensures NameEnd(p', i) == NameEnd(p, i) <= hi
    decreases budget, hi - i
  {
    if p[i] == 0 {
    } else if IsPointer(p[i]) {
      WithinTransfers(p, p', Target(p, i), lo, hi, budget - 1, more - 1);
    } else {
      var j := i + 1 + p[i];
      WithinTransfers(p, p', j, lo, hi, budget, more);
      SameSlice(p, p', lo, hi, i + 1, j);
    }
  }

  lemma {:induction false} MoreBudget(p: seq<byte>, i: nat, lo: nat, hi: nat, budget: nat, more: nat)
    requires hi <= |p| && Within(p, i, lo, hi, budget) && budget <= more
    ensures Within(p, i, lo, hi, more)
    decreases budget, hi - i
  {
    if p[i] == 0 {
    } else if IsPointer(p[i]) {
      MoreBudget(p, Target(p, i), lo, hi, budget - 1, more - 1);
    } else {
      MoreBudget(p, i + 1 + p[i], lo, hi, budget, more);
    }
  }

  lemma {:induction false} BudgetIrrelevant(p: seq<byte>, i: nat, lo: nat, hi: nat, budget: nat, m: nat, n: nat)
    requires hi <= |p| && Within(p, i, lo, hi, budget) && budget <= m && budget <= n
    ensures ReadName(p, i, m) == ReadName(p, i, n)
    decreases budget, hi - i
  {
    if p[i] == 0 {
    } else if IsPointer(p[i]) {
      BudgetIrrelevant(p, Target(p, i), lo, hi, budget - 1, m - 1, n - 1);
    } else {
      BudgetIrrelevant(p, i + 1 + p[i], lo, hi, budget, m, n);
    }
  }

  // ----- the built response

  /** The questions whose names can be read from the question section alone, leaving one
      pointer of the budget for the answer that refers to them. */
  ghost predicate SelfContained(p: seq<byte>, questions: seq<Question>, hi: nat)
    requires hi <= |p|
  {
    forall q {:trigger Contained(p, q, hi)} :: q in questions ==> Contained(p, q, hi)
  }

  predicate Contained(p: seq<byte>, q: Question, hi: nat)
    requires hi <= |p|
  {
    Within(p, q.offset, 12, hi, MAX_JUMPS - 1)
  }

  lemma {:induction false} FoundName(p: seq<byte>, q: Question)
    requires QuestionAt(p, q.offset) == Some(q)
    ensures ReadName(p, q.offset, MAX_JUMPS) == Labels(q.labels)
  {
  }

  lemma {:induction false} ChainMoves(at: Finder, p: seq<byte>, at': Finder, idx: nat, questions: seq<Question>)
    requires Shaped(at, p) && Chain(at, idx, questions)
    requires forall k :: 0 <= k < |questions| ==> at'(questions[k].offset) == Some(questions[k])
    ensures Chain(at', idx, questions)
    decreases |questions|
  {
    if questions != [] {
      var rest := questions[1..];
      assert Stands(p, idx, at(idx).value);
      forall k | 0 <= k < |rest| ensures at'(rest[k].offset) == Some(rest[k]) { assert rest[k] == questions[k + 1]; }
      ChainMoves(at, p, at', idx + |questions[0].wire|, rest);
    }
  }

  /** A message with the same question section parses to the same questions. */
  lemma {:induction false} Reparse(p: seq<byte>, p': seq<byte>, idx: nat, n: nat, questions: seq<Question>, hi: nat)
    requires SameBytes(p, p', 12, hi) && 12 <= idx && idx + |Wire(questions)| <= hi
    requires questions == QuestionsFrom(p, idx, n) && SelfContained(p, questions, hi)
    ensures QuestionsFrom(p', idx, |questions|) == questions
  {
    FinderShaped(p);
    ListChain(FinderOf(p), idx, n);
    ReparseChain(p, p', FinderOf(p), FinderOf(p'), idx, questions, hi);
  }

  lemma {:induction false} ReparseChain(p: seq<byte>, p': seq<byte>, at: Finder, at': Finder, idx: nat,
                                        questions: seq<Question>, hi: nat)
    requires SameBytes(p, p', 12, hi) && 12 <= idx && idx + |Wire(questions)| <= hi
    requires Finds(at, p) && Shaped(at, p) && Finds(at', p') &&
             Chain(at, idx, questions) && SelfContained(p, questions, hi)
    ensures List(at', idx, |questions|) == questions
  {
    forall k | 0 <= k < |questions| ensures at'(questions[k].offset) == Some(questions[k]) {
      var q := questions[k];
      ChainEntry(at, p, idx, questions, k);
      assert Contained(p, q, hi);
      SameQuestion(p, p', q.offset, q, hi);
    }
    ChainMoves(at, p, at', idx, questions);
    ChainList(at', idx, questions);
  }

  lemma {:induction false} SameQuestion(p: seq<byte>, p': seq<byte>, idx: nat, q: Question, hi: nat)
    requires SameBytes(p, p', 12, hi) && 12 <= idx && idx + |q.wire| <= hi
    requires QuestionAt(p, idx) == Some(q) && Contained(p, q, hi)
    ensures QuestionAt(p', idx) == Some(q)
  {
    QuestionShape(p, idx);
    WithinTransfers(p, p', idx, 12, hi, MAX_JUMPS - 1, MAX_JUMPS);
    SameSlice(p, p', 12, hi, idx, idx + |q.wire|);
    QuestionIs(p', idx, q);
  }

  lemma {:induction false} SliceBehind(a: seq<byte>, b: seq<byte>, i: nat, j: nat)
    requires i <= j <= |b|
    ensures (a + b)[|a| + i..|a| + j] == b[i..j]
  {
    assert forall k :: i <= k < j ==> (a + b)[|a| + k] == b[k];
  }

  lemma {:induction false} AnswerAt(questions: seq<Question>, ip: Ipv4, k: nat)
    requires (forall q :: q in questions ==> q.offset < 0x10000) && k < |questions|
    ensures Answers(questions, ip)[16 * k..16 * k + 16] == Answer(questions[k], ip)
  {
    var first, rest := Answer(questions[0], ip), Answers(questions[1..], ip);
    if k == 0 {
      assert (first + rest)[0..16] == first;
    } else {
      AnswerAt(questions[1..], ip, k - 1);
      var at := 16 * (k - 1);
      SliceBehind(first, rest, at, at + 16);
      assert 16 * k == 16 + at;
    }
  }

  lemma {:induction false} HeaderBytes(data: seq<byte>, id: seq<byte>, n: nat)
    requires |id| == 2 && n < 0x10000 && id + [0x81, 0x80] + Bytes16(n) + Bytes16(n) + [0, 0, 0, 0] <= data
    ensures AnswerHeader(data, id, n)
  {
    var b := Bytes16(n);
    assert data[4] == b[0] && data[5] == b[1] && data[6] == b[0] && data[7] == b[1];
  }

  /** The three parts of a response with questions. */
  lemma {:induction false} Layout(query: seq<byte>, ip: Ipv4, banner: seq<byte>)
    requires var qs := Questions(query); qs != [] && forall q :: q in qs ==> q.offset < 0x10000
    ensures var r, qs := BuildResponse(query, ip, banner), Questions(query);
      && r.Response? && r.questions == qs
      && |r.data| == 12 + |Wire(qs)| + 16 * |qs| && 12 + |Wire(qs)| <= |query|
      && SameBytes(query, r.data, 12, 12 + |Wire(qs)|)
      && AnswerHeader(r.data, query[..2], |qs|)
      && AddressRecords(r.data, 12 + |Wire(qs)|, |qs|, ip)
      && r.data[12 + |Wire(qs)|..] == Answers(qs, ip)
  {
    var r, qs := BuildResponse(query, ip, banner), Questions(query);
    QuestionCount(FinderOf(query), 12, U16(query, 4));
    WireIsSlice(query, 12, U16(query, 4), qs);
    var n := Bytes16(|qs|);
    var header := query[..2] + [0x81, 0x80] + n + n + [0, 0, 0, 0];
    var end := 12 + |Wire(qs)|;
    ThreeParts(r.data, header, Wire(qs), Answers(qs, ip));
    HeaderBytes(r.data, query[..2], |qs|);
    AnswersCarryAddress(r.data, end, qs, ip);
    SliceIsSame(query, r.data, 12, end);
  }

  lemma {:induction false} ThreeParts(data: seq<byte>, a: seq<byte>, b: seq<byte>, c: seq<byte>)
    requires data == a + b + c
    ensures a <= data && data[|a|..|a| + |b|] == b && data[|a| + |b|..] == c
  {
  }

  lemma {:induction false} SliceIsSame(p: seq<byte>, q: seq<byte>, lo: nat, hi: nat)
    requires lo <= hi <= |p| && hi <= |q| && p[lo..hi] == q[lo..hi]
    ensures SameBytes(p, q, lo, hi)
  {
    forall k | lo <= k < hi ensures p[k] == q[k] { assert p[k] == p[lo..hi][k - lo] == q[lo..hi][k - lo] == q[k]; }
  }

  /** The header of an answer without an error: both counts, and nothing in the other two sections. */
  ghost predicate AnswerHeader(data: seq<byte>, id: seq<byte>, n: nat) {
    && 12 <= |data| && data[..2] == id && data[2..4] == [0x81, 0x80]
    && U16(data, 4) == n && U16(data, 6) == n && data[8..12] == [0, 0, 0, 0]
  }

  /** From byte 2 of the record at `pos` on: type A, class IN, 60 seconds to live, and the four bytes of `ip`. */
  ghost predicate AddressRecord(data: seq<byte>, pos: nat, ip: Ipv4) {
    && pos + 16 <= |data| && U16(data, pos + 2) == 1 && U16(data, pos + 4) == 1
    && data[pos + 6..pos + 10] == [0, 0, 0, 60]
    && U16(data, pos + 10) == 4 && data[pos + 12..pos + 16] == ip
  }

  ghost predicate AddressRecords(data: seq<byte>, end: nat, n: nat, ip: Ipv4) {
    forall k {:trigger AddressRecord(data, end + 16 * k, ip)} :: 0 <= k < n ==> AddressRecord(data, end + 16 * k, ip)
  }

  /** Every answer carries the configured address. */
  lemma {:induction false} AnswersCarryAddress(data: seq<byte>, end: nat, questions: seq<Question>, ip: Ipv4)
    requires forall q :: q in questions ==> q.offset < 0x10000
    requires end <= |data| && data[end..] == Answers(questions, ip)
    ensures AddressRecords(data, end, |questions|, ip)
  {
    forall k | 0 <= k < |questions| ensures AddressRecord(data, end + 16 * k, ip) {
      var pos := end + 16 * k;
      AnswerAt(questions, ip, k);
      SliceOfTail(data, end, 16 * k, 16 * k + 16);
      RecordBytes(data, pos, questions[k], ip);
    }
  }

  lemma {:induction false} SliceOfTail(data: seq<byte>, end: nat, a: nat, b: nat)
    requires a <= b && end + b <= |data|
    ensures data[end..][a..b] == data[end + a..end + b]
  {
    assert forall i :: a <= i < b ==> data[end..][i] == data[end + i];
  }

  lemma {:induction false} RecordBytes(data: seq<byte>, pos: nat, q: Question, ip: Ipv4)
    requires q.offset < 0x10000 && pos + 16 <= |data| && data[pos..pos + 16] == Answer(q, ip)
    ensures AddressRecord(data, pos, ip)
  {
    var r := data[pos..pos + 16];
    var parts := Pointer(q.offset) + [0, 1, 0, 1];
    assert r == parts + TTL + [0, 4] + ip;
    assert r[2..6] == [0, 1, 0, 1] && r[6..10] == TTL && r[10..12] == [0, 4] && r[12..16] == ip;
    assert forall i :: 0 <= i < 16 ==> data[pos + i] == r[i];
    assert data[pos + 2] == r[2] && data[pos + 3] == r[3] && data[pos + 4] == r[4] && data[pos + 5] == r[5];
    assert data[pos + 6..pos + 10] == r[6..10] && data[pos + 12..pos + 16] == r[12..16];
    assert data[pos + 10] == r[10] && data[pos + 11] == r[11];
  }

  /** A query shorter than a header gets the banner; one without a question that can be read gets a
      bare header that reports a server failure; and one whose questions reach past the two bytes of
      a pointer gets no response. */
  lemma {:induction false} OtherResponses(query: seq<byte>, ip: Ipv4, banner: seq<byte>)
    ensures var r, qs := BuildResponse(query, ip, banner), Questions(query);
      && (|query| < 12 ==> r == Response(banner, []))
      && (|query| >= 12 && (U16(query, 4) == 0 || QuestionAt(query, 12).None?) ==>
            r.Response? && r.questions == [] && |r.data| == 12 && r.data[..2] == query[..2]
            && r.data[2..4] == [0x81, 0x82] && forall i :: 4 <= i < 12 ==> r.data[i] == 0)
      && (r.OffsetOverflow? <==> |query| >= 12 && exists q :: q in qs && q.offset >= 0x10000)
  {
    if |query| >= 12 && (U16(query, 4) == 0 || QuestionAt(query, 12).None?) {
      assert Questions(query) == [];
    }
  }

  /** The answers stand 16 bytes apart from `end` on, and each is owned by its question's name. */
  ghost predicate OwnerNames(data: seq<byte>, end: nat, questions: seq<Question>) {
    forall k :: 0 <= k < |questions| ==> ReadName(data, end + 16 * k, MAX_JUMPS) == Labels(questions[k].labels)
  }

  /** Parsing the built response gives back the same question list, byte for byte, and every
      answer's compression pointer decodes to the name of its own question. */
  lemma {:induction false} ResponseRoundTrip(query: seq<byte>, ip: Ipv4, banner: seq<byte>)
    requires var qs := Questions(query);
      && qs != [] && (forall q :: q in qs ==> q.offset < 0x4000)
      && 12 + |Wire(qs)| <= |query| && SelfContained(query, qs, 12 + |Wire(qs)|)
    ensures var r, qs := BuildResponse(query, ip, banner), Questions(query);
      && r.Response? && |r.data| == 12 + |Wire(qs)| + 16 * |qs|
      && Questions(r.data) == qs
      && OwnerNames(r.data, 12 + |Wire(qs)|, qs)
  {
    Layout(query, ip, banner);
    var data, qs := BuildResponse(query, ip, banner).data, Questions(query);
    QuestionsComeBack(query, data, qs, 12 + |Wire(qs)|);
    OwnersComeBack(query, data, qs, 12 + |Wire(qs)|, ip);
  }

  lemma {:induction false} QuestionsComeBack(query: seq<byte>, data: seq<byte>, qs: seq<Question>, end: nat)
    requires 12 <= |query| && qs == Questions(query) && end == 12 + |Wire(qs)|
    requires SameBytes(query, data, 12, end) && SelfContained(query, qs, end)
    requires 12 <= |data| && U16(data, 4) == |qs|
    ensures Questions(data) == qs
  {
    Reparse(query, data, 12, U16(query, 4), qs, end);
  }

  lemma {:induction false} OwnersComeBack(query: seq<byte>, data: seq<byte>, qs: seq<Question>, end: nat, ip: Ipv4)
    requires 12 <= |query| && qs == Questions(query) && forall q :: q in qs ==> q.offset < 0x4000
    requires SameBytes(query, data, 12, end) && data[end..] == Answers(qs, ip)
    requires SelfContained(query, qs, end)
    ensures OwnerNames(data, end, qs)
  {
    FinderShaped(query);
    ListChain(FinderOf(query), 12, U16(query, 4));
    forall k | 0 <= k < |qs| ensures ReadName(data, end + 16 * k, MAX_JUMPS) == Labels(qs[k].labels) {
      ChainEntry(FinderOf(query), query, 12, qs, k);
      FoundName(query, qs[k]);
      AnswerNamesQuestion(query, data, end, qs, ip, k);
    }
  }

  /** The `k`-th answer begins with a pointer, and it leads to the `k`-th question exactly below 0x4000. */
  lemma {:induction false} AnswerPointer(data: seq<byte>, end: nat, questions: seq<Question>, ip: Ipv4, k: nat)
    requires (forall q :: q in questions ==> q.offset < 0x10000) && k < |questions|
    requires end <= |data| && data[end..] == Answers(questions, ip)
    ensures var pos := end + 16 * k;
      && pos + 16 <= |data| && IsPointer(data[pos])
      && (Target(data, pos) == questions[k].offset <==> questions[k].offset < 0x4000)
  {
    var q, pos := questions[k], end + 16 * k;
    AnswerAt(questions, ip, k);
    PointerReach(q.offset);
    assert data[pos] == data[end..][16 * k..16 * k + 16][0] == Pointer(q.offset)[0];
    assert data[pos + 1] == data[end..][16 * k..16 * k + 16][1] == Pointer(q.offset)[1];
  }

  lemma {:induction false} AnswerNamesQuestion(query: seq<byte>, data: seq<byte>, end: nat,
                                               questions: seq<Question>, ip: Ipv4, k: nat)
    requires (forall q :: q in questions ==> q.offset < 0x4000) && k < |questions|
    requires SameBytes(query, data, 12, end) && data[end..] == Answers(questions, ip)
    requires SelfContained(query, questions, end)
    requires ReadName(query, questions[k].offset, MAX_JUMPS) == Labels(questions[k].labels)
    ensures ReadName(data, end + 16 * k, MAX_JUMPS) == Labels(questions[k].labels)
  {
    AnswerPointer(data, end, questions, ip, k);
    assert Contained(query, questions[k], end);
    PointedName(query, data, end + 16 * k, questions[k], end);
  }

  lemma {:induction false} PointedName(query: seq<byte>, data: seq<byte>, pos: nat, q: Question, end: nat)
    requires SameBytes(query, data, 12, end) && Within(query, q.offset, 12, end, MAX_JUMPS - 1)
    requires ReadName(query, q.offset, MAX_JUMPS) == Labels(q.labels)
    requires pos + 1 < |data| && IsPointer(data[pos]) && Target(data, pos) == q.offset
    ensures ReadName(data, pos, MAX_JUMPS) == Labels(q.labels)
  {
    WithinTransfers(query, data, q.offset, 12, end, MAX_JUMPS - 1, MAX_JUMPS - 1);
    BudgetIrrelevant(query, q.offset, 12, end, MAX_JUMPS - 1, MAX_JUMPS - 1, MAX_JUMPS);
  }

  /** An answer's pointer leads to its own question exactly when that lies below 0x4000. */
  lemma {:induction false} PointerReach(offset: nat)
    requires offset < 0x10000
    ensures Target(Pointer(offset), 0) == offset <==> offset < 0x4000
  {
  }

  // ----- well-formed queries

  predicate ValidLabel(l: Label) { 1 <= |l| <= 63 }

  function LengthByte(l: Label): byte
    requires ValidLabel(l)
  {
    |l|
  }

  function EncodeName(labels: seq<Label>): (b: seq<byte>)
    requires forall l :: l in labels ==> ValidLabel(l)
    ensures |b| > 0
  {
    if labels == [] then [0] else [LengthByte(labels[0])] + labels[0] + EncodeName(labels[1..])
  }

  datatype Asked = Asked(labels: seq<Label>, qtype: nat, qclass: nat) {
    predicate Valid() { (forall l :: l in labels ==> ValidLabel(l)) && qtype < 0x10000 && qclass < 0x10000 }
    function Encode(): seq<byte>
      requires Valid()
    {
      EncodeName(labels) + Bytes16(qtype) + Bytes16(qclass)
    }
  }

  function EncodeAll(asked: seq<Asked>): seq<byte>
    requires forall a :: a in asked ==> a.Valid()
  {
    if asked == [] then [] else asked[0].Encode() + EncodeAll(asked[1..])
  }

  predicate StartsAt(p: seq<byte>, i: nat, b: seq<byte>) {
    i + |b| <= |p| && forall k :: 0 <= k < |b| ==> p[i + k] == b[k]
  }

  lemma {:induction false} FirstByte(p: seq<byte>, i: nat, b: seq<byte>)
    requires StartsAt(p, i, b) && b != []
    ensures p[i] == b[0]
  {
    assert p[i + 0] == b[0];
  }

  lemma {:induction false} StartsSplit(p: seq<byte>, i: nat, a: seq<byte>, b: seq<byte>)
    requires StartsAt(p, i, a + b)
    ensures StartsAt(p, i, a) && StartsAt(p, i + |a|, b)
  {
    forall k | 0 <= k < |a| ensures p[i + k] == a[k] { assert (a + b)[k] == a[k]; }
    forall k | 0 <= k < |b| ensures p[i + |a| + k] == b[k] { assert p[i + (|a| + k)] == (a + b)[|a| + k]; }
  }

  /** An encoded name reads back wherever it stands, without pointers. */
  lemma {:induction false} EncodedNameReads(p: seq<byte>, i: nat, labels: seq<Label>, lo: nat, hi: nat)
    requires (forall l :: l in labels ==> ValidLabel(l)) && StartsAt(p, i, EncodeName(labels))
    requires lo <= i && i + |EncodeName(labels)| <= hi <= |p|
    ensures ReadName(p, i, MAX_JUMPS) == Labels(labels) && NameEnd(p, i) == i + |EncodeName(labels)|
    ensures Within(p, i, lo, hi, 0)
    decreases |labels|
  {
    if labels == [] {
      FirstByte(p, i, EncodeName(labels));
    } else {
      var l, rest := labels[0], labels[1..];
      StartsSplit(p, i, [LengthByte(l)] + l, EncodeName(rest));
      StartsSplit(p, i, [LengthByte(l)], l);
      FirstByte(p, i, [LengthByte(l)]);
      EncodedNameReads(p, i + 1 + |l|, rest, lo, hi);
      assert p[i + 1..i + 1 + |l|] == l;
      assert labels == [l] + rest;
    }
  }

  /** A question as written parses back: same name, type and class, and its name is pointer-free. */
  lemma {:induction false} EncodedQuestionParses(p: seq<byte>, i: nat, a: Asked, hi: nat)
    requires a.Valid() && StartsAt(p, i, a.Encode()) && 12 <= i && i + |a.Encode()| <= hi <= |p|
    ensures QuestionAt(p, i).Some?
    ensures var q := QuestionAt(p, i).value;
      && q.labels == a.labels && q.qtype == a.qtype && q.qclass == a.qclass
      && q.offset == i && |q.wire| == |a.Encode()| && Contained(p, q, hi)
  {
    var name, ty, cl := EncodeName(a.labels), Bytes16(a.qtype), Bytes16(a.qclass);
    StartsSplit(p, i, name + ty, cl);
    StartsSplit(p, i, name, ty);
    EncodedNameReads(p, i, a.labels, 12, hi);
    assert U16(p, i + |name|) == a.qtype by {
      assert p[i + |name| + 0] == ty[0] && p[i + |name| + 1] == ty[1];
    }
    assert U16(p, i + |name| + 2) == a.qclass by {
      assert p[i + |name + ty| + 0] == cl[0] && p[i + |name + ty| + 1] == cl[1];
    }
    MoreBudget(p, i, 12, hi, 0, MAX_JUMPS - 1);
  }

  /** The questions were asked, in order. */
  ghost predicate Asks(questions: seq<Question>, asked: seq<Asked>) {
    && |questions| == |asked|
    && forall k :: 0 <= k < |asked| ==>
         questions[k].labels == asked[k].labels && questions[k].qtype == asked[k].qtype &&
         questions[k].qclass == asked[k].qclass
  }

  /** `questions` are what `asked` encodes to, with self-contained names. */
  ghost predicate Parsed(p: seq<byte>, questions: seq<Question>, asked: seq<Asked>, hi: nat)
    requires hi <= |p| && forall a :: a in asked ==> a.Valid()
  {
    Asks(questions, asked) && Sized(questions, asked) && |Wire(questions)| == |EncodeAll(asked)|
    && SelfContained(p, questions, hi)
  }

  ghost predicate Sized(questions: seq<Question>, asked: seq<Asked>)
    requires |questions| == |asked| && forall a :: a in asked ==> a.Valid()
  {
    forall k :: 0 <= k < |asked| ==> |questions[k].wire| == |asked[k].Encode()|
  }

  lemma {:induction false} JoinParsed(p: seq<byte>, q: Question, tail: seq<Question>, a: Asked, rest: seq<Asked>,
                                      hi: nat)
    requires hi <= |p| && a.Valid() && (forall x :: x in rest ==> x.Valid()) && Parsed(p, tail, rest, hi)
    requires q.labels == a.labels && q.qtype == a.qtype && q.qclass == a.qclass
    requires |q.wire| == |a.Encode()| && Contained(p, q, hi)
    ensures Parsed(p, [q] + tail, [a] + rest, hi)
  {
    WireCons(q, tail);
    assert ([a] + rest)[1..] == rest;
    forall x | x in [q] + tail ensures Contained(p, x, hi) { }
  }

  lemma {:induction false} ListCons(at: Finder, idx: nat, q: Question, rest: seq<Question>)
    requires at(idx) == Some(q) && List(at, idx + |q.wire|, |rest|) == rest
    ensures List(at, idx, |rest| + 1) == [q] + rest
  {
  }

  lemma {:induction false} ParsedCons(p: seq<byte>, i: nat, a: Asked, rest: seq<Asked>, hi: nat)
    requires a.Valid() && (forall x :: x in rest ==> x.Valid())
    requires StartsAt(p, i, a.Encode()) && 12 <= i && i + |a.Encode()| <= hi <= |p|
    requires Parsed(p, QuestionsFrom(p, i + |a.Encode()|, |rest|), rest, hi)
    ensures Parsed(p, QuestionsFrom(p, i, |[a] + rest|), [a] + rest, hi)
  {
    EncodedQuestionParses(p, i, a, hi);
    var q, tail := QuestionAt(p, i).value, QuestionsFrom(p, i + |a.Encode()|, |rest|);
    JoinParsed(p, q, tail, a, rest, hi);
    ListCons(FinderOf(p), i, q, tail);
  }

  lemma {:induction false} EncodedQuestionsParse(p: seq<byte>, i: nat, asked: seq<Asked>, hi: nat)
    requires (forall a :: a in asked ==> a.Valid()) && StartsAt(p, i, EncodeAll(asked))
    requires 12 <= i && i + |EncodeAll(asked)| <= hi <= |p|
    ensures Parsed(p, QuestionsFrom(p, i, |asked|), asked, hi)
    decreases |asked|
  {
    if asked != [] {
      var a, rest := asked[0], asked[1..];
      assert a in asked && asked == [a] + rest;
      StartsSplit(p, i, a.Encode(), EncodeAll(rest));
      EncodedQuestionsParse(p, i + |a.Encode()|, rest, hi);
      ParsedCons(p, i, a, rest, hi);
    }
  }

  /** A well-formed query: a header that counts the questions, then the questions. */
  function EncodeQuery(id: seq<byte>, asked: seq<Asked>): seq<byte>
    requires |id| == 2 && |asked| < 0x10000 && forall a :: a in asked ==> a.Valid()
  {
    id + [1, 0] + Bytes16(|asked|) + [0, 0, 0, 0, 0, 0] + EncodeAll(asked)
  }

  /** The offset of the last question of a well-formed query. */
  function LastOffset(asked: seq<Asked>): int
    requires asked != [] && forall a :: a in asked ==> a.Valid()
  {
    12 + |EncodeAll(asked)| - |asked[|asked| - 1].Encode()|
  }

  /** A response to `asked`: the header, the questions, then 16 bytes per answer from `end` on, each
      owned by the name asked and carrying the address `ip`. */
  ghost predicate Answered(r: Response, end: nat, id: seq<byte>, asked: seq<Asked>, ip: Ipv4) {
    && r.Response? && |r.data| == end + 16 * |asked| && AnswerHeader(r.data, id, |asked|)
    && Asks(Questions(r.data), asked) && OwnerNames(r.data, end, Questions(r.data))
    && AddressRecords(r.data, end, |asked|, ip)
  }

  /** For every well-formed query whose last question starts below 0x4000, the response carries the
      questions asked, its length is 12 plus the question bytes plus 16 per answer, and each
      answer's owner name is the name asked. */
  lemma {:induction false} EncodedQueryIsAnswered(id: seq<byte>, asked: seq<Asked>, ip: Ipv4, banner: seq<byte>)
    requires |id| == 2 && 1 <= |asked| < 0x10000 && forall a :: a in asked ==> a.Valid()
    requires LastOffset(asked) < 0x4000
    ensures var query := EncodeQuery(id, asked);
      |query| == 12 + |EncodeAll(asked)| && Answered(BuildResponse(query, ip, banner), |query|, id, asked, ip)
  {
    EncodedQueryParses(id, asked);
    QueryIsAnswered(EncodeQuery(id, asked), id, asked, ip, banner);
  }

  lemma {:induction false} OffsetsBelow(query: seq<byte>, asked: seq<Asked>)
    requires 12 <= |query| && asked != [] && (forall a :: a in asked ==> a.Valid()) && LastOffset(asked) < 0x4000
    requires Parsed(query, Questions(query), asked, |query|)
    ensures forall q :: q in Questions(query) ==> q.offset < 0x4000
  {
    var qs := Questions(query);
    FinderShaped(query);
    ListChain(FinderOf(query), 12, U16(query, 4));
    assert |qs[|qs| - 1].wire| == |asked[|asked| - 1].Encode()|;
    forall q | q in qs ensures q.offset < 0x4000 {
      var k :| 0 <= k < |qs| && qs[k] == q;
      ChainEntry(FinderOf(query), query, 12, qs, k);
    }
  }

  lemma {:induction false} QueryIsAnswered(query: seq<byte>, id: seq<byte>, asked: seq<Asked>, ip: Ipv4,
                                           banner: seq<byte>)
    requires asked != [] && (forall a :: a in asked ==> a.Valid()) && 12 <= |query| && LastOffset(asked) < 0x4000
    requires Parsed(query, Questions(query), asked, |query|) && |query| == 12 + |EncodeAll(asked)|
    requires query[..2] == id
    ensures Answered(BuildResponse(query, ip, banner), |query|, id, asked, ip)
  {
    var qs := Questions(query);
    OffsetsBelow(query, asked);
    ResponseIsWhole(query, qs, ip, banner);
    AnsweredBy(BuildResponse(query, ip, banner), |query|, id, qs, asked, ip);
  }

  /** The response to a query with questions `qs`, whose section ends at `end`. */
  ghost predicate Whole(r: Response, end: nat, id: seq<byte>, qs: seq<Question>, ip: Ipv4) {
    && r.Response? && |r.data| == end + 16 * |qs| && AnswerHeader(r.data, id, |qs|)
    && AddressRecords(r.data, end, |qs|, ip) && Questions(r.data) == qs && OwnerNames(r.data, end, qs)
  }

  lemma {:induction false} ResponseIsWhole(query: seq<byte>, qs: seq<Question>, ip: Ipv4, banner: seq<byte>)
    requires qs == Questions(query) && qs != [] && forall q :: q in qs ==> q.offset < 0x4000
    requires 12 + |Wire(qs)| <= |query| && SelfContained(query, qs, 12 + |Wire(qs)|)
    ensures Whole(BuildResponse(query, ip, banner), 12 + |Wire(qs)|, query[..2], qs, ip)
  {
    Layout(query, ip, banner);
    ResponseRoundTrip(query, ip, banner);
  }

  lemma {:induction false} AnsweredBy(r: Response, end: nat, id: seq<byte>, qs: seq<Question>, asked: seq<Asked>,
                                      ip: Ipv4)
    requires Whole(r, end, id, qs, ip) && Asks(qs, asked)
    ensures Answered(r, end, id, asked, ip)
  {
  }

  lemma {:induction false} EncodedQueryParses(id: seq<byte>, asked: seq<Asked>)
    requires |id| == 2 && |asked| < 0x10000 && forall a :: a in asked ==> a.Valid()
    ensures var query := EncodeQuery(id, asked);
      |query| == 12 + |EncodeAll(asked)| && query[..2] == id && Parsed(query, Questions(query), asked, |query|)
  {
    var query, body := EncodeQuery(id, asked), EncodeAll(asked);
    var n := Bytes16(|asked|);
    assert query[4] == n[0] && query[5] == n[1];
    assert query[12..] == body;
    assert StartsAt(query, 12, body);
    EncodedQuestionsParse(query, 12, asked, |query|);
  }
}
