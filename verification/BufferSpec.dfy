/**
 The simple form of Buffer: the readable bytes, the room in front of them and the room
 behind them. Every operation of the class in Buffer.dfy is proved to compute one of the
 functions below; the lemmas say what any sequence of operations does to the bytes.
 */
module BufferSpec {
  import opened Bytes

  const CHEAP_PREPEND: nat := 8
  const INITIAL_SIZE: nat := 1024
  const EXTRA_BUFFER: nat := 65536

  /** `room` is prependableBytes(), `tail` is writableBytes(). */
  datatype Shape = Shape(view: seq<byte>, room: nat, tail: nat) {
    function Total(): nat { room + |view| + tail }

    predicate Valid() { Total() >= CHEAP_PREPEND }
  }

  function Fresh(initialSize: nat): Shape
  {
    Shape([], CHEAP_PREPEND, initialSize)
  }

  /** ensureWritableBytes with makeSpace: grow the vector, or slide the bytes down to offset 8. */
  function EnsureWritable(b: Shape, len: nat): Shape
  {
    if b.tail >= len then b
    else if b.tail + b.room < len + CHEAP_PREPEND then b.(tail := len)
    else Shape(b.view, CHEAP_PREPEND, b.tail + b.room - CHEAP_PREPEND)
  }

  function Append(b: Shape, data: seq<byte>): Shape
    requires b.Valid()
  {
    EnsureWritableFacts(b, |data|);
    var e := EnsureWritable(b, |data|);
    Shape(e.view + data, e.room, e.tail - |data|)
  }

  function Prepend(b: Shape, data: seq<byte>): Shape
    requires |data| <= b.room
  {
    Shape(data + b.view, b.room - |data|, b.tail)
  }

  function Retrieve(b: Shape, n: nat): Shape
    requires b.Valid() && n <= |b.view|
  {
    if n < |b.view| then Shape(b.view[n..], b.room + n, b.tail)
    else RetrieveAll(b)
  }

  function RetrieveAll(b: Shape): Shape
    requires b.Valid()
  {
    Shape([], CHEAP_PREPEND, b.Total() - CHEAP_PREPEND)
  }

  /** readFd: the first bytes land in the writable tail, what does not fit is appended. */
  function ReadFd(b: Shape, data: seq<byte>): Shape
    requires b.Valid()
  {
    if |data| <= b.tail then Shape(b.view + data, b.room, b.tail - |data|)
    else Append(Shape(b.view + data[..b.tail], b.room, 0), data[b.tail..])
  }

  /** The most one readv can deliver: the tail, plus the side buffer when the tail is short. */
  function ReadLimit(b: Shape): nat
  {
    if b.tail < EXTRA_BUFFER then b.tail + EXTRA_BUFFER else b.tail
  }

  /**
   The sliding branch is only taken when the reader stands strictly above offset 8, which is
   what makeSpace asserts, and either branch leaves the requested room and the same bytes.
   */
  lemma EnsureWritableFacts(b: Shape, len: nat)
    requires b.Valid()
    ensures EnsureWritable(b, len).view == b.view
    ensures EnsureWritable(b, len).tail >= len
    ensures EnsureWritable(b, len).Total() >= b.Total()
    ensures b.tail < len && !(b.tail + b.room < len + 8) ==> 8 < b.room
  {
  }

  /** The vector only grows when it must, and then to less than the bytes held plus twice the request. */
  lemma AppendGrowth(b: Shape, data: seq<byte>)
    requires b.Valid()
    ensures Append(b, data).Total() > b.Total() ==>
              b.tail + b.room < |data| + 8
              && Append(b, data).Total() < |b.view| + 2 * |data| + 8
              && Append(b, data).tail == 0
    ensures Append(b, data).room != b.room ==> b.tail < |data| && b.room > 8 && Append(b, data).room == 8
  {
  }

  /** The sizes: 8 bytes in front, 1024 behind by default, 65536 in the side buffer of a read. */
  lemma SizesExact(b: Shape)
    requires b.Valid()
    ensures Fresh(INITIAL_SIZE) == Shape([], 8, 1024)
    ensures RetrieveAll(b).room == 8 && RetrieveAll(b).Total() == b.Total()
    ensures ReadLimit(b) == b.tail + (if b.tail < 65536 then 65536 else 0)
  {
  }

  datatype Op =
    | DoAppend(data: seq<byte>)
    | DoPrepend(data: seq<byte>)
    | DoRetrieve(n: nat)
    | DoRetrieveAll
    | DoReserve(n: nat)
    | DoReadFd(data: seq<byte>)

  /** The assert each operation starts with. */
  predicate Allowed(b: Shape, op: Op)
  {
    match op
    case DoPrepend(data) => |data| <= b.room
    case DoRetrieve(n) => n <= |b.view|
    case DoReadFd(data) => |data| <= ReadLimit(b)
    case _ => true
  }

  function Apply(b: Shape, op: Op): Shape
    requires b.Valid() && Allowed(b, op)
  {
    match op
    case DoAppend(data) => Append(b, data)
    case DoPrepend(data) => Prepend(b, data)
    case DoRetrieve(n) => Retrieve(b, n)
    case DoRetrieveAll => RetrieveAll(b)
    case DoReserve(n) => EnsureWritable(b, n)
    case DoReadFd(data) => ReadFd(b, data)
  }

  /** What an operation means for the byte sequence alone. */
  function Meaning(view: seq<byte>, op: Op): seq<byte>
  {
    match op
    case DoAppend(data) => view + data
    case DoPrepend(data) => data + view
    case DoRetrieve(n) => if n <= |view| then view[n..] else []
    case DoRetrieveAll => []
    case DoReserve(n) => view
    case DoReadFd(data) => view + data
  }

  function MeaningOfAll(view: seq<byte>, ops: seq<Op>): seq<byte>
    decreases |ops|
  {
    if ops == [] then view else MeaningOfAll(Meaning(view, ops[0]), ops[1..])
  }

  /** Runs operations until the first one whose assert does not hold. */
  function Run(b: Shape, ops: seq<Op>): (r: (Shape, nat))
    requires b.Valid()
    ensures r.0.Valid() && r.1 <= |ops|
    decreases |ops|
  {
    if ops == [] || !Allowed(b, ops[0]) then (b, 0)
    else
      ApplyFacts(b, ops[0]);
      var (after, count) := Run(Apply(b, ops[0]), ops[1..]);
      (after, count + 1)
  }

  lemma ApplyFacts(b: Shape, op: Op)
    requires b.Valid() && Allowed(b, op)
    ensures Apply(b, op).Valid()
    ensures Apply(b, op).Total() >= b.Total()
    ensures Apply(b, op).view == Meaning(b.view, op)
  {
    match op
    case DoReadFd(data) =>
      if |data| > b.tail {
        assert b.view + data[..b.tail] + data[b.tail..] == b.view + data;
      }
    case _ =>
  }

  /**
   Under any sequence of operations the readable bytes are what the sequence model says,
   wherever prepends, slides and growth have put the reader, and the vector never shrinks.
   */
  lemma {:induction false} RunRefinesSequence(b: Shape, ops: seq<Op>)
    requires b.Valid()
    ensures var (after, count) := Run(b, ops);
            && after.view == MeaningOfAll(b.view, ops[..count])
            && after.Total() >= b.Total()
            && (count < |ops| ==> !Allowed(after, ops[count]))
    decreases |ops|
  {
    var (after, count) := Run(b, ops);
    if ops == [] || !Allowed(b, ops[0]) {
    } else {
      ApplyFacts(b, ops[0]);
      RunRefinesSequence(Apply(b, ops[0]), ops[1..]);
      assert ops[..count][1..] == ops[1..][..count - 1];
    }
  }

  // ---- two buffers and swap ----

  datatype Pair = Pair(first: Shape, second: Shape) {
    predicate Valid() { first.Valid() && second.Valid() }
  }

  datatype PairOp = OnFirst(op: Op) | OnSecond(op: Op) | SwapBoth

  predicate PairAllowed(p: Pair, o: PairOp)
  {
    match o
    case OnFirst(op) => Allowed(p.first, op)
    case OnSecond(op) => Allowed(p.second, op)
    case SwapBoth => true
  }

  function PairApply(p: Pair, o: PairOp): Pair
    requires p.Valid() && PairAllowed(p, o)
  {
    match o
    case OnFirst(op) => p.(first := Apply(p.first, op))
    case OnSecond(op) => p.(second := Apply(p.second, op))
    case SwapBoth => Pair(p.second, p.first)
  }

  /** What the operations mean for two byte sequences. */
  function PairMeaning(views: (seq<byte>, seq<byte>), ops: seq<PairOp>): (seq<byte>, seq<byte>)
    decreases |ops|
  {
    if ops == [] then views
    else
      var next := match ops[0]
                  case OnFirst(op) => (Meaning(views.0, op), views.1)
                  case OnSecond(op) => (views.0, Meaning(views.1, op))
                  case SwapBoth => (views.1, views.0);
      PairMeaning(next, ops[1..])
  }

  /** Runs operations on two buffers until the first one whose assert does not hold. */
  function RunPair(p: Pair, ops: seq<PairOp>): (r: (Pair, nat))
    requires p.Valid()
    ensures r.0.Valid() && r.1 <= |ops|
    decreases |ops|
  {
    if ops == [] || !PairAllowed(p, ops[0]) then (p, 0)
    else
      PairApplyFacts(p, ops[0]);
      var (after, count) := RunPair(PairApply(p, ops[0]), ops[1..]);
      (after, count + 1)
  }

  lemma PairApplyFacts(p: Pair, o: PairOp)
    requires p.Valid() && PairAllowed(p, o)
    ensures PairApply(p, o).Valid()
    ensures PairApply(p, o).first.Total() + PairApply(p, o).second.Total() >= p.first.Total() + p.second.Total()
  {
    match o
    case OnFirst(op) => ApplyFacts(p.first, op);
    case OnSecond(op) => ApplyFacts(p.second, op);
    case SwapBoth =>
  }

  lemma RunPairFrom(p: Pair, ops: seq<PairOp>, k: nat)
    requires p.Valid() && k < |ops|
    ensures !PairAllowed(p, ops[k]) ==> RunPair(p, ops[k..]) == (p, 0)
    ensures PairAllowed(p, ops[k]) ==>
              && PairApply(p, ops[k]).Valid()
              && RunPair(p, ops[k..]).0 == RunPair(PairApply(p, ops[k]), ops[k + 1..]).0
              && RunPair(p, ops[k..]).1 == RunPair(PairApply(p, ops[k]), ops[k + 1..]).1 + 1
  {
    assert ops[k..][0] == ops[k] && ops[k..][1..] == ops[k + 1..];
    if PairAllowed(p, ops[k]) {
      PairApplyFacts(p, ops[k]);
    }
  }

  /** Any sequence of operations on two buffers, swaps among them, has the meaning of the sequence model. */
  lemma {:induction false} RunPairRefinesSequences(p: Pair, ops: seq<PairOp>)
    requires p.Valid()
    ensures var (after, count) := RunPair(p, ops);
            && (after.first.view, after.second.view) == PairMeaning((p.first.view, p.second.view), ops[..count])
            && after.first.Total() + after.second.Total() >= p.first.Total() + p.second.Total()
            && (count < |ops| ==> !PairAllowed(after, ops[count]))
    decreases |ops|
  {
    var (after, count) := RunPair(p, ops);
    if ops == [] || !PairAllowed(p, ops[0]) {
    } else {
      PairApplyFacts(p, ops[0]);
      PairViews(p, ops[0]);
      RunPairRefinesSequences(PairApply(p, ops[0]), ops[1..]);
      assert ops[..count][1..] == ops[1..][..count - 1];
    }
  }

  lemma PairViews(p: Pair, o: PairOp)
    requires p.Valid() && PairAllowed(p, o)
    ensures var q := PairApply(p, o);
            match o
            case OnFirst(op) => q.first.view == Meaning(p.first.view, op) && q.second.view == p.second.view
            case OnSecond(op) => q.first.view == p.first.view && q.second.view == Meaning(p.second.view, op)
            case SwapBoth => q.first.view == p.second.view && q.second.view == p.first.view
  {
    match o
    case OnFirst(op) => ApplyFacts(p.first, op);
    case OnSecond(op) => ApplyFacts(p.second, op);
    case SwapBoth =>
  }

  /** What an append adds, retrieving the rest away and then the data brings back exactly. */
  lemma AppendThenRetrieve(b: Shape, data: seq<byte>)
    requires b.Valid()
    ensures Append(b, data).Valid()
    ensures Retrieve(Append(b, data), |b.view|).view == data
  {
    EnsureWritableFacts(b, |data|);
  }

  predicate StandsAt(view: seq<byte>, pattern: seq<byte>, i: nat)
  {
    i + |pattern| <= |view| && view[i..i + |pattern|] == pattern
  }

  /** std::search over the readable bytes: the first place at or after `from` where `pattern` stands. */
  function Search(view: seq<byte>, from: nat, pattern: seq<byte>): (r: Option<nat>)
    ensures r.Some? ==> from <= r.value && StandsAt(view, pattern, r.value)
                        && forall j :: from <= j < r.value ==> !StandsAt(view, pattern, j)
    ensures r.None? ==> forall j :: from <= j ==> !StandsAt(view, pattern, j)
    decreases |view| - from
  {
    if from + |pattern| > |view| then None
    else if StandsAt(view, pattern, from) then Some(from)
    else Search(view, from + 1, pattern)
  }

  const CRLF: seq<byte> := [13, 10]
  const EOL: seq<byte> := [10]

  /** A line ended by CR LF also ends at or before that LF for a reader that looks for LF alone. */
  lemma CrlfContainsEol(view: seq<byte>, from: nat)
    requires Search(view, from, CRLF).Some?
    ensures Search(view, from, EOL).Some?
    ensures Search(view, from, EOL).value <= Search(view, from, CRLF).value + 1
  {
    var i := Search(view, from, CRLF).value;
    assert view[i..i + 2][1] == CRLF[1];
    assert StandsAt(view, EOL, i + 1);
  }
}
