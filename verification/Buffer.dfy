/**
 muduo-style byte buffer over one array with a reader and a writer index:
 prependable | readable | writable.
 */
module BufferClass {
  import opened Bytes
  import opened BufferSpec
  import opened IntCodec

  class Buffer {
    var buffer: array<byte>
    var readerIndex: nat
    var writerIndex: nat

    ghost predicate Valid()
      reads this
    {
      readerIndex <= writerIndex <= buffer.Length && CHEAP_PREPEND <= buffer.Length
    }

    ghost function View(): seq<byte>
      requires Valid()
      reads this, buffer
    {
      buffer[readerIndex..writerIndex]
    }

    ghost function Model(): (m: Shape)
      requires Valid()
      reads this, buffer
      ensures m.Valid()
    {
      Shape(View(), readerIndex, buffer.Length - writerIndex)
    }

    constructor (initialSize: nat := INITIAL_SIZE)
      ensures Valid() && fresh(buffer)
      ensures Model() == BufferSpec.Fresh(initialSize)
      ensures View() == [] && PrependableBytes() == 8 && WritableBytes() == initialSize
    {
      buffer := new byte[CHEAP_PREPEND + initialSize];
      readerIndex := CHEAP_PREPEND;
      writerIndex := CHEAP_PREPEND;
    }

    function ReadableBytes(): (n: nat)
      requires Valid()
      reads this, buffer
      ensures n == |View()|
    {
      writerIndex - readerIndex
    }

    function WritableBytes(): nat
      requires Valid()
      reads this
    {
      buffer.Length - writerIndex
    }

    function PrependableBytes(): nat
      reads this
    {
      readerIndex
    }

    method Swap(rhs: Buffer)
      requires Valid() && rhs.Valid()
      modifies this, rhs
      ensures Valid() && rhs.Valid()
      ensures buffer == old(rhs.buffer) && rhs.buffer == old(buffer)
      ensures Model() == old(rhs.Model()) && rhs.Model() == old(Model())
    {
      var b, r, w := buffer, readerIndex, writerIndex;
      buffer, readerIndex, writerIndex := rhs.buffer, rhs.readerIndex, rhs.writerIndex;
      rhs.buffer, rhs.readerIndex, rhs.writerIndex := b, r, w;
    }

    method Retrieve(len: nat)
      requires Valid() && len <= |View()|
      modifies this
      ensures Valid() && buffer == old(buffer)
      ensures Model() == BufferSpec.Retrieve(old(Model()), len)
      ensures View() == old(View())[len..]
    {
      if len < ReadableBytes() {
        readerIndex := readerIndex + len;
      } else {
        RetrieveAll();
      }
    }

    method RetrieveAll()
      requires Valid()
      modifies this
      ensures Valid() && buffer == old(buffer)
      ensures Model() == BufferSpec.RetrieveAll(old(Model()))
      ensures View() == [] && PrependableBytes() == 8
    {
      readerIndex := CHEAP_PREPEND;
      writerIndex := CHEAP_PREPEND;
    }

    method RetrieveAsString(len: nat) returns (result: seq<byte>)
      requires Valid() && len <= |View()|
      modifies this
      ensures Valid() && buffer == old(buffer)
      ensures result == old(View())[..len]
      ensures Model() == BufferSpec.Retrieve(old(Model()), len)
    {
      result := buffer[readerIndex..readerIndex + len];
      Retrieve(len);
    }

    method Append(data: seq<byte>)
      requires Valid()
      modifies this, buffer
      ensures Valid() && (buffer == old(buffer) || fresh(buffer))
      ensures Model() == BufferSpec.Append(old(Model()), data)
      ensures View() == old(View()) + data
    {
      EnsureWritableBytes(|data|);
      Fill(data);
    }

    /** Copy to beginWrite() and hasWritten: the data must fit the writable tail. */
    method Fill(data: seq<byte>)
      requires Valid() && |data| <= WritableBytes()
      modifies this`writerIndex, buffer
      ensures Valid()
      ensures Model() == Shape(old(View()) + data, old(readerIndex), old(WritableBytes()) - |data|)
    {
      CopyIn(writerIndex, data);
      HasWritten(|data|);
      ghost var now, expected := View(), old(View()) + data;
      forall k | 0 <= k < |expected| ensures now[k] == expected[k] {
        assert now[k] == buffer[readerIndex + k];
      }
      assert now == expected;
    }

    method EnsureWritableBytes(len: nat)
      requires Valid()
      modifies this, buffer
      ensures Valid() && (buffer == old(buffer) || fresh(buffer))
      ensures WritableBytes() >= len
      ensures Model() == EnsureWritable(old(Model()), len)
      ensures View() == old(View())
    {
      if WritableBytes() < len {
        MakeSpace(len);
      }
    }

    method HasWritten(len: nat)
      requires Valid() && len <= WritableBytes()
      modifies this`writerIndex
      ensures Valid() && writerIndex == old(writerIndex) + len
    {
      writerIndex := writerIndex + len;
    }

    method Prepend(data: seq<byte>)
      requires Valid() && |data| <= PrependableBytes()
      modifies this`readerIndex, buffer
      ensures Valid()
      ensures Model() == BufferSpec.Prepend(old(Model()), data)
      ensures View() == data + old(View())
    {
      readerIndex := readerIndex - |data|;
      CopyIn(readerIndex, data);
      ghost var now, expected := View(), data + old(View());
      forall k | 0 <= k < |expected| ensures now[k] == expected[k] {
        assert now[k] == buffer[readerIndex + k];
      }
      assert now == expected;
    }

    /** std::copy of `data` to offset `at`. */
    method CopyIn(at: nat, data: seq<byte>)
      requires at + |data| <= buffer.Length
      modifies buffer
      ensures forall i :: 0 <= i < buffer.Length ==>
                buffer[i] == if at <= i < at + |data| then data[i - at] else old(buffer[i])
    {
      forall i | at <= i < at + |data| {
        buffer[i] := data[i - at];
      }
    }

    method MakeSpace(len: nat)
      requires Valid() && WritableBytes() < len
      modifies this, buffer
      ensures Valid() && (buffer == old(buffer) || fresh(buffer))
      ensures Model() == EnsureWritable(old(Model()), len)
    {
      if WritableBytes() + PrependableBytes() < len + CHEAP_PREPEND {
        Resize(writerIndex + len);
      } else {
        assert CHEAP_PREPEND < readerIndex;
        var readable := ReadableBytes();
        MoveDown(readable);
        readerIndex := CHEAP_PREPEND;
        writerIndex := readerIndex + readable;
      }
    }

    /** buffer_.resize: the old cells keep their contents, new cells are zero. */
    method Resize(size: nat)
      requires size >= buffer.Length
      modifies this`buffer
      ensures fresh(buffer) && buffer.Length == size
      ensures buffer[..old(buffer.Length)] == old(buffer[..])
    {
      var was := buffer;
      buffer := new byte[size](i requires 0 <= i reads was => if i < was.Length then was[i] else 0);
    }

    /** The forward copy onto an overlapping lower range. */
    method MoveDown(readable: nat)
      requires CHEAP_PREPEND < readerIndex && readerIndex + readable <= buffer.Length
      modifies buffer
      ensures buffer[CHEAP_PREPEND..CHEAP_PREPEND + readable] == old(buffer[readerIndex..readerIndex + readable])
    {
      ghost var was, shift := buffer[..], readerIndex - CHEAP_PREPEND;
      var k := 0;
      while k < readable
        invariant 0 <= k <= readable
        invariant forall i :: CHEAP_PREPEND <= i < CHEAP_PREPEND + k ==> buffer[i] == was[i + shift]
        invariant forall i :: CHEAP_PREPEND + k <= i < buffer.Length ==> buffer[i] == was[i]
      {
        buffer[CHEAP_PREPEND + k] := buffer[readerIndex + k];
        k := k + 1;
      }
      ghost var moved := buffer[CHEAP_PREPEND..CHEAP_PREPEND + readable];
      forall j | 0 <= j < readable ensures moved[j] == was[readerIndex..readerIndex + readable][j] {
        assert buffer[CHEAP_PREPEND + j] == was[CHEAP_PREPEND + j + shift];
      }
    }

    /**
     The scatter read. `arrived` is what readv delivers: None for -1, Some([]) for end of file,
     otherwise at most the tail plus the 64 KiB side buffer.
     */
    method ReadFd(arrived: Option<seq<byte>>) returns (n: int)
      requires Valid()
      requires arrived.Some? ==> |arrived.value| <= ReadLimit(Model())
      modifies this, buffer
      ensures Valid() && (buffer == old(buffer) || fresh(buffer))
      ensures n == if arrived.None? then -1 else |arrived.value|
      ensures Model() == if arrived.None? then old(Model()) else BufferSpec.ReadFd(old(Model()), arrived.value)
      ensures View() == if arrived.None? then old(View()) else old(View()) + arrived.value
    {
      if arrived.None? {
        return -1;
      }
      var data := arrived.value;
      var writable := WritableBytes();
      if |data| <= writable {
        Fill(data);
      } else {
        Fill(data[..writable]);
        Associative(old(View()), data[..writable], data[writable..]);
        assert data == data[..writable] + data[writable..];
        Append(data[writable..]);
      }
      return |data|;
    }

    /** The first CR LF among the readable bytes at or after `start`, as an offset from peek(). */
    method FindCRLF(start: nat) returns (r: Option<nat>)
      requires Valid() && start <= |View()|
      ensures r.Some? ==> start <= r.value < |View()| - 1 && View()[r.value] == 13 && View()[r.value + 1] == 10
      ensures r.Some? ==> forall j :: start <= j < r.value ==> !(View()[j] == 13 && View()[j + 1] == 10)
      ensures r.None? ==> forall j :: start <= j < |View()| - 1 ==> !(View()[j] == 13 && View()[j + 1] == 10)
    {
      r := Search(buffer[readerIndex..writerIndex], start, CRLF);
      StandsAtTwo(View());
    }

    /** The first LF among the readable bytes at or after `start`. */
    method FindEOL(start: nat) returns (r: Option<nat>)
      requires Valid() && start <= |View()|
      ensures r.Some? ==> start <= r.value < |View()| && View()[r.value] == 10
                          && forall j :: start <= j < r.value ==> View()[j] != 10
      ensures r.None? ==> forall j :: start <= j < |View()| ==> View()[j] != 10
    {
      r := Search(buffer[readerIndex..writerIndex], start, EOL);
      assert forall j :: 0 <= j < |View()| ==> (StandsAt(View(), EOL, j) <==> View()[j] == 10) by {
        StandsAtOne(View());
      }
    }

    method AppendInt(x: int, w: Width)
      requires Valid() && Fits(x, w)
      modifies this, buffer
      ensures Valid() && (buffer == old(buffer) || fresh(buffer))
      ensures Model() == BufferSpec.Append(old(Model()), Encode(x, w))
      ensures View() == old(View()) + Encode(x, w)
    {
      Append(Encode(x, w));
    }

    method PeekInt(w: Width) returns (x: int)
      requires Valid() && Size(w) <= |View()|
      ensures Fits(x, w) && Encode(x, w) == View()[..Size(w)]
    {
      var bytes := PeekBytes(Size(w));
      x := Decode(bytes, w);
      EncodeDecode(bytes, w);
    }

    /** memcpy of the first n readable bytes. */
    method PeekBytes(n: nat) returns (bytes: seq<byte>)
      requires Valid() && n <= |View()|
      ensures bytes == View()[..n]
    {
      bytes := buffer[readerIndex..readerIndex + n];
    }

    method ReadInt(w: Width) returns (x: int)
      requires Valid() && Size(w) <= |View()|
      modifies this
      ensures Valid() && buffer == old(buffer)
      ensures Fits(x, w) && old(View()) == Encode(x, w) + View()
      ensures Model() == BufferSpec.Retrieve(old(Model()), Size(w))
    {
      x := PeekInt(w);
      Retrieve(Size(w));
    }

    method PrependInt(x: int, w: Width)
      requires Valid() && Fits(x, w) && Size(w) <= PrependableBytes()
      modifies this`readerIndex, buffer
      ensures Valid()
      ensures Model() == BufferSpec.Prepend(old(Model()), Encode(x, w))
      ensures View() == Encode(x, w) + old(View())
    {
      Prepend(Encode(x, w));
    }

    /** appendInt of every field in turn. */
    method AppendFields(fields: seq<Field>)
      requires Valid() && AllFit(fields)
      modifies this, buffer
      ensures Valid() && (buffer == old(buffer) || fresh(buffer))
      ensures View() == old(View()) + EncodeAll(fields)
      decreases |fields|
    {
      if fields != [] {
        var code := Encode(fields[0].value, fields[0].width);
        AppendInt(fields[0].value, fields[0].width);
        EnsureWritableFacts(old(Model()), |code|);
        AppendFields(fields[1..]);
        Associative(old(View()), code, EncodeAll(fields[1..]));
      }
    }

    /** readInt with the widths a record was written with: the record comes back, the rest stays. */
    method ReadFields(widths: seq<Width>, ghost fields: seq<Field>, ghost rest: seq<byte>)
      returns (result: seq<Field>)
      requires Valid() && AllFit(fields) && widths == Widths(fields)
      requires View() == EncodeAll(fields) + rest
      modifies this
      ensures Valid() && buffer == old(buffer)
      ensures result == fields && View() == rest
      decreases |widths|
    {
      if widths == [] {
        return [];
      }
      ghost var f, others := fields[0], EncodeAll(fields[1..]) + rest;
      Associative(Encode(f.value, f.width), EncodeAll(fields[1..]), rest);
      var x := ReadField(widths[0], f.value, others);
      var later := ReadFields(widths[1..], fields[1..], rest);
      result := [Field(widths[0], x)] + later;
    }

    /** readInt on bytes that begin with the encoding of a value. */
    method ReadField(w: Width, ghost value: int, ghost others: seq<byte>) returns (x: int)
      requires Valid() && Fits(value, w) && View() == Encode(value, w) + others
      modifies this
      ensures Valid() && buffer == old(buffer)
      ensures x == value && View() == others
    {
      x := ReadInt(w);
      SamePrefix(Encode(x, w), View(), Encode(value, w), others);
      DecodeEncode(x, w);
      DecodeEncode(value, w);
    }

    /** A length header put in front with prependInt is what readInt takes off again. */
    method FrameWithLength(x: int, w: Width) returns (y: int)
      requires Valid() && Fits(x, w) && Size(w) <= PrependableBytes()
      modifies this, buffer
      ensures Valid() && buffer == old(buffer)
      ensures y == x && View() == old(View())
    {
      PrependInt(x, w);
      y := ReadInt(w);
      SamePrefix(Encode(x, w), old(View()), Encode(y, w), View());
      DecodeEncode(x, w);
      DecodeEncode(y, w);
    }

    /** The assert an operation starts with. */
    method Admits(op: Op) returns (ok: bool)
      requires Valid()
      ensures ok == Allowed(Model(), op)
    {
      match op
      case DoPrepend(data) => ok := |data| <= PrependableBytes();
      case DoRetrieve(n) => ok := n <= ReadableBytes();
      case DoReadFd(data) =>
        var tail := WritableBytes();
        ok := |data| <= if tail < EXTRA_BUFFER then tail + EXTRA_BUFFER else tail;
      case _ => ok := true;
    }

    /** One operation of the sequence model carried out on the array. */
    method Perform(op: Op)
      requires Valid() && Allowed(Model(), op)
      modifies this, buffer
      ensures Valid() && (buffer == old(buffer) || fresh(buffer))
      ensures Model() == Apply(old(Model()), op)
    {
      match op
      case DoAppend(data) => Append(data);
      case DoPrepend(data) => Prepend(data);
      case DoRetrieve(n) => Retrieve(n);
      case DoRetrieveAll => RetrieveAll();
      case DoReserve(n) => EnsureWritableBytes(n);
      case DoReadFd(data) => var n := ReadFd(Some(data));
    }
  }

  lemma StandsAtTwo(view: seq<byte>)
    ensures forall j :: 0 <= j < |view| - 1 ==> (StandsAt(view, CRLF, j) <==> view[j] == 13 && view[j + 1] == 10)
  {
    forall j | 0 <= j < |view| - 1
      ensures StandsAt(view, CRLF, j) <==> view[j] == 13 && view[j + 1] == 10
    {
      var s := view[j..j + 2];
      assert s[0] == view[j] && s[1] == view[j + 1];
      assert CRLF[0] == 13 && CRLF[1] == 10;
    }
  }

  lemma StandsAtOne(view: seq<byte>)
    ensures forall j :: 0 <= j < |view| ==> (StandsAt(view, EOL, j) <==> view[j] == 10)
  {
    assert forall j :: 0 <= j < |view| ==> view[j..j + 1] == [view[j]];
  }

  /** A list of operations on two buffers, carried out on the arrays up to the first whose assert does not hold. */
  method PerformAll(a: Buffer, b: Buffer, ops: seq<PairOp>) returns (count: nat)
    requires a != b && a.buffer != b.buffer && a.Valid() && b.Valid()
    modifies a, b, a.buffer, b.buffer
    ensures a.Valid() && b.Valid() && a.buffer != b.buffer
    ensures (Pair(a.Model(), b.Model()), count) == RunPair(old(Pair(a.Model(), b.Model())), ops)
  {
    count := 0;
    ghost var result := RunPair(Pair(a.Model(), b.Model()), ops);
    assert ops[0..] == ops;
    while count < |ops|
      invariant count <= |ops|
      invariant a.Valid() && b.Valid() && a.buffer != b.buffer
      invariant a.buffer in {old(a.buffer), old(b.buffer)} || fresh(a.buffer)
      invariant b.buffer in {old(a.buffer), old(b.buffer)} || fresh(b.buffer)
      invariant RunPair(Pair(a.Model(), b.Model()), ops[count..]).0 == result.0
      invariant RunPair(Pair(a.Model(), b.Model()), ops[count..]).1 + count == result.1
    {
      RunPairFrom(Pair(a.Model(), b.Model()), ops, count);
      var ok := PerformOne(a, b, ops[count]);
      if !ok {
        return;
      }
      count := count + 1;
    }
  }

  method PerformOne(a: Buffer, b: Buffer, o: PairOp) returns (ok: bool)
    requires a != b && a.buffer != b.buffer && a.Valid() && b.Valid()
    modifies a, b, a.buffer, b.buffer
    ensures a.Valid() && b.Valid() && a.buffer != b.buffer
    ensures a.buffer in {old(a.buffer), old(b.buffer)} || fresh(a.buffer)
    ensures b.buffer in {old(a.buffer), old(b.buffer)} || fresh(b.buffer)
    ensures ok == PairAllowed(old(Pair(a.Model(), b.Model())), o)
    ensures Pair(a.Model(), b.Model()) ==
              if ok then PairApply(old(Pair(a.Model(), b.Model())), o) else old(Pair(a.Model(), b.Model()))
  {
    match o
    case OnFirst(op) =>
      ok := a.Admits(op);
      if ok { a.Perform(op); }
    case OnSecond(op) =>
      ok := b.Admits(op);
      if ok { b.Perform(op); }
    case SwapBoth =>
      a.Swap(b);
      ok := true;
  }

  lemma SamePrefix(a: seq<byte>, s: seq<byte>, b: seq<byte>, t: seq<byte>)
    requires |a| == |b| && a + s == b + t
    ensures a == b && s == t
  {
    assert (a + s)[..|a|] == a && (b + t)[..|b|] == b;
    assert (a + s)[|a|..] == s && (b + t)[|b|..] == t;
  }
}
