/**
 The ring of stream_buffer.c: bytes between `xTail` and `xHead` are unread, one byte always stays
 free. Message buffers put a length field in front of each message.
 */
module StreamRing {
  import opened Wrappers
  import opened Word32

  /** The index and length arithmetic of the code does not wrap up to this length. */
  const MAX_LENGTH: nat := 0x8000_0000

  datatype Ring = Ring(bytes: seq<Byte>, head: nat, tail: nat) {
    predicate Valid() {
      head < |bytes| && tail < |bytes|
    }
  }

  function Wrap(r: Ring, x: nat): nat {
    if x < |r.bytes| then x else x - |r.bytes|
  }

  function Bytes(r: Ring): (n: nat)
    requires r.Valid()
    ensures n < |r.bytes| && r.head == Wrap(r, r.tail + n)
  {
    if r.head >= r.tail then r.head - r.tail else r.head + |r.bytes| - r.tail
  }

  function Spaces(r: Ring): nat
    requires r.Valid()
  {
    |r.bytes| - 1 - Bytes(r)
  }

  /** The byte `i` places after the tail. */
  function Cell(r: Ring, i: nat): Byte
    requires r.Valid() && i < |r.bytes|
  {
    r.bytes[Wrap(r, r.tail + i)]
  }

  function Unread(r: Ring): (u: seq<Byte>)
    requires r.Valid()
    ensures |u| == Bytes(r) && forall i :: 0 <= i < |u| ==> u[i] == Cell(r, i)
  {
    seq(Bytes(r), i requires 0 <= i < Bytes(r) => Cell(r, i))
  }

  // ---------- The counts as computed on 32-bit words ----------

  /** `prvBytesInBuffer`. */
  function CountBytes(length: Tick, head: Tick, tail: Tick): Tick {
    var count := Sub(Add(length, head), tail);
    if count >= length then Sub(count, length) else count
  }

  /** `xStreamBufferSpacesAvailable` after its loop. */
  function CountSpaces(length: Tick, head: Tick, tail: Tick): Tick {
    var space := Sub(Sub(Add(length, tail), head), 1);
    if space >= length then Sub(space, length) else space
  }

  /** The count is the distance exactly when length plus distance fits in a word, or the head is behind. */
  lemma CountBytesExact(r: Ring)
    requires r.Valid() && |r.bytes| < WRAP
    ensures CountBytes(|r.bytes|, r.head, r.tail) == Bytes(r) <==>
              r.head < r.tail || |r.bytes| + Bytes(r) < WRAP
  {}

  /** Up to 2^31 bytes both counts are right, and together they make the length less one. */
  lemma CountsExact(r: Ring)
    requires r.Valid() && |r.bytes| <= MAX_LENGTH
    ensures CountBytes(|r.bytes|, r.head, r.tail) == Bytes(r)
    ensures CountSpaces(|r.bytes|, r.head, r.tail) == Spaces(r)
    ensures CountBytes(|r.bytes|, r.head, r.tail) + CountSpaces(|r.bytes|, r.head, r.tail) == |r.bytes| - 1
  {}

  // ---------- What readers and writers do to the ring ----------

  /** Bytes at and after position `at` are replaced by `data`, going round the end. */
  ghost predicate WrittenAt(r: Ring, r': Ring, at: nat, data: seq<Byte>) {
    && at < |r.bytes| && |data| < |r.bytes| && r' == r.(bytes := r'.bytes) && |r'.bytes| == |r.bytes|
    && (forall k :: 0 <= k < |data| ==> r'.bytes[Wrap(r, at + k)] == data[k])
    && (forall p :: 0 <= p < |r.bytes| && Distance(r, at, p) >= |data| ==> r'.bytes[p] == r.bytes[p])
  }

  /** How far position `p` is after position `at`, going round the end. */
  function Distance(r: Ring, at: nat, p: nat): nat
    requires at < |r.bytes| && p < |r.bytes|
  {
    if p >= at then p - at else p + |r.bytes| - at
  }

  /** Bytes are in place behind the head that no reader can see yet. */
  ghost predicate Staged(r: Ring, data: seq<Byte>)
    requires r.Valid()
  {
    |data| <= Spaces(r) && forall i :: 0 <= i < |data| ==> data[i] == Cell(r, Bytes(r) + i)
  }

  /** A free cell is not a cell in use, and is where the tail says it is. */
  lemma FreeCells(r: Ring, from: nat, n: nat, i: nat)
    requires r.Valid() && from + n <= Spaces(r)
    ensures var at := Wrap(r, r.head + from);
            && at < |r.bytes|
            && (i < Bytes(r) + from ==> Distance(r, at, Wrap(r, r.tail + i)) >= n)
            && (i < n ==> Wrap(r, at + i) == Wrap(r, r.tail + (Bytes(r) + from + i)))
  {}

  /** Writing into the free space behind the head leaves the unread bytes alone. */
  lemma StageMore(r: Ring, r': Ring, staged: seq<Byte>, data: seq<Byte>)
    requires r.Valid() && Staged(r, staged) && |staged| + |data| <= Spaces(r)
    requires WrittenAt(r, r', Wrap(r, r.head + |staged|), data)
    ensures r'.Valid() && Unread(r') == Unread(r) && Staged(r', staged + data)
  {
    UnreadStays(r, r', |staged|, data);
    forall i | 0 <= i < |staged| + |data| ensures (staged + data)[i] == Cell(r', Bytes(r') + i) {
      StagedAt(r, r', staged, data, i);
    }
  }

  lemma UnreadStays(r: Ring, r': Ring, from: nat, data: seq<Byte>)
    requires r.Valid() && from + |data| <= Spaces(r) && WrittenAt(r, r', Wrap(r, r.head + from), data)
    ensures r'.Valid() && Bytes(r') == Bytes(r) && Spaces(r') == Spaces(r) && Unread(r') == Unread(r)
  {
    forall i | 0 <= i < Bytes(r) ensures Cell(r', i) == Cell(r, i) { CellStays(r, r', from, data, i); }
  }

  lemma StagedAt(r: Ring, r': Ring, staged: seq<Byte>, data: seq<Byte>, i: nat)
    requires r.Valid() && Staged(r, staged) && |staged| + |data| <= Spaces(r)
    requires WrittenAt(r, r', Wrap(r, r.head + |staged|), data) && i < |staged| + |data|
    ensures (staged + data)[i] == Cell(r', Bytes(r) + i)
  {
    if i < |staged| { StagedBefore(r, r', staged, data, i); } else { CellWritten(r, r', |staged|, data, i); }
  }

  lemma StagedBefore(r: Ring, r': Ring, staged: seq<Byte>, data: seq<Byte>, i: nat)
    requires r.Valid() && Staged(r, staged) && |staged| + |data| <= Spaces(r)
    requires WrittenAt(r, r', Wrap(r, r.head + |staged|), data) && i < |staged|
    ensures staged[i] == Cell(r', Bytes(r) + i)
  {
    assert staged[i] == Cell(r, Bytes(r) + i);
    CellStays(r, r', |staged|, data, Bytes(r) + i);
  }

  lemma CellStays(r: Ring, r': Ring, from: nat, data: seq<Byte>, i: nat)
    requires r.Valid() && from + |data| <= Spaces(r) && WrittenAt(r, r', Wrap(r, r.head + from), data) && i < Bytes(r) + from
    ensures Cell(r', i) == Cell(r, i)
  {
    FreeCells(r, from, |data|, i);
  }

  lemma CellWritten(r: Ring, r': Ring, from: nat, data: seq<Byte>, i: nat)
    requires r.Valid() && from + |data| <= Spaces(r) && WrittenAt(r, r', Wrap(r, r.head + from), data) && from <= i < from + |data|
    ensures Cell(r', Bytes(r) + i) == data[i - from]
  {
    FreeCells(r, from, |data|, i - from);
  }

  /** Moving the head over staged bytes makes them unread. */
  lemma Published(r: Ring, data: seq<Byte>)
    requires r.Valid() && Staged(r, data)
    ensures var r' := r.(head := Wrap(r, r.head + |data|));
            && r'.Valid() && Bytes(r') == Bytes(r) + |data| && Unread(r') == Unread(r) + data
  {
    var r' := r.(head := Wrap(r, r.head + |data|));
    forall i | 0 <= i < Bytes(r') ensures Unread(r')[i] == (Unread(r) + data)[i] {
      if i >= Bytes(r) { assert data[i - Bytes(r)] == Cell(r, Bytes(r) + (i - Bytes(r))); }
    }
  }

  /** Moving the tail over the first unread bytes consumes them, and nothing else. */
  lemma Consumed(r: Ring, n: nat, staged: seq<Byte>)
    requires r.Valid() && n <= Bytes(r) && Staged(r, staged)
    ensures var r' := r.(tail := Wrap(r, r.tail + n));
            && r'.Valid() && Bytes(r') == Bytes(r) - n && Unread(r') == Unread(r)[n..] && Staged(r', staged)
  {
    var r' := r.(tail := Wrap(r, r.tail + n));
    forall i | 0 <= i < |r.bytes| - n ensures Cell(r', i) == Cell(r, n + i) {}
    forall i | 0 <= i < |staged| ensures staged[i] == Cell(r', Bytes(r') + i) {
      assert staged[i] == Cell(r, n + (Bytes(r') + i));
    }
  }

  // ---------- Messages ----------

  const LENGTH_BYTES: nat := 4

  type Length = n: int | 0 <= n < 0x1_0000_0000

  /** The length as `memcpy` of a little-endian 32-bit word stores it. */
  function EncodeLength(n: Length): (b: seq<Byte>)
    ensures |b| == LENGTH_BYTES
  {
    [n % 256, n / 256 % 256, n / 65536 % 256, n / 16777216]
  }

  function DecodeLength(b: seq<Byte>): Length
    requires |b| == LENGTH_BYTES
  {
    (b[0] as int) + 256 * (b[1] as int) + 65536 * (b[2] as int) + 16777216 * (b[3] as int)
  }

  lemma LengthRoundTrip(n: Length)
    ensures DecodeLength(EncodeLength(n)) == n
  {
    var high, higher := n / 256, n / 65536;
    assert n == 256 * high + n % 256 && high == 256 * higher + high % 256;
    assert higher == 256 * (n / 16777216) + higher % 256;
  }

  type Message = m: seq<Byte> | 0 < |m| < 0x1_0000_0000 witness [0]

  function Frame(m: seq<Byte>): seq<Byte>
    requires |m| < 0x1_0000_0000
  {
    EncodeLength(|m|) + m
  }

  function Frames(ms: seq<Message>): seq<Byte> {
    if ms == [] then [] else Frame(ms[0]) + Frames(ms[1..])
  }

  lemma {:induction false} FramesAppend(ms: seq<Message>, m: Message)
    ensures Frames(ms + [m]) == Frames(ms) + Frame(m)
  {
    if ms == [] {
      assert [m][1..] == [];
    } else {
      FramesAppend(ms[1..], m);
      assert (ms + [m])[1..] == ms[1..] + [m];
    }
  }

  /** A buffer of whole messages holds nothing, or more than a length field. */
  lemma FramesSize(ms: seq<Message>)
    ensures Frames(ms) == [] <==> ms == []
    ensures ms != [] ==> |Frames(ms)| > LENGTH_BYTES
  {}

  /** The first four bytes of what is unread are the length of the first message. */
  lemma FirstFrame(ms: seq<Message>)
    requires ms != []
    ensures var n := |ms[0]|;
            && LENGTH_BYTES + n <= |Frames(ms)|
            && DecodeLength(Frames(ms)[..LENGTH_BYTES]) == n
            && Frames(ms)[LENGTH_BYTES..LENGTH_BYTES + n] == ms[0]
            && Frames(ms)[LENGTH_BYTES + n..] == Frames(ms[1..])
  {
    LengthRoundTrip(|ms[0]|);
    assert Frames(ms)[..LENGTH_BYTES] == EncodeLength(|ms[0]|);
  }
}

/** The code, working in place on its byte array, for one caller at a time. */
module StreamBuffers {
  import opened Wrappers
  import opened Word32
  import opened StreamRing

  class StreamBuffer {
    const isMessage: bool
    const buffer: array<Byte>
    var head: nat
    var tail: nat

    ghost predicate Valid()
      reads this, buffer
    {
      buffer.Length <= MAX_LENGTH && View().Valid()
    }

    ghost function View(): Ring
      reads this, buffer
    {
      Ring(buffer[..], head, tail)
    }

    /** `prvInitialiseNewStreamBuffer`; the create functions ask for one byte more than `size`. */
    constructor (size: nat, isMessage: bool)
      requires 0 < size < MAX_LENGTH && (isMessage ==> size > LENGTH_BYTES)
      ensures Valid() && fresh(buffer) && this.isMessage == isMessage && buffer.Length == size + 1
      ensures Unread(View()) == [] && Spaces(View()) == size
    {
      this.isMessage := isMessage;
      buffer := new Byte[size + 1](_ => 0);
      head, tail := 0, 0;
    }

    method BytesInBuffer() returns (count: nat)
      requires Valid()
      ensures count == Bytes(View())
    {
      CountsExact(View());
      count := Sub(Add(buffer.Length, head), tail);
      if count >= buffer.Length { count := Sub(count, buffer.Length); }
    }

    /** The loop that re-reads the tail is modelled in module StreamProtocol. */
    method SpacesAvailable() returns (space: nat)
      requires Valid()
      ensures space == Spaces(View())
    {
      CountsExact(View());
      space := Sub(Sub(Add(buffer.Length, tail), head), 1);
      if space >= buffer.Length { space := Sub(space, buffer.Length); }
    }

    /** `prvWriteBytesToBuffer`: two copies if the data go round the end; the head stays. */
    method WriteBytes(data: seq<Byte>, at: nat) returns (next: nat)
      requires Valid() && at < buffer.Length && 0 < |data| < buffer.Length
      modifies buffer
      ensures Valid() && WrittenAt(old(View()), View(), at, data) && next == Wrap(View(), at + |data|)
    {
      var first := Min(buffer.Length - at, |data|);
      forall i | 0 <= i < first { buffer[at + i] := data[i]; }
      if |data| > first {
        forall i | 0 <= i < |data| - first { buffer[i] := data[first + i]; }
      }
      next := at + |data|;
      if next >= buffer.Length { next := next - buffer.Length; }
      Spliced(old(View()), View(), at, data);
    }

    /** `prvReadBytesFromBuffer`: the tail stays. */
    method ReadBytes(count: nat, at: nat) returns (data: seq<Byte>, next: nat)
      requires Valid() && at < buffer.Length && 0 < count < buffer.Length
      ensures |data| == count && (forall k :: 0 <= k < count ==> data[k] == buffer[Wrap(View(), at + k)])
      ensures next == Wrap(View(), at + count)
    {
      var first := Min(buffer.Length - at, count);
      data := buffer[at..at + first];
      if count > first { data := data + buffer[..count - first]; }
      next := at + count;
      if next >= buffer.Length { next := next - buffer.Length; }
    }

    /** Puts more bytes behind the head without moving it. */
    method Stage(data: seq<Byte>, at: nat, ghost staged: seq<Byte>) returns (next: nat)
      requires Valid() && Staged(View(), staged) && at == Wrap(View(), head + |staged|)
      requires 0 < |data| && |staged| + |data| <= Spaces(View())
      modifies buffer
      ensures Valid() && Unread(View()) == old(Unread(View())) && Staged(View(), staged + data)
      ensures next == Wrap(View(), head + |staged + data|)
    {
      ghost var r := View();
      next := WriteBytes(data, at);
      StageMore(r, View(), staged, data);
    }

    /** Moves the head over everything behind it that is staged. */
    method Publish(next: nat, ghost staged: seq<Byte>)
      requires Valid() && Staged(View(), staged) && next == Wrap(View(), head + |staged|)
      modifies this`head
      ensures Valid() && Unread(View()) == old(Unread(View())) + staged
    {
      Published(View(), staged);
      ghost var r := View();
      head := next;
      assert View() == r.(head := next);
    }

    /** `prvWriteMessageToBuffer`. */
    method WriteMessage(message: seq<Byte>, space: nat, requiredSpace: nat) returns (written: nat)
      requires Valid() && space == Spaces(View()) && |message| < WRAP
      requires isMessage ==> requiredSpace == |message| + LENGTH_BYTES < WRAP
      modifies this`head, buffer
      ensures Valid()
      ensures written == if isMessage then if |message| + LENGTH_BYTES <= space then |message| else 0 else Min(|message|, space)
      ensures Unread(View()) == old(Unread(View())) +
                if written == 0 then [] else if isMessage then Frame(message) else message[..written]
    {
      var nextHead := head;
      written := |message|;
      ghost var staged: seq<Byte> := [];
      if isMessage {
        if space >= requiredSpace {
          nextHead := Stage(EncodeLength(|message|), nextHead, staged);
          staged := staged + EncodeLength(|message|);
        } else {
          written := 0;
        }
      } else {
        written := Min(|message|, space);
      }
      if written != 0 {
        nextHead := Stage(message[..written], nextHead, staged);
        Publish(nextHead, staged + message[..written]);
        assert isMessage ==> staged + message[..written] == Frame(message);
      }
    }

    /** `xStreamBufferSend` without waiting, and `xStreamBufferSendFromISR`. */
    method Send(message: seq<Byte>) returns (written: nat)
      requires Valid() && |message| < WRAP && (isMessage ==> |message| + LENGTH_BYTES < WRAP)
      modifies this`head, buffer
      ensures Valid()
      ensures written == if isMessage then if |message| + LENGTH_BYTES <= old(Spaces(View())) then |message| else 0
                         else Min(|message|, old(Spaces(View())))
      ensures Unread(View()) == old(Unread(View())) +
                if written == 0 then [] else if isMessage then Frame(message) else message[..written]
    {
      var requiredSpace := |message|;
      if isMessage {
        requiredSpace := requiredSpace + LENGTH_BYTES;
      } else if requiredSpace > buffer.Length - 1 {
        requiredSpace := buffer.Length - 1;
      }
      var space := SpacesAvailable();
      written := WriteMessage(message, space, requiredSpace);
    }

    /** Copies unread bytes without moving the tail. */
    method Fetch(count: nat, at: nat, ghost skipped: nat) returns (data: seq<Byte>, next: nat)
      requires Valid() && 0 < count && skipped + count <= Bytes(View()) && at == Wrap(View(), tail + skipped)
      ensures data == Unread(View())[skipped..skipped + count] && next == Wrap(View(), tail + (skipped + count))
    {
      data, next := ReadBytes(count, at);
      SameCells(View(), skipped, count, data);
    }

    /** Moves the tail over the first `n` unread bytes. */
    method Consume(next: nat, ghost n: nat)
      requires Valid() && n <= Bytes(View()) && next == Wrap(View(), tail + n)
      modifies this`tail
      ensures Valid() && Unread(View()) == old(Unread(View()))[n..]
    {
      Consumed(View(), n, []);
      ghost var r := View();
      tail := next;
      assert View() == r.(tail := next);
    }

    /** The length field in front of the next message. */
    method FetchLength(ghost messages: seq<Message>) returns (n: nat, next: nat)
      requires Valid() && messages != [] && Unread(View()) == Frames(messages)
      ensures n == |messages[0]| && next == Wrap(View(), tail + LENGTH_BYTES) && LENGTH_BYTES + n <= Bytes(View())
    {
      FirstFrame(messages);
      var lengthField;
      lengthField, next := Fetch(LENGTH_BYTES, tail, 0);
      assert lengthField == Frames(messages)[..LENGTH_BYTES];
      n := DecodeLength(lengthField);
    }

    /** `prvReadMessageFromBuffer`, from a stream buffer or a message buffer that holds `messages`. */
    method ReadMessage(room: nat, available: nat, ghost messages: seq<Message>) returns (data: seq<Byte>)
      requires Valid() && available == Bytes(View()) && room < WRAP
      requires isMessage ==> messages != [] && Unread(View()) == Frames(messages)
      modifies this`tail
      ensures Valid()
      ensures !isMessage ==> data == old(Unread(View()))[..Min(room, available)] && Unread(View()) == old(Unread(View()))[|data|..]
      ensures isMessage && |messages[0]| <= room ==> data == messages[0] && Unread(View()) == Frames(messages[1..])
      ensures isMessage && |messages[0]| > room ==> data == [] && tail == old(tail)
    {
      var nextTail, skipped, left := tail, 0, available;
      var nextLength := room;
      if isMessage {
        FirstFrame(messages);
        nextLength, nextTail := FetchLength(messages);
        skipped, left := LENGTH_BYTES, left - LENGTH_BYTES;
        if nextLength > room { nextLength := 0; }
      }
      var count := Min(nextLength, left);
      data := [];
      if count != 0 {
        data, nextTail := Fetch(count, nextTail, skipped);
        Consume(nextTail, skipped + count);
      }
    }

    /** `xStreamBufferReceive` without waiting, and `xStreamBufferReceiveFromISR`. */
    method Receive(room: nat, ghost messages: seq<Message>) returns (data: seq<Byte>)
      requires Valid() && room < WRAP && (isMessage ==> Unread(View()) == Frames(messages))
      modifies this`tail
      ensures Valid()
      ensures !isMessage ==> data == old(Unread(View()))[..Min(room, old(Bytes(View())))] && Unread(View()) == old(Unread(View()))[|data|..]
      ensures isMessage && messages != [] && |messages[0]| <= room ==> data == messages[0] && Unread(View()) == Frames(messages[1..])
      ensures isMessage && (messages == [] || |messages[0]| > room) ==> data == [] && tail == old(tail)
    {
      data := [];
      var lengthBytes := if isMessage then LENGTH_BYTES else 0;
      var available := BytesInBuffer();
      if isMessage { FramesSize(messages); }
      if available > lengthBytes {
        data := ReadMessage(room, available, messages);
      }
    }

    /** `xStreamBufferNextMessageLengthBytes`. */
    method NextMessageLength(ghost messages: seq<Message>) returns (n: nat)
      requires Valid() && isMessage && Unread(View()) == Frames(messages)
      ensures n == if messages == [] then 0 else |messages[0]|
    {
      FramesSize(messages);
      var available := BytesInBuffer();
      n := 0;
      if available > LENGTH_BYTES {
        var length, _ := FetchLength(messages);
        n := length;
      }
    }
  }

  /** The two copies of a write that goes round the end, seen as one. */
  lemma Spliced(r: Ring, r': Ring, at: nat, data: seq<Byte>)
    requires at < |r.bytes| && |data| < |r.bytes| && r' == r.(bytes := r'.bytes) && |r'.bytes| == |r.bytes|
    requires var first := Min(|r.bytes| - at, |data|);
             && (forall i :: 0 <= i < first ==> r'.bytes[at + i] == data[i])
             && (forall i :: 0 <= i < |data| - first ==> r'.bytes[i] == data[first + i])
             && (forall p :: 0 <= p < |r.bytes| && !(at <= p < at + first) && !(0 <= p < |data| - first) ==> r'.bytes[p] == r.bytes[p])
    ensures WrittenAt(r, r', at, data)
  {
    var first := Min(|r.bytes| - at, |data|);
    forall k | 0 <= k < |data| ensures r'.bytes[Wrap(r, at + k)] == data[k] {
      if k < first { assert r'.bytes[at + k] == data[k]; } else { assert r'.bytes[k - first] == data[first + (k - first)]; }
    }
  }

  lemma SameCells(r: Ring, skipped: nat, count: nat, data: seq<Byte>)
    requires r.Valid() && skipped + count <= Bytes(r) && |data| == count
    requires forall k :: 0 <= k < count ==> data[k] == r.bytes[Wrap(r, Wrap(r, r.tail + skipped) + k)]
    ensures data == Unread(r)[skipped..skipped + count]
  {
    forall k | 0 <= k < count ensures data[k] == Unread(r)[skipped + k] {
      assert Wrap(r, Wrap(r, r.tail + skipped) + k) == Wrap(r, r.tail + (skipped + k));
    }
  }
}
