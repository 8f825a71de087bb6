/**
 One writer and one reader of a stream or message buffer, interleaved at every read of an index,
 every byte copied and every write of an index, with no lock between them. Waiting for space or
 for data is a step that may be repeated at any time.
 */
module StreamProtocol {
  import opened Wrappers
  import opened Word32
  import opened StreamRing

  datatype Writer =
    | Idle
    | Asking(data: seq<Byte>)                                   // about to read the tail
    | TailRead(data: seq<Byte>, original: nat)                  // xOriginalTail
    | SpaceRead(data: seq<Byte>, original: nat, space: nat)     // computed from a second read
    | Writing(data: seq<Byte>, chunk: seq<Byte>, copied: nat)   // the head does not move yet

  datatype Reader =
    | Resting
    | ReadingLength(room: nat, available: nat, got: seq<Byte>)
    | Reading(skip: nat, count: nat, got: seq<Byte>)            // the tail does not move yet

  /** With what was sent and received so far: bytes for a stream, else whole messages. */
  datatype State = State(
    ring: Ring, isMessage: bool, writer: Writer, reader: Reader,
    sent: seq<Byte>, received: seq<Byte>, accepted: seq<Message>, delivered: seq<Message>)

  datatype Action = Send(data: seq<Byte>) | WriterStep(wait: bool) | Receive(room: nat) | ReaderStep

  function SpacesNow(r: Ring): nat {
    CountSpaces(Low(|r.bytes|), Low(r.head), Low(r.tail))
  }

  function BytesNow(r: Ring): nat {
    CountBytes(Low(|r.bytes|), Low(r.head), Low(r.tail))
  }

  function Write(r: Ring, at: nat, b: Byte): Ring {
    if at < |r.bytes| then r.(bytes := r.bytes[at := b]) else r
  }

  function Read(r: Ring, at: nat): Byte {
    if at < |r.bytes| then r.bytes[at] else 0
  }

  predicate Sendable(isMessage: bool, data: seq<Byte>) {
    |data| < WRAP && (isMessage ==> |data| + LENGTH_BYTES < WRAP)
  }

  function LengthBytes(isMessage: bool): nat {
    if isMessage then LENGTH_BYTES else 0
  }

  /** What to copy, once the space is known. */
  function Decide(s: State, data: seq<Byte>, space: nat): Writer {
    if s.isMessage then
      if |data| + LENGTH_BYTES <= space && Sendable(true, data) then Writing(data, Frame(data), 0) else Idle
    else
      var n := Min(|data|, space);
      if n == 0 then Idle else Writing(data, data[..n], 0)
  }

  function WriterNext(s: State, wait: bool): State {
    match s.writer
    case Idle => s
    case Asking(data) => s.(writer := TailRead(data, s.ring.tail))
    case TailRead(data, original) => s.(writer := SpaceRead(data, original, SpacesNow(s.ring)))
    case SpaceRead(data, original, space) =>
      if s.ring.tail != original || wait then s.(writer := Asking(data)) else s.(writer := Decide(s, data, space))
    case Writing(data, chunk, copied) =>
      if copied < |chunk| then CopyOne(s, data, chunk, copied) else Publish(s, data, chunk)
  }

  /** One byte is copied behind the head. */
  function CopyOne(s: State, data: seq<Byte>, chunk: seq<Byte>, copied: nat): State
    requires copied < |chunk|
  {
    s.(ring := Write(s.ring, Wrap(s.ring, s.ring.head + copied), chunk[copied]), writer := Writing(data, chunk, copied + 1))
  }

  /** The head moves over the whole chunk at once, but not for an empty message. */
  function Publish(s: State, data: seq<Byte>, chunk: seq<Byte>): State {
    if s.isMessage && !(0 < |data| < WRAP) then s.(writer := Idle)
    else
      s.(ring := s.ring.(head := Wrap(s.ring, s.ring.head + |chunk|)), writer := Idle,
         sent := if s.isMessage then s.sent else s.sent + chunk,
         accepted := if s.isMessage then s.accepted + [data] else s.accepted)
  }

  function StartReading(skip: nat, count: nat): Reader {
    if count == 0 then Resting else Reading(skip, count, [])
  }

  function ReceiveNext(s: State, room: nat): State {
    var available := BytesNow(s.ring);
    if available <= LengthBytes(s.isMessage) then s
    else if s.isMessage then s.(reader := ReadingLength(room, available, []))
    else s.(reader := StartReading(0, Min(room, available)))
  }

  /** The reader's next step, while it leaves the ring alone. */
  function ReadOn(r: Ring, reader: Reader): Reader {
    match reader
    case Resting => reader
    case ReadingLength(room, available, got) =>
      if |got| < LENGTH_BYTES then ReadingLength(room, available, got + [Read(r, Wrap(r, r.tail + |got|))])
      else if |got| != LENGTH_BYTES || available < LENGTH_BYTES then reader
      else
        var n := DecodeLength(got);
        StartReading(LENGTH_BYTES, Min(if n > room then 0 else n, available - LENGTH_BYTES))
    case Reading(skip, count, got) =>
      if |got| < count then Reading(skip, count, got + [Read(r, Wrap(r, r.tail + (skip + |got|)))]) else Resting
  }

  predicate ReadAll(reader: Reader) {
    reader.Reading? && |reader.got| >= reader.count
  }

  /** The tail moves over all that was read. */
  function ReaderNext(s: State): State {
    var s' := s.(reader := ReadOn(s.ring, s.reader));
    if ReadAll(s.reader) then
      var Reading(skip, count, got) := s.reader;
      s'.(ring := s.ring.(tail := Wrap(s.ring, s.ring.tail + (skip + count))),
          received := if s.isMessage then s.received else s.received + got,
          delivered := if s.isMessage && 0 < |got| < WRAP then s.delivered + [got] else s.delivered)
    else s'
  }

  function Step(s: State, a: Action): State {
    match a
    case Send(data) => if s.writer.Idle? && Sendable(s.isMessage, data) then s.(writer := Asking(data)) else s
    case WriterStep(wait) => WriterNext(s, wait)
    case Receive(room) => if s.reader.Resting? then ReceiveNext(s, room) else s
    case ReaderStep => ReaderNext(s)
  }

  function Exec(s: State, run: seq<Action>): State
    decreases |run|
  {
    if run == [] then s else Exec(Step(s, run[0]), run[1..])
  }

  // ---------- Invariants ----------

  ghost predicate RingOk(r: Ring) {
    r.Valid() && |r.bytes| <= MAX_LENGTH
  }

  ghost predicate WriterOk(r: Ring, isMessage: bool, w: Writer)
    requires r.Valid()
  {
    match w
    case Idle => true
    case Asking(data) => Sendable(isMessage, data)
    case TailRead(data, _) => Sendable(isMessage, data)
    case SpaceRead(data, _, space) => Sendable(isMessage, data) && space <= Spaces(r)
    case Writing(data, chunk, copied) =>
      && Sendable(isMessage, data) && copied <= |chunk| <= Spaces(r) && Staged(r, chunk[..copied])
      && (if isMessage then chunk == Frame(data) else 0 < |chunk| <= |data| && chunk == data[..|chunk|])
  }

  ghost predicate ReaderOk(r: Ring, isMessage: bool, reader: Reader)
    requires r.Valid()
  {
    match reader
    case Resting => true
    case ReadingLength(_, available, got) =>
      && isMessage && LENGTH_BYTES < available <= Bytes(r) && |got| <= LENGTH_BYTES && got == Unread(r)[..|got|]
      && LENGTH_BYTES + DecodeLength(Unread(r)[..LENGTH_BYTES]) <= available
    case Reading(skip, count, got) =>
      && skip == LengthBytes(isMessage) && 0 < count && skip + count <= Bytes(r)
      && |got| <= count && got == Unread(r)[skip..skip + |got|]
      && (isMessage ==> DecodeLength(Unread(r)[..LENGTH_BYTES]) == count)
  }

  /** The messages that are in the buffer. */
  function Pending(s: State): seq<Message> {
    if |s.delivered| <= |s.accepted| then s.accepted[|s.delivered|..] else []
  }

  ghost predicate LogOk(s: State)
    requires s.ring.Valid()
  {
    if s.isMessage then s.delivered <= s.accepted && Unread(s.ring) == Frames(Pending(s))
    else s.sent == s.received + Unread(s.ring)
  }

  ghost predicate Inv(s: State) {
    && RingOk(s.ring) && WriterOk(s.ring, s.isMessage, s.writer) && ReaderOk(s.ring, s.isMessage, s.reader) && LogOk(s)
  }

  /** An empty buffer that nobody uses yet. */
  predicate Init(s: State) {
    && s.ring.Valid() && |s.ring.bytes| <= MAX_LENGTH && s.ring.head == s.ring.tail
    && s.writer == Idle && s.reader == Resting && s.sent == [] && s.received == [] && s.accepted == [] && s.delivered == []
  }

  lemma InitInv(s: State)
    requires Init(s)
    ensures Inv(s)
  {}

  lemma NowExact(r: Ring)
    requires RingOk(r)
    ensures BytesNow(r) == Bytes(r) && SpacesNow(r) == Spaces(r)
  {
    LowSmall(|r.bytes|);
    LowSmall(r.head);
    LowSmall(r.tail);
    CountsExact(r);
  }

  lemma LowSmall(x: nat)
    requires x < WRAP
    ensures Low(x) == x
  {}

  // ---------- The writer's steps ----------

  /** One byte more is staged. */
  lemma WriteOne(r: Ring, chunk: seq<Byte>, copied: nat)
    requires RingOk(r) && copied < |chunk| <= Spaces(r) && Staged(r, chunk[..copied])
    ensures var r' := Write(r, Wrap(r, r.head + copied), chunk[copied]);
            RingOk(r') && |r'.bytes| == |r.bytes| && Unread(r') == Unread(r) && Staged(r', chunk[..copied + 1])
  {
    var r' := Write(r, Wrap(r, r.head + copied), chunk[copied]);
    assert WrittenAt(r, r', Wrap(r, r.head + copied), [chunk[copied]]);
    assert chunk[..copied] + [chunk[copied]] == chunk[..copied + 1];
    StageMore(r, r', chunk[..copied], [chunk[copied]]);
  }

  /** More unread bytes at the end do not disturb a reader. */
  lemma ReaderUndisturbed(r: Ring, r': Ring, isMessage: bool, reader: Reader, more: seq<Byte>)
    requires r.Valid() && r'.Valid() && ReaderOk(r, isMessage, reader) && Unread(r') == Unread(r) + more
    ensures ReaderOk(r', isMessage, reader)
  {
    match reader
    case Resting =>
    case ReadingLength(_, _, got) => assert Unread(r')[..|got|] == Unread(r)[..|got|];
    case Reading(skip, _, got) =>
      assert Unread(r')[skip..skip + |got|] == Unread(r)[skip..skip + |got|];
      if isMessage { assert Unread(r')[..LENGTH_BYTES] == Unread(r)[..LENGTH_BYTES]; }
  }

  lemma PublishKeeps(s: State, data: seq<Byte>, chunk: seq<Byte>)
    requires Inv(s) && s.writer == Writing(data, chunk, |chunk|)
    ensures Inv(Publish(s, data, chunk))
    ensures Unread(Publish(s, data, chunk).ring) == Unread(s.ring) + if s.isMessage && data == [] then [] else chunk
  {
    var s' := Publish(s, data, chunk);
    if s.isMessage && data == [] {
      assert s' == s.(writer := Idle);
      assert Unread(s.ring) + [] == Unread(s.ring);
    } else {
      assert s'.ring == s.ring.(head := Wrap(s.ring, s.ring.head + |chunk|)) && s'.reader == s.reader && s'.writer == Idle;
      assert chunk[..|chunk|] == chunk;
      Published(s.ring, chunk);
      ReaderUndisturbed(s.ring, s'.ring, s.isMessage, s.reader, chunk);
      PublishLog(s, data, chunk);
    }
  }

  lemma PublishLog(s: State, data: seq<Byte>, chunk: seq<Byte>)
    requires Inv(s) && s.writer == Writing(data, chunk, |chunk|) && !(s.isMessage && data == [])
    requires var r' := Publish(s, data, chunk).ring; r'.Valid() && Unread(r') == Unread(s.ring) + chunk
    ensures LogOk(Publish(s, data, chunk))
  {
    if s.isMessage {
      assert Pending(Publish(s, data, chunk)) == Pending(s) + [data];
      FramesAppend(Pending(s), data);
    } else {
      assert s.sent + chunk == s.received + (Unread(s.ring) + chunk);
    }
  }

  lemma CopyKeeps(s: State, data: seq<Byte>, chunk: seq<Byte>, copied: nat)
    requires Inv(s) && s.writer == Writing(data, chunk, copied) && copied < |chunk|
    ensures var s' := CopyOne(s, data, chunk, copied); Inv(s') && Unread(s'.ring) == Unread(s.ring)
  {
    CopyOk(s.ring, s.isMessage, s.writer);
    SameUnread(s, CopyOne(s, data, chunk, copied).ring, Writing(data, chunk, copied + 1));
  }

  lemma CopyOk(r: Ring, isMessage: bool, w: Writer)
    requires RingOk(r) && WriterOk(r, isMessage, w) && w.Writing? && w.copied < |w.chunk|
    ensures var r' := Write(r, Wrap(r, r.head + w.copied), w.chunk[w.copied]);
            RingOk(r') && Unread(r') == Unread(r) && WriterOk(r', isMessage, w.(copied := w.copied + 1))
  {
    WriteOne(r, w.chunk, w.copied);
  }

  lemma SameUnread(s: State, r': Ring, w: Writer)
    requires Inv(s) && RingOk(r') && Unread(r') == Unread(s.ring) && WriterOk(r', s.isMessage, w)
    ensures Inv(s.(ring := r', writer := w))
  {
    assert Unread(s.ring) + [] == Unread(s.ring);
    ReaderUndisturbed(s.ring, r', s.isMessage, s.reader, []);
  }

  lemma DecideOk(s: State, data: seq<Byte>, space: nat)
    requires RingOk(s.ring) && Sendable(s.isMessage, data) && space <= Spaces(s.ring)
    ensures WriterOk(s.ring, s.isMessage, Decide(s, data, space))
  {}

  lemma WriterKeeps(s: State, wait: bool)
    requires Inv(s)
    ensures Inv(WriterNext(s, wait)) && Unread(s.ring) <= Unread(WriterNext(s, wait).ring)
  {
    match s.writer
    case Idle =>
    case Asking(_) =>
    case TailRead(_, _) => NowExact(s.ring);
    case SpaceRead(data, _, space) => DecideOk(s, data, space);
    case Writing(data, chunk, copied) =>
      if copied < |chunk| { CopyKeeps(s, data, chunk, copied); } else { PublishKeeps(s, data, chunk); }
  }

  // ---------- The reader's steps ----------

  lemma ReceiveKeeps(s: State, room: nat)
    requires Inv(s) && s.reader.Resting?
    ensures Inv(ReceiveNext(s, room)) && ReceiveNext(s, room).ring == s.ring
  {
    NowExact(s.ring);
    if s.isMessage && LENGTH_BYTES < Bytes(s.ring) { LengthRead(s); }
  }

  /** A byte read from the ring is the next unread byte. */
  lemma ReadOne(r: Ring, from: nat, got: seq<Byte>)
    requires r.Valid() && from + |got| < Bytes(r) && got == Unread(r)[from..from + |got|]
    ensures got + [Read(r, Wrap(r, r.tail + (from + |got|)))] == Unread(r)[from..from + |got| + 1]
  {
    assert Unread(r)[from + |got|] == Cell(r, from + |got|);
  }

  /** The length that was read is the length of the first pending message. */
  lemma LengthRead(s: State)
    requires s.ring.Valid() && LogOk(s) && s.isMessage && LENGTH_BYTES < Bytes(s.ring)
    ensures Pending(s) != [] && DecodeLength(Unread(s.ring)[..LENGTH_BYTES]) == |Pending(s)[0]|
    ensures LENGTH_BYTES + |Pending(s)[0]| <= Bytes(s.ring)
  {
    FramesSize(Pending(s));
    FirstFrame(Pending(s));
  }

  lemma ReadOnOk(r: Ring, isMessage: bool, reader: Reader)
    requires RingOk(r) && ReaderOk(r, isMessage, reader) && !ReadAll(reader)
    ensures ReaderOk(r, isMessage, ReadOn(r, reader))
  {
    match reader
    case Resting =>
    case ReadingLength(_, _, _) => LengthReadOn(r, isMessage, reader);
    case Reading(_, _, _) => MessageReadOn(r, isMessage, reader);
  }

  lemma LengthReadOn(r: Ring, isMessage: bool, reader: Reader)
    requires RingOk(r) && ReaderOk(r, isMessage, reader) && reader.ReadingLength?
    ensures ReaderOk(r, isMessage, ReadOn(r, reader))
  {
    if |reader.got| < LENGTH_BYTES {
      ReadOne(r, 0, reader.got);
    } else {
      assert reader.got == Unread(r)[..LENGTH_BYTES];
    }
  }

  lemma MessageReadOn(r: Ring, isMessage: bool, reader: Reader)
    requires RingOk(r) && ReaderOk(r, isMessage, reader) && reader.Reading? && |reader.got| < reader.count
    ensures ReaderOk(r, isMessage, ReadOn(r, reader))
  {
    ReadOne(r, reader.skip, reader.got);
  }

  lemma OnlyReader(s: State, reader: Reader)
    requires Inv(s) && ReaderOk(s.ring, s.isMessage, reader)
    ensures Inv(s.(reader := reader))
  {}

  /** The writer's staged bytes stay staged when the tail moves. */
  lemma WriterUndisturbed(s: State, n: nat)
    requires Inv(s) && n <= Bytes(s.ring)
    ensures var r' := s.ring.(tail := Wrap(s.ring, s.ring.tail + n));
            && RingOk(r') && Bytes(r') == Bytes(s.ring) - n && Unread(r') == Unread(s.ring)[n..]
            && WriterOk(r', s.isMessage, s.writer)
  {
    Consumed(s.ring, n, if s.writer.Writing? then s.writer.chunk[..s.writer.copied] else []);
  }

  /** The message that was read is the first one pending, and is pending no more. */
  lemma ConsumeMessage(s: State)
    requires s.ring.Valid() && LogOk(s) && ReaderOk(s.ring, s.isMessage, s.reader) && s.isMessage
    requires s.reader.Reading? && |s.reader.got| == s.reader.count
    ensures var s', n := ReaderNext(s), LENGTH_BYTES + s.reader.count;
            && s.delivered < s.accepted && s'.delivered == s.delivered + [s.accepted[|s.delivered|]]
            && s'.accepted == s.accepted && Unread(s.ring)[n..] == Frames(Pending(s'))
  {
    MessageRead(Unread(s.ring), Pending(s), s.reader.got);
    assert Pending(s)[0] == s.accepted[|s.delivered|] && s.accepted[|s.delivered| + 1..] == Pending(s)[1..];
  }

  lemma MessageRead(unread: seq<Byte>, pending: seq<Message>, got: seq<Byte>)
    requires unread == Frames(pending) && LENGTH_BYTES + |got| <= |unread|
    requires DecodeLength(unread[..LENGTH_BYTES]) == |got| && got == unread[LENGTH_BYTES..LENGTH_BYTES + |got|]
    ensures pending != [] && got == pending[0] && unread[LENGTH_BYTES + |got|..] == Frames(pending[1..])
  {
    FramesSize(pending);
    FirstFrame(pending);
  }

  lemma ConsumeLog(s: State)
    requires Inv(s) && s.reader.Reading? && |s.reader.got| == s.reader.count && ReaderNext(s).ring.Valid()
    requires Unread(ReaderNext(s).ring) == Unread(s.ring)[s.reader.skip + s.reader.count..]
    ensures LogOk(ReaderNext(s))
  {
    if s.isMessage { ConsumeMessages(s); } else { ConsumeStream(s); }
  }

  lemma ConsumeMessages(s: State)
    requires s.ring.Valid() && LogOk(s) && ReaderOk(s.ring, s.isMessage, s.reader) && s.isMessage
    requires s.reader.Reading? && |s.reader.got| == s.reader.count && ReaderNext(s).ring.Valid()
    requires Unread(ReaderNext(s).ring) == Unread(s.ring)[LENGTH_BYTES + s.reader.count..]
    ensures LogOk(ReaderNext(s))
  {
    ConsumeMessage(s);
    assert s.delivered + [s.accepted[|s.delivered|]] <= s.accepted;
  }

  lemma ConsumeStream(s: State)
    requires s.ring.Valid() && LogOk(s) && ReaderOk(s.ring, s.isMessage, s.reader) && !s.isMessage
    requires s.reader.Reading? && |s.reader.got| == s.reader.count && ReaderNext(s).ring.Valid()
    requires Unread(ReaderNext(s).ring) == Unread(s.ring)[s.reader.count..]
    ensures LogOk(ReaderNext(s))
  {
    SplitLog(s.received, Unread(s.ring), s.reader.count);
  }

  lemma ConsumeKeeps(s: State)
    requires Inv(s) && s.reader.Reading? && |s.reader.got| == s.reader.count
    ensures Inv(ReaderNext(s))
    ensures Unread(ReaderNext(s).ring) == Unread(s.ring)[s.reader.skip + s.reader.count..]
  {
    var s', n := ReaderNext(s), s.reader.skip + s.reader.count;
    assert s'.ring == s.ring.(tail := Wrap(s.ring, s.ring.tail + n)) && s'.writer == s.writer && s'.reader == Resting;
    WriterUndisturbed(s, n);
    assert Unread(s'.ring) == Unread(s.ring)[n..];
    ConsumeLog(s);
  }

  lemma SplitLog(received: seq<Byte>, unread: seq<Byte>, n: nat)
    requires n <= |unread|
    ensures received + unread == received + unread[0..n] + unread[n..]
  {}

  lemma ReaderKeeps(s: State)
    requires Inv(s)
    ensures Inv(ReaderNext(s))
    ensures exists n :: 0 <= n <= Bytes(s.ring) && Unread(ReaderNext(s).ring) == Unread(s.ring)[n..]
  {
    assert Unread(s.ring)[0..] == Unread(s.ring);
    if ReadAll(s.reader) {
      ConsumeKeeps(s);
    } else {
      ReadOnOk(s.ring, s.isMessage, s.reader);
      OnlyReader(s, ReadOn(s.ring, s.reader));
    }
  }

  // ---------- Whole runs ----------

  lemma StepKeeps(s: State, a: Action)
    requires Inv(s)
    ensures Inv(Step(s, a))
  {
    match a
    case Send(_) =>
    case WriterStep(wait) => WriterKeeps(s, wait);
    case Receive(room) => if s.reader.Resting? { ReceiveKeeps(s, room); }
    case ReaderStep => ReaderKeeps(s);
  }

  lemma {:induction false} RunKeeps(s: State, run: seq<Action>)
    requires Inv(s)
    ensures Inv(Exec(s, run))
    decreases |run|
  {
    if run != [] {
      StepKeeps(s, run[0]);
      RunKeeps(Step(s, run[0]), run[1..]);
    }
  }

  /**
   No step overwrites an unread byte: the writer only appends to what is unread, the reader only
   takes from its front.
   */
  lemma UnreadNeverOverwritten(s: State, a: Action)
    requires Inv(s)
    ensures Step(s, a).ring.Valid()
    ensures if a.ReaderStep? then exists n :: 0 <= n <= Bytes(s.ring) && Unread(Step(s, a).ring) == Unread(s.ring)[n..]
            else Unread(s.ring) <= Unread(Step(s, a).ring)
  {
    match a
    case Send(_) =>
    case WriterStep(wait) => WriterKeeps(s, wait);
    case Receive(room) => if s.reader.Resting? { ReceiveKeeps(s, room); }
    case ReaderStep => ReaderKeeps(s);
  }

  lemma {:induction false} KindStays(s: State, run: seq<Action>)
    ensures Exec(s, run).isMessage == s.isMessage
    decreases |run|
  {
    if run != [] { KindStays(Step(s, run[0]), run[1..]); }
  }

  /** In every interleaving, what a stream's reader has is a prefix of what its writer sent. */
  lemma ReceivedIsPrefix(s: State, run: seq<Action>)
    requires Init(s) && !s.isMessage
    ensures var e := Exec(s, run); e.ring.Valid() && e.sent == e.received + Unread(e.ring) && e.received <= e.sent
  {
    InitInv(s);
    RunKeeps(s, run);
    KindStays(s, run);
  }

  /**
   In every interleaving, the messages delivered are the first ones accepted, in order and
   whole, and the buffer holds exactly the others, framed.
   */
  lemma DeliveredIsPrefix(s: State, run: seq<Action>)
    requires Init(s) && s.isMessage
    ensures var e := Exec(s, run);
            e.ring.Valid() && e.accepted == e.delivered + Pending(e) && Unread(e.ring) == Frames(Pending(e))
  {
    InitInv(s);
    RunKeeps(s, run);
    KindStays(s, run);
  }

  /** In every state the two counts make up the length less one, and a message buffer is empty or holds more than a length. */
  lemma CountsAlways(s: State, run: seq<Action>)
    requires Init(s)
    ensures var e := Exec(s, run);
            && SpacesNow(e.ring) + BytesNow(e.ring) == |e.ring.bytes| - 1
            && (e.isMessage ==> BytesNow(e.ring) == 0 || BytesNow(e.ring) > LENGTH_BYTES)
  {
    InitInv(s);
    RunKeeps(s, run);
    var e := Exec(s, run);
    NowExact(e.ring);
    if e.isMessage { FramesSize(Pending(e)); }
  }

  /** With too little room for the first message the reader gets nothing and leaves it there. */
  lemma TooSmallLeavesMessage(s: State)
    requires Inv(s) && s.reader.ReadingLength? && |s.reader.got| == LENGTH_BYTES
    ensures Pending(s) != []
    ensures if |Pending(s)[0]| > s.reader.room then ReaderNext(s) == s.(reader := Resting)
            else ReaderNext(s) == s.(reader := Reading(LENGTH_BYTES, |Pending(s)[0]|, []))
  {
    LengthRead(s);
  }

  // ---------- The space that a writer relies on ----------

  /** The bytes between a tail read earlier and the head. */
  function BytesFrom(r: Ring, tail: nat): nat
    requires r.Valid() && tail < |r.bytes|
  {
    Bytes(r.(tail := tail))
  }

  /** The reader only makes room, so a count of the space lies between what was free then and what is free now. */
  predicate SpaceFresh(r: Ring, w: Writer)
    requires r.Valid()
  {
    match w
    case TailRead(_, original) => original < |r.bytes| && Bytes(r) <= BytesFrom(r, original)
    case SpaceRead(_, original, space) =>
      original < |r.bytes| && Bytes(r) <= |r.bytes| - 1 - space <= BytesFrom(r, original)
    case _ => true
  }

  lemma ReaderFresh(s: State)
    requires Inv(s) && SpaceFresh(s.ring, s.writer)
    ensures var s' := ReaderNext(s); s'.ring.Valid() && SpaceFresh(s'.ring, s'.writer)
  {
    if ReadAll(s.reader) {
      var n := s.reader.skip + s.reader.count;
      Consumed(s.ring, n, []);
      assert Bytes(s.ring.(tail := Wrap(s.ring, s.ring.tail + n))) == Bytes(s.ring) - n;
    }
  }

  lemma StepFresh(s: State, a: Action)
    requires Inv(s) && SpaceFresh(s.ring, s.writer)
    ensures Step(s, a).ring.Valid() && SpaceFresh(Step(s, a).ring, Step(s, a).writer)
  {
    StepKeeps(s, a);
    match a
    case WriterStep(_) => NowExact(s.ring);
    case ReaderStep => ReaderFresh(s);
    case _ =>
  }

  lemma {:induction false} RunFresh(s: State, run: seq<Action>)
    requires Inv(s) && SpaceFresh(s.ring, s.writer)
    ensures Inv(Exec(s, run)) && SpaceFresh(Exec(s, run).ring, Exec(s, run).writer)
    decreases |run|
  {
    if run != [] {
      StepKeeps(s, run[0]);
      StepFresh(s, run[0]);
      RunFresh(Step(s, run[0]), run[1..]);
    }
  }

  /**
   In every interleaving: a writer that counted the space counts again if the tail has moved since
   it began, or if it may wait for more. Else it decides on the space that is free at that moment,
   and writes a message whole or not at all, and of a stream what fits.
   */
  lemma DecidesOnCurrentSpace(s: State, run: seq<Action>, wait: bool)
    requires Init(s) && Exec(s, run).writer.SpaceRead?
    ensures var e := Exec(s, run);
            && e.ring.Valid() && Sendable(e.isMessage, e.writer.data) &&
            var data, free, w := e.writer.data, Spaces(e.ring), WriterNext(e, wait).writer;
            && (w == Asking(data) <==> wait || e.writer.original != e.ring.tail)
            && (!wait && e.writer.original == e.ring.tail ==>
                 && e.writer.space == free
                 && (e.isMessage ==> if |data| + LENGTH_BYTES <= free then w == Writing(data, Frame(data), 0) else w == Idle)
                 && (!e.isMessage ==> if data == [] || free == 0 then w == Idle
                                      else exists n :: 0 < n <= |data| && n <= free && (n == |data| || n == free) && w == Writing(data, data[..n], 0)))
  {
    InitInv(s);
    RunFresh(s, run);
    var e := Exec(s, run);
    if e.writer.original == e.ring.tail { assert e.ring.(tail := e.writer.original) == e.ring; }
    var n := Min(|e.writer.data|, Spaces(e.ring));
    assert n == |e.writer.data| || n == Spaces(e.ring);
  }
}
