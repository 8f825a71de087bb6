/** Whole calls of the reader and the writer of a stream or message buffer, each by itself. */
module StreamCalls {
  import opened Wrappers
  import opened Word32
  import opened StreamRing
  import opened StreamProtocol

  function ReaderSteps(s: State, k: nat): State
    decreases k
  {
    if k == 0 then s else ReaderSteps(ReaderNext(s), k - 1)
  }

  function WriterSteps(s: State, k: nat): State
    decreases k
  {
    if k == 0 then s else WriterSteps(WriterNext(s, false), k - 1)
  }

  // ---------- The reader ----------

  /** What the reader still has to deliver when it has read `skip` bytes of a length. */
  ghost predicate Delivers(s: State, e: State, skip: nat, count: nat)
    requires s.ring.Valid() && e.ring.Valid() && skip + count <= Bytes(s.ring)
  {
    var got := Unread(s.ring)[skip..skip + count];
    && e.reader == Resting && e.writer == s.writer && e.isMessage == s.isMessage && Unread(e.ring) == Unread(s.ring)[skip + count..]
    && e.sent == s.sent && e.accepted == s.accepted
    && (if s.isMessage then e.received == s.received && 0 < |got| < WRAP && e.delivered == s.delivered + [got]
        else e.received == s.received + got && e.delivered == s.delivered)
  }

  lemma {:induction false} ReadingFinishes(s: State)
    requires Inv(s) && s.reader.Reading?
    ensures var skip, count := s.reader.skip, s.reader.count;
            var e := ReaderSteps(s, count - |s.reader.got| + 1);
            Inv(e) && Delivers(s, e, skip, count)
    decreases s.reader.count - |s.reader.got|
  {
    if ReadAll(s.reader) {
      LastByteRead(s);
      OneStep(s);
    } else {
      OneByteRead(s);
      ReadingFinishes(ReaderNext(s));
    }
  }

  lemma OneByteRead(s: State)
    requires Inv(s) && s.reader.Reading? && |s.reader.got| < s.reader.count
    ensures var s' := ReaderNext(s);
            && Inv(s') && s' == s.(reader := s'.reader) && s'.reader.Reading? && |s'.reader.got| == |s.reader.got| + 1
            && s'.reader.skip == s.reader.skip && s'.reader.count == s.reader.count
  {
    ReadOnOk(s.ring, s.isMessage, s.reader);
    OnlyReader(s, ReadOn(s.ring, s.reader));
  }

  lemma LastByteRead(s: State)
    requires Inv(s) && s.reader.Reading? && ReadAll(s.reader)
    ensures var s' := ReaderNext(s); Inv(s') && Delivers(s, s', s.reader.skip, s.reader.count)
  {
    ConsumeKeeps(s);
    assert s.reader.got == Unread(s.ring)[s.reader.skip..s.reader.skip + s.reader.count];
  }

  /** A receive from a stream takes the bytes that are there, as many as it has room for. */
  lemma StreamReceives(s: State, room: nat)
    requires Inv(s) && s.reader.Resting? && !s.isMessage
    ensures var n := Min(room, Bytes(s.ring));
            var e := ReaderSteps(Step(s, Receive(room)), n + 1);
            && Inv(e) && e.reader.Resting? && n <= room && n <= Bytes(s.ring) && (n == room || n == Bytes(s.ring))
            && e.received == s.received + Unread(s.ring)[..n] && Unread(e.ring) == Unread(s.ring)[n..]
  {
    var n, s1 := Min(room, Bytes(s.ring)), Step(s, Receive(room));
    NowExact(s.ring);
    ReceiveKeeps(s, room);
    if n == 0 {
      assert s1 == s && ReaderNext(s) == s && ReaderSteps(s, 1) == ReaderSteps(s, 0);
    } else {
      assert s1.reader == Reading(0, n, []);
      ReadingFinishes(s1);
      assert Unread(s.ring)[0..n] == Unread(s.ring)[..n];
    }
  }

  /** The four bytes of a length, and the decision on what they say. */
  lemma {:induction false} LengthIsRead(s: State)
    requires Inv(s) && s.reader.ReadingLength?
    ensures var e := ReaderSteps(s, LENGTH_BYTES - |s.reader.got|);
            && Inv(e) && e == s.(reader := e.reader) && e.reader.ReadingLength? && |e.reader.got| == LENGTH_BYTES
            && e.reader.room == s.reader.room
    decreases LENGTH_BYTES - |s.reader.got|
  {
    if |s.reader.got| < LENGTH_BYTES {
      OneLengthByte(s);
      LengthIsRead(ReaderNext(s));
    }
  }

  lemma OneLengthByte(s: State)
    requires Inv(s) && s.reader.ReadingLength? && |s.reader.got| < LENGTH_BYTES
    ensures var s' := ReaderNext(s);
            && Inv(s') && s' == s.(reader := s'.reader) && s'.reader.ReadingLength? && s'.reader.room == s.reader.room
            && |s'.reader.got| == |s.reader.got| + 1
  {
    ReadOnOk(s.ring, s.isMessage, s.reader);
    OnlyReader(s, ReadOn(s.ring, s.reader));
  }

  lemma {:induction false} StepsTwice(s: State, k: nat, l: nat)
    ensures ReaderSteps(ReaderSteps(s, k), l) == ReaderSteps(s, k + l)
    decreases k
  {
    if k > 0 { StepsTwice(ReaderNext(s), k - 1, l); }
  }

  /** The length read, the reader goes on to the message or leaves it. */
  lemma LengthDecides(s: State, room: nat)
    requires Inv(s) && s.reader.Resting? && s.isMessage && Pending(s) != []
    ensures var n := |Pending(s)[0]|;
            var e := ReaderSteps(Step(s, Receive(room)), LENGTH_BYTES + 1);
            Inv(e) && e == if n > room then s else s.(reader := Reading(LENGTH_BYTES, n, []))
  {
    var s1 := Step(s, Receive(room));
    LengthKnown(s, room);
    Decision(s, ReaderSteps(s1, LENGTH_BYTES), room);
    StepsTwice(s1, LENGTH_BYTES, 1);
    OneStep(ReaderSteps(s1, LENGTH_BYTES));
  }

  lemma LengthKnown(s: State, room: nat)
    requires Inv(s) && s.reader.Resting? && s.isMessage && Pending(s) != []
    ensures var s2 := ReaderSteps(Step(s, Receive(room)), LENGTH_BYTES);
            && Inv(s2) && s2 == s.(reader := s2.reader) && s2.reader.ReadingLength? && |s2.reader.got| == LENGTH_BYTES && s2.reader.room == room
  {
    StartsLength(s, room);
    LengthIsRead(Step(s, Receive(room)));
  }

  lemma Decision(s: State, s2: State, room: nat)
    requires Inv(s) && s.reader.Resting? && Inv(s2) && s2 == s.(reader := s2.reader)
    requires s2.reader.ReadingLength? && |s2.reader.got| == LENGTH_BYTES && s2.reader.room == room
    ensures Pending(s) != [] && Inv(ReaderNext(s2))
    ensures var n := |Pending(s)[0]|; ReaderNext(s2) == if n > room then s else s.(reader := Reading(LENGTH_BYTES, n, []))
  {
    assert Pending(s2) == Pending(s);
    TooSmallLeavesMessage(s2);
    ReaderKeeps(s2);
  }

  lemma OneStep(s: State)
    ensures ReaderSteps(s, 1) == ReaderNext(s)
  {
    assert ReaderSteps(ReaderNext(s), 0) == ReaderNext(s);
  }

  /**
   A receive from a message buffer gets the first message whole if it has room for it, else nothing,
   and then the message stays.
   */
  lemma MessageReceives(s: State, room: nat)
    requires Inv(s) && s.reader.Resting? && s.isMessage && Pending(s) != []
    ensures var n := |Pending(s)[0]|;
            var e := ReaderSteps(Step(s, Receive(room)), LENGTH_BYTES + 1 + (n + 1));
            && Inv(e) && e.reader.Resting?
            && (if n <= room then e.delivered == s.delivered + [Pending(s)[0]] && Pending(e) == Pending(s)[1..]
                else e.delivered == s.delivered && Pending(e) == Pending(s))
  {
    var n, s1 := |Pending(s)[0]|, Step(s, Receive(room));
    LengthDecides(s, room);
    StepsTwice(s1, LENGTH_BYTES + 1, n + 1);
    if n <= room { MessageIsRead(s, n); } else { RestingStays(s, n + 1); }
  }

  lemma {:induction false} RestingStays(s: State, k: nat)
    requires s.reader.Resting?
    ensures ReaderSteps(s, k) == s
    decreases k
  {
    if k > 0 {
      assert ReaderNext(s) == s;
      RestingStays(s, k - 1);
    }
  }

  lemma MessageIsRead(s: State, n: nat)
    requires Inv(s) && s.reader.Resting? && s.isMessage && Pending(s) != [] && n == |Pending(s)[0]|
    requires Inv(s.(reader := Reading(LENGTH_BYTES, n, [])))
    ensures var e := ReaderSteps(s.(reader := Reading(LENGTH_BYTES, n, [])), n + 1);
            Inv(e) && e.reader.Resting? && e.delivered == s.delivered + [Pending(s)[0]] && Pending(e) == Pending(s)[1..]
  {
    var s3 := s.(reader := Reading(LENGTH_BYTES, n, []));
    ReadingFinishes(s3);
    FirstPending(s, s3, n);
  }

  lemma StartsLength(s: State, room: nat)
    requires Inv(s) && s.reader.Resting? && s.isMessage && Pending(s) != []
    ensures var s1 := Step(s, Receive(room));
            Inv(s1) && s1 == s.(reader := ReadingLength(room, Bytes(s.ring), []))
  {
    NowExact(s.ring);
    FramesSize(Pending(s));
    ReceiveKeeps(s, room);
  }

  lemma FirstPending(s: State, s3: State, n: nat)
    requires Inv(s) && s.isMessage && Pending(s) != [] && n == |Pending(s)[0]| && s3 == s.(reader := s3.reader)
    ensures LENGTH_BYTES + n <= Bytes(s.ring) && Unread(s.ring)[LENGTH_BYTES..LENGTH_BYTES + n] == Pending(s)[0]
    ensures s.accepted[|s.delivered| + 1..] == Pending(s)[1..] && |s.delivered| < |s.accepted|
  {
    FirstFrame(Pending(s));
  }

  // ---------- The writer ----------

  /** What a writer with this chunk does to the buffer. */
  ghost predicate Shows(s: State, e: State, data: seq<Byte>, chunk: seq<Byte>)
    requires s.ring.Valid() && e.ring.Valid()
  {
    && e.writer == Idle && e.reader == s.reader && e.isMessage == s.isMessage
    && Unread(e.ring) == (if s.isMessage && data == [] then Unread(s.ring) else Unread(s.ring) + chunk)
    && (!s.isMessage ==> e.sent == s.sent + chunk)
    && (s.isMessage ==> if data == [] then e.accepted == s.accepted else |data| < WRAP && e.accepted == s.accepted + [data])
  }

  lemma {:induction false} BytesCopied(s: State, k: nat)
    requires Inv(s) && s.writer.Writing? && s.writer.copied + k <= |s.writer.chunk|
    ensures var e := WriterSteps(s, k);
            && Inv(e) && e.writer == s.writer.(copied := s.writer.copied + k) && Unread(e.ring) == Unread(s.ring)
            && e == s.(ring := e.ring, writer := e.writer)
    decreases k
  {
    if k > 0 {
      ByteCopied(s);
      BytesCopied(WriterNext(s, false), k - 1);
    }
  }

  lemma {:induction false} LastMove(s: State, k: nat)
    ensures WriterSteps(s, k + 1) == WriterNext(WriterSteps(s, k), false)
    decreases k
  {
    if k > 0 { LastMove(WriterNext(s, false), k - 1); }
  }

  /** Once it has decided, the writer copies its chunk behind the unread bytes and then shows it whole. */
  lemma WritingFinishes(s: State)
    requires Inv(s) && s.writer.Writing?
    ensures var e := WriterSteps(s, |s.writer.chunk| - s.writer.copied + 1);
            Inv(e) && Shows(s, e, s.writer.data, s.writer.chunk)
  {
    var left := |s.writer.chunk| - s.writer.copied;
    BytesCopied(s, left);
    LastMove(s, left);
    ChunkShown(WriterSteps(s, left));
  }

  lemma ByteCopied(s: State)
    requires Inv(s) && s.writer.Writing? && s.writer.copied < |s.writer.chunk|
    ensures var s' := WriterNext(s, false);
            && Inv(s') && s'.writer == s.writer.(copied := s.writer.copied + 1) && Unread(s'.ring) == Unread(s.ring)
            && s' == s.(ring := s'.ring, writer := s'.writer)
  {
    CopyKeeps(s, s.writer.data, s.writer.chunk, s.writer.copied);
  }

  lemma ChunkShown(s: State)
    requires Inv(s) && s.writer.Writing? && s.writer.copied == |s.writer.chunk|
    ensures var s' := WriterNext(s, false); Inv(s') && Shows(s, s', s.writer.data, s.writer.chunk)
  {
    PublishKeeps(s, s.writer.data, s.writer.chunk);
    assert Unread(s.ring) + [] == Unread(s.ring);
  }
}
