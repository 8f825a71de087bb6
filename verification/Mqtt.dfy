/**
 The PUBLISH packet of mqtt_client.c, written and read. The length codec is the variable byte
 integer of section 1.5.5 of MQTT Version 5.0. Topic and message are given without their final
 NUL; a plain char is an unsigned byte, as in the ABI of the target.
 */
module Mqtt {
  import opened Wrappers
  import opened Word32

  // ---------- Remaining length ----------

  /** The largest value that four bytes of the codec can hold. */
  const MAX_REMAINING: nat := 268435455

  function RemainingLength(n: nat): (bytes: seq<Byte>)
    ensures |bytes| > 0 && bytes[|bytes| - 1] < 128
    ensures forall i :: 0 <= i < |bytes| - 1 ==> 128 <= bytes[i]
  {
    if n < 128 then [n] else [n % 128 + 128] + RemainingLength(n / 128)
  }

  /** The decoder of the standard: seven bits a byte, least significant first. */
  function DecodeRemaining(bytes: seq<Byte>): nat
    requires bytes != []
  {
    if bytes[0] < 128 || |bytes| == 1 then bytes[0] else bytes[0] - 128 + 128 * DecodeRemaining(bytes[1..])
  }

  lemma {:induction false} RemainingRoundTrip(n: nat, rest: seq<Byte>)
    ensures DecodeRemaining(RemainingLength(n) + rest) == n
  {
    if n < 128 {
      assert (RemainingLength(n) + rest)[0] == n;
    } else {
      RemainingRoundTrip(n / 128, rest);
      assert (RemainingLength(n) + rest)[1..] == RemainingLength(n / 128) + rest;
    }
  }

  function Power(n: nat): (p: nat)
    ensures p > 0
  {
    if n == 0 then 1 else 128 * Power(n - 1)
  }

  /** The number of bytes is told by the powers of 128 around the value. */
  lemma {:induction false} RemainingSize(value: nat, n: nat)
    requires 0 < n && value < Power(n) && (n > 1 ==> Power(n - 1) <= value)
    ensures |RemainingLength(value)| == n
  {
    if n == 1 {
      assert Power(1) == 128 * Power(0);
    } else {
      assert Power(n) == 128 * Power(n - 1) && Power(n - 1) == 128 * Power(n - 2);
      PowerAtLeast(n - 1);
      RemainingSize(value / 128, n - 1);
    }
  }

  lemma {:induction false} PowerAtLeast(n: nat)
    requires 0 < n
    ensures 128 <= Power(n)
  {
    if n > 1 { PowerAtLeast(n - 1); }
  }

  lemma DivPositive(a: nat, b: nat)
    requires 0 < b
    ensures a / b > 0 <==> b <= a
  {
    if a < b { assert a / b == 0; } else { assert a / b >= 1; }
  }

  /** The loop over powers that sizes the packet finds the number of bytes that will be written. */
  method CountLengthBytes(value: nat) returns (n: nat)
    requires value <= MAX_REMAINING
    ensures n == |RemainingLength(value)| && 1 <= n <= 4
  {
    n := 1;
    var power := 128;
    assert Power(1) == 128 * Power(0);
    while value / power > 0
      invariant 1 <= n <= 4 && power == Power(n) && (n > 1 ==> Power(n - 1) <= value)
      decreases 4 - n
    {
      DivPositive(value, power);
      assert Power(4) == 128 * Power(3) && Power(3) == 128 * Power(2) && Power(2) == 128 * Power(1);
      n := n + 1;
      power := 128 * power;
    }
    DivPositive(value, power);
    RemainingSize(value, n);
  }

  // ---------- The packet ----------

  const HEADER: Byte := 0x30
  const PUBLISH_MIN_SIZE: nat := 5
  const FIXED_HEADER_MIN_SIZE: nat := 2

  function High(n: nat): Byte {
    n / 256 % 256
  }

  function LowByte(n: nat): Byte {
    n % 256
  }

  /** What follows the remaining length: topic, properties and message. */
  function Body(topic: seq<Byte>, properties: seq<Byte>, message: seq<Byte>): (b: seq<Byte>)
    ensures |b| == 3 + |topic| + |properties| + |message|
  {
    [High(|topic|), LowByte(|topic|)] + topic + [LowByte(|properties|)] + properties + message
  }

  function Packet(topic: seq<Byte>, properties: seq<Byte>, message: seq<Byte>): seq<Byte> {
    var body := Body(topic, properties, message);
    [HEADER] + RemainingLength(|body|) + body
  }

  /** The next byte of the length, and what is left of it. */
  lemma NextLengthByte(bytes: seq<Byte>, i: nat, left: nat)
    requires i < |bytes| && bytes[i..] == RemainingLength(left)
    ensures left / 128 == 0 ==> bytes[i] == left % 128 && i + 1 == |bytes|
    ensures left / 128 > 0 ==> bytes[i] == left % 128 + 128 && i + 1 < |bytes| && bytes[i + 1..] == RemainingLength(left / 128)
  {
    assert bytes[i] == bytes[i..][0] && bytes[i + 1..] == bytes[i..][1..];
  }

  /** The body of the loop: seven bits, and the top bit if more follow. */
  method WriteDigit(packet: array<Byte>, at: nat, left: nat) returns (rest: nat)
    requires at < packet.Length
    modifies packet
    ensures rest == left / 128
    ensures packet[..] == old(packet[..])[at := if left / 128 == 0 then left % 128 else left % 128 + 128]
  {
    packet[at] := left % 128;
    rest := left / 128;
    if rest > 0 { packet[at] := packet[at] + 128; }
  }

  /** The bytes `data` in the place of those from position `at` on. */
  function Placed(packet: seq<Byte>, at: nat, data: seq<Byte>): seq<Byte>
    requires at + |data| <= |packet|
  {
    packet[..at] + data + packet[at + |data|..]
  }

  lemma PlacedMore(packet: seq<Byte>, at: nat, data: seq<Byte>, i: nat)
    requires i < |data| && at + |data| <= |packet|
    ensures Placed(packet, at, data[..i])[at + i := data[i]] == Placed(packet, at, data[..i + 1])
  {
    assert data[..i + 1] == data[..i] + [data[i]];
  }

  /** The loop that all four packet writers share: the packet's length field, from byte 1 on. */
  method WriteRemaining(packet: array<Byte>, value: nat) returns (i: nat)
    requires |RemainingLength(value)| < packet.Length
    modifies packet
    ensures i + 1 == |RemainingLength(value)|
    ensures packet[..] == Placed(old(packet[..]), 1, RemainingLength(value))
  {
    ghost var bytes, before := RemainingLength(value), packet[..];
    var left := value;
    i := 0;
    while true
      invariant i < |bytes| && bytes[i..] == RemainingLength(left)
      invariant packet[..] == Placed(before, 1, bytes[..i])
      decreases left
    {
      NextLengthByte(bytes, i, left);
      PlacedMore(before, 1, bytes, i);
      left := WriteDigit(packet, 1 + i, left);
      if left == 0 { break; }
      i := i + 1;
    }
    assert bytes[..i + 1] == bytes;
  }

  /** The bytes stand in the packet from position `at` on. */
  ghost predicate Holds(packet: seq<Byte>, at: nat, data: seq<Byte>) {
    at + |data| <= |packet| && forall k :: 0 <= k < |data| ==> data[k] == packet[at + k]
  }

  /** A copying loop. */
  method CopyBytes(packet: array<Byte>, at: nat, data: seq<Byte>) returns (j: nat)
    requires at + |data| <= packet.Length
    modifies packet
    ensures j == |data| && forall k :: 0 <= k < |data| ==> data[k] == packet[at + k]
    ensures forall k :: 0 <= k < packet.Length && !(at <= k < at + |data|) ==> packet[k] == old(packet[k])
  {
    j := 0;
    while j < |data|
      invariant j <= |data| && forall k :: 0 <= k < j ==> data[k] == packet[at + k]
      invariant forall k :: 0 <= k < packet.Length && !(at <= k < at + |data|) ==> packet[k] == old(packet[k])
    {
      packet[at + j] := data[j];
      j := j + 1;
    }
  }

  lemma Grow(packet: seq<Byte>, at: nat, front: seq<Byte>, data: seq<Byte>)
    requires at <= |packet| && packet[..at] == front && Holds(packet, at, data)
    ensures packet[..at + |data|] == front + data
  {}

  lemma Regroup(h: seq<Byte>, r: seq<Byte>, a: seq<Byte>, t: seq<Byte>, p: seq<Byte>, q: seq<Byte>, m: seq<Byte>)
    ensures h + r + a + t + p + q + m == h + r + (a + t + p + q + m)
  {}

  /** The pieces, one after the other, are the packet. */
  lemma Assembled(packet: seq<Byte>, topic: seq<Byte>, properties: seq<Byte>, message: seq<Byte>)
    requires var r, t, p := RemainingLength(3 + |topic| + |properties| + |message|), |topic|, |properties|;
             && |packet| == 4 + |r| + t + p + |message|
             && packet[0] == HEADER && Holds(packet, 1, r) && Holds(packet, 1 + |r|, [High(t), LowByte(t)])
             && Holds(packet, 3 + |r|, topic) && Holds(packet, 3 + |r| + t, [LowByte(p)])
             && Holds(packet, 4 + |r| + t, properties) && Holds(packet, 4 + |r| + t + p, message)
    ensures packet == Packet(topic, properties, message)
  {
    var r, t, p := RemainingLength(3 + |topic| + |properties| + |message|), |topic|, |properties|;
    var a, b := [High(t), LowByte(t)], [LowByte(p)];
    assert packet[..1] == [HEADER];
    Grow(packet, 1, [HEADER], r);
    Grow(packet, 1 + |r|, [HEADER] + r, a);
    Grow(packet, 3 + |r|, [HEADER] + r + a, topic);
    Grow(packet, 3 + |r| + t, [HEADER] + r + a + topic, b);
    Grow(packet, 4 + |r| + t, [HEADER] + r + a + topic + b, properties);
    Grow(packet, 4 + |r| + t + p, [HEADER] + r + a + topic + b + properties, message);
    Regroup([HEADER], r, a, topic, b, properties, message);
    assert packet[..|packet|] == packet;
  }

  /** The packet up to and with the topic length. */
  method WriteHead(packet: array<Byte>, value: nat, t: nat) returns (i: nat)
    requires |RemainingLength(value)| + 3 <= packet.Length
    modifies packet
    ensures i + 1 == |RemainingLength(value)| && packet[0] == HEADER && packet[2 + i] == High(t) && packet[3 + i] == LowByte(t)
    ensures forall k :: 0 <= k <= i ==> RemainingLength(value)[k] == packet[1 + k]
  {
    packet[0] := HEADER;
    i := WriteRemaining(packet, value);
    assert packet[..][1..1 + (i + 1)] == RemainingLength(value);
    packet[2 + i] := High(t);
    packet[3 + i] := LowByte(t);
  }

  /** Topic, empty properties and message. */
  method WriteTail(packet: array<Byte>, at: nat, topic: seq<Byte>, message: seq<Byte>)
    requires packet.Length == at + |topic| + 1 + |message|
    modifies packet
    ensures forall k :: 0 <= k < at ==> packet[k] == old(packet[k])
    ensures Holds(packet[..], at, topic) && packet[at + |topic|] == 0 && Holds(packet[..], at + |topic| + 1, message)
  {
    var j := CopyBytes(packet, at, topic);
    packet[at + j] := 0;
    var _ := CopyBytes(packet, at + 1 + j, message);
  }

  /** `MQTT_Write_PUBLISH` up to the sending: the packet is filled exactly, byte for byte. */
  method WritePublish(topic: seq<Byte>, message: seq<Byte>) returns (packet: array<Byte>)
    requires PUBLISH_MIN_SIZE - FIXED_HEADER_MIN_SIZE + |topic| + |message| <= MAX_REMAINING
    ensures fresh(packet) && packet[..] == Packet(topic, [], message)
  {
    var n := CountLengthBytes(PUBLISH_MIN_SIZE - FIXED_HEADER_MIN_SIZE + |topic| + |message|);
    var length := PUBLISH_MIN_SIZE + (n - 1) + |topic| + |message|;
    packet := new Byte[length](_ => 0);
    var i := WriteHead(packet, length - FIXED_HEADER_MIN_SIZE - (n - 1), |topic|);
    WriteTail(packet, 4 + i, topic, message);
    Assembled(packet[..], topic, [], message);
  }

  // ---------- Reading it ----------

  /** The last byte of the length field: the first one without the top bit. */
  function LengthFieldEnd(packet: seq<Byte>, n: nat): (end: nat)
    requires n < |packet|
    ensures n <= end < |packet|
    decreases |packet| - n
  {
    if packet[n] < 128 || n + 1 == |packet| then n else LengthFieldEnd(packet, n + 1)
  }

  /** `MQTT_Read_PUBLISH` weights the high byte of the topic length by 128. */
  function TopicLengthRead(high: Byte, low: Byte): nat {
    128 * (high as nat) + low as nat
  }

  /** Its subtractions, on 32-bit words: header, length field, topic length, topic and properties. */
  function Subtracted(ret: Tick, n: Tick, t: Tick, p: Tick): Tick {
    Sub(Sub(Sub(Sub(Sub(Sub(ret, 1), n), 2), t), 1), p)
  }

  /** The message length that it computes, if what it reads is in the packet. */
  function LengthRead(packet: seq<Byte>): Option<Tick> {
    if |packet| < 2 || WRAP <= |packet| then None
    else
      var n := LengthFieldEnd(packet, 1);
      if |packet| < n + 3 then None
      else
        var t := TopicLengthRead(packet[n + 1], packet[n + 2]);
        if |packet| <= n + t + 3 then None else Some(Subtracted(|packet|, n, t, packet[n + t + 3]))
  }

  /** The length of the message, by subtraction. */
  method MessageLength(buf: array<Byte>, ret: nat) returns (length: nat)
    requires ret <= buf.Length && LengthRead(buf[..ret]).Some?
    ensures length == LengthRead(buf[..ret]).value
  {
    ghost var packet := buf[..ret];
    var n := 1;
    while buf[n] >= 128
      invariant 1 <= n < ret && LengthFieldEnd(packet, n) == LengthFieldEnd(packet, 1)
      invariant n + 1 == ret ==> LengthFieldEnd(packet, 1) == n
      decreases ret - n
    {
      n := n + 1;
    }
    var t := 128 * (buf[n + 1] as nat) + buf[n + 2] as nat;
    assert LengthRead(packet) == Some(Subtracted(ret, n, t, packet[n + t + 3]));
    length := Subtracted(ret, n, t, buf[n + 2 + t + 1]);
  }

  /** The shifting loop. */
  method Shift(buf: array<Byte>, ret: nat, length: nat)
    requires length <= ret <= buf.Length
    modifies buf
    ensures buf[..length] == old(buf[ret - length..ret]) && buf[length..] == old(buf[length..])
  {
    var i := 0;
    while i < length
      invariant i <= length
      invariant forall k :: 0 <= k < i ==> buf[k] == old(buf[k + (ret - length)])
      invariant forall k :: i <= k < buf.Length ==> buf[k] == old(buf[k])
    {
      buf[i] := buf[i + (ret - length)];
      i := i + 1;
    }
  }

  /** `MQTT_Read_PUBLISH`: the message moves to the front of the buffer, in place, and ends in a NUL. */
  method ReadPublish(buf: array<Byte>, ret: nat) returns (length: nat)
    requires ret <= buf.Length && LengthRead(buf[..ret]).Some? && LengthRead(buf[..ret]).value <= ret
    requires LengthRead(buf[..ret]).value < buf.Length
    modifies buf
    ensures length == LengthRead(old(buf[..ret])).value
    ensures buf[..length] == old(buf[ret - length..ret]) && buf[length] == 0
    ensures buf[length + 1..] == old(buf[length + 1..])
  {
    length := MessageLength(buf, ret);
    Shift(buf, ret, length);
    buf[length] := 0;
  }

  // ---------- Round trip ----------

  lemma {:induction false} FieldEnds(packet: seq<Byte>, n: nat, end: nat)
    requires n <= end < |packet| && packet[end] < 128 && forall i :: n <= i < end ==> 128 <= packet[i]
    ensures LengthFieldEnd(packet, n) == end
    decreases end - n
  {
    if n < end { FieldEnds(packet, n + 1, end); }
  }

  function FieldSize(topic: seq<Byte>, properties: seq<Byte>, message: seq<Byte>): nat {
    |RemainingLength(3 + |topic| + |properties| + |message|)|
  }

  lemma BodyLayout(topic: seq<Byte>, properties: seq<Byte>, message: seq<Byte>)
    ensures var body := Body(topic, properties, message);
            && body[0] == High(|topic|) && body[1] == LowByte(|topic|)
            && body[2..2 + |topic|] == topic
            && body[2 + |topic|] == LowByte(|properties|) && body[|body| - |message|..] == message
  {}

  /** Where the pieces of a packet are. */
  lemma PacketLayout(topic: seq<Byte>, properties: seq<Byte>, message: seq<Byte>)
    ensures var packet, n := Packet(topic, properties, message), FieldSize(topic, properties, message);
            && |packet| == 4 + n + |topic| + |properties| + |message|
            && LengthFieldEnd(packet, 1) == n
            && packet[n + 1] == High(|topic|) && packet[n + 2] == LowByte(|topic|)
            && packet[n + 3..n + 3 + |topic|] == topic
            && packet[n + 3 + |topic|] == LowByte(|properties|)
            && packet[|packet| - |message|..] == message
  {
    var body := Body(topic, properties, message);
    var r := RemainingLength(|body|);
    BodyLayout(topic, properties, message);
    Joined(r, body);
    FieldThenBody(Packet(topic, properties, message), r, body, |topic|, |message|);
  }

  lemma FieldThenBody(packet: seq<Byte>, r: seq<Byte>, body: seq<Byte>, t: nat, m: nat)
    requires |packet| == 1 + |r| + |body| && 3 + t + m <= |body|
    requires |r| > 0 && r[|r| - 1] < 128 && forall i :: 0 <= i < |r| - 1 ==> 128 <= r[i]
    requires forall k :: 0 <= k < |r| ==> packet[1 + k] == r[k]
    requires forall k :: 0 <= k < |body| ==> packet[1 + |r| + k] == body[k]
    ensures LengthFieldEnd(packet, 1) == |r|
    ensures packet[|r| + 1] == body[0] && packet[|r| + 2] == body[1] && packet[|r| + 3 + t] == body[2 + t]
    ensures packet[|r| + 3..|r| + 3 + t] == body[2..2 + t] && packet[|packet| - m..] == body[|body| - m..]
  {
    assert packet[1 + (|r| - 1)] == r[|r| - 1];
    forall i | 1 <= i < |r| ensures 128 <= packet[i] { assert packet[1 + (i - 1)] == r[i - 1]; }
    FieldEnds(packet, 1, |r|);
    Shifted(packet, body, 1 + |r|, t, m);
  }

  /** The parts of a packet are those of its body, `at` places further on. */
  lemma Shifted(packet: seq<Byte>, body: seq<Byte>, at: nat, t: nat, m: nat)
    requires |packet| == at + |body| && 3 + t + m <= |body|
    requires forall k :: 0 <= k < |body| ==> packet[at + k] == body[k]
    ensures packet[at] == body[0] && packet[at + 1] == body[1] && packet[at + 2 + t] == body[2 + t]
    ensures packet[at + 2..at + 2 + t] == body[2..2 + t]
    ensures packet[|packet| - m..] == body[|body| - m..]
  {
    assert packet[at + 0] == body[0] && packet[at + (2 + t)] == body[2 + t];
    var topic, message := packet[at + 2..at + 2 + t], packet[|packet| - m..];
    forall k | 0 <= k < t ensures topic[k] == body[2..2 + t][k] { assert packet[at + (2 + k)] == body[2 + k]; }
    forall k | 0 <= k < m ensures message[k] == body[|body| - m..][k] {
      assert packet[at + (|body| - m + k)] == body[|body| - m + k];
    }
  }

  lemma Joined(r: seq<Byte>, body: seq<Byte>)
    ensures var packet := [HEADER] + r + body;
            && |packet| == 1 + |r| + |body| && (forall k :: 0 <= k < |r| ==> packet[1 + k] == r[k])
            && (forall k :: 0 <= k < |body| ==> packet[1 + |r| + k] == body[k])
  {}

  /** The topic length is read right if it fits one byte, and too short otherwise. */
  lemma TopicLengthShort(t: nat)
    ensures TopicLengthRead(High(t), LowByte(t)) <= t - 128 * (t / 256)
    ensures t < 65536 ==> TopicLengthRead(High(t), LowByte(t)) == t - 128 * (t / 256)
    ensures t < 256 ==> t / 256 == 0
    ensures 256 <= t ==> 1 <= t / 256
    ensures 65536 <= t ==> 256 <= t / 256
  {}

  /** The subtractions give the length with the error of the topic length; no error, no difference. */
  lemma SubtractedExact(ret: Tick, n: Tick, t: Tick, p: Tick, length: Tick, error: int)
    requires ret == 4 + n + t + p + length + error && n + t + p < WRAP - 4 && -256 < error < WRAP
    ensures Subtracted(ret, n, t, p) == length <==> error == 0
  {}

  /** The length that is read when the topic length is read `short` too short. */
  lemma LengthOff(topic: seq<Byte>, properties: seq<Byte>, message: seq<Byte>, short: nat)
    requires short <= |topic| && TopicLengthRead(High(|topic|), LowByte(|topic|)) == |topic| - short
    requires 3 + |topic| + |properties| + |message| <= MAX_REMAINING && |properties| < 256
    ensures var packet, n := Packet(topic, properties, message), FieldSize(topic, properties, message);
            && n + 3 + |topic| - short < |packet| < WRAP
            && LengthRead(packet) == Some(Subtracted(|packet|, n, |topic| - short, packet[n + 3 + |topic| - short]))
  {
    var packet, n := Packet(topic, properties, message), FieldSize(topic, properties, message);
    PacketLayout(topic, properties, message);
    RemainingShort(3 + |topic| + |properties| + |message|);
    ReadAt(packet, n, |topic| - short);
  }

  lemma ReadAt(packet: seq<Byte>, n: nat, t: nat)
    requires 2 <= |packet| < WRAP && LengthFieldEnd(packet, 1) == n
    requires n + t + 3 < |packet| && TopicLengthRead(packet[n + 1], packet[n + 2]) == t
    ensures LengthRead(packet) == Some(Subtracted(|packet|, n, t, packet[n + t + 3]))
  {}

  lemma RemainingShort(n: nat)
    requires n <= MAX_REMAINING
    ensures |RemainingLength(n)| <= 4
  {
    assert |RemainingLength(n / 128 / 128 / 128)| == 1;
    assert |RemainingLength(n / 128 / 128)| <= 2;
    assert |RemainingLength(n / 128)| <= 3;
  }

  /** The byte that is taken for the properties length. */
  lemma PropertiesRead(topic: seq<Byte>, properties: seq<Byte>, message: seq<Byte>, short: nat)
    requires short <= |topic| && |properties| < 256
    ensures var packet, at := Packet(topic, properties, message), FieldSize(topic, properties, message) + 3 + |topic| - short;
            at < |packet| && packet[at] as nat == if short == 0 then |properties| else topic[|topic| - short] as nat
  {
    PacketLayout(topic, properties, message);
    var packet, n := Packet(topic, properties, message), FieldSize(topic, properties, message);
    if short > 0 { assert packet[n + 3..n + 3 + |topic|][|topic| - short] == topic[|topic| - short]; }
  }

  lemma PacketSize(topic: seq<Byte>, properties: seq<Byte>, message: seq<Byte>)
    requires 3 + |topic| + |properties| + |message| <= MAX_REMAINING
    ensures FieldSize(topic, properties, message) <= 4
    ensures |Packet(topic, properties, message)| == 4 + FieldSize(topic, properties, message) + |topic| + |properties| + |message|
  {
    RemainingShort(3 + |topic| + |properties| + |message|);
  }

  /**
   The reader finds the length of the message exactly if the topic is shorter than 256 bytes, or
   the topic byte that it takes for the properties length happens to make up for the difference.
   */
  lemma RecoversExactly(topic: seq<Byte>, properties: seq<Byte>, message: seq<Byte>)
    requires |properties| < 256 && 3 + |topic| + |properties| + |message| <= MAX_REMAINING
    ensures var t := |topic|;
            LengthRead(Packet(topic, properties, message)) == Some(|message|) <==>
              t < 256 || topic[t - 128 * (t / 256)] as nat == 128 * (t / 256) + |properties|
  {
    TopicLengthShort(|topic|);
    RecoversBy(topic, properties, message, |topic| - TopicLengthRead(High(|topic|), LowByte(|topic|)));
  }

  /** A topic for which it fails: 256 letters `a`. */
  lemma LongTopicLost(topic: seq<Byte>, message: seq<Byte>)
    requires |topic| == 256 && (forall i :: 0 <= i < 256 ==> topic[i] == 97) && 3 + |topic| + |message| <= MAX_REMAINING
    ensures LengthRead(Packet(topic, [], message)) != Some(|message|)
  {
    RecoversExactly(topic, [], message);
  }

  lemma RecoversBy(topic: seq<Byte>, properties: seq<Byte>, message: seq<Byte>, short: nat)
    requires short <= |topic| && TopicLengthRead(High(|topic|), LowByte(|topic|)) == |topic| - short
    requires 3 + |topic| + |properties| + |message| <= MAX_REMAINING && |properties| < 256
    ensures LengthRead(Packet(topic, properties, message)) == Some(|message|) <==>
              short == 0 || topic[|topic| - short] as nat == short + |properties|
  {
    var packet, n := Packet(topic, properties, message), FieldSize(topic, properties, message);
    PacketSize(topic, properties, message);
    PropertiesRead(topic, properties, message, short);
    LengthOff(topic, properties, message, short);
    ReadAs(LengthRead(packet), |packet|, n, |topic| - short, packet[n + 3 + |topic| - short], |message|, short + |properties|);
  }

  lemma ReadAs(read: Option<Tick>, ret: Tick, n: Tick, t: Tick, p: Byte, length: Tick, expected: nat)
    requires read == Some(Subtracted(ret, n, t, p)) && ret == 4 + n + t + length + expected
    requires n + t + p < WRAP - 4 && expected < WRAP
    ensures read == Some(length) <==> p as nat == expected
  {
    SubtractedExact(ret, n, t, p, length, expected - p as int);
  }

  /** What the writer sent is what the reader shows, for every message and every topic under 256 bytes. */
  lemma PublishRoundTrip(topic: seq<Byte>, message: seq<Byte>)
    requires |topic| < 256 && 3 + |topic| + |message| <= MAX_REMAINING
    ensures var packet := Packet(topic, [], message);
            && LengthRead(packet) == Some(|message|) && |message| < |packet|
            && packet[|packet| - |message|..] == message
  {
    RecoversExactly(topic, [], message);
    PacketLayout(topic, [], message);
  }

  /** The standard's own decoder finds the length of what follows. */
  lemma StandardLength(topic: seq<Byte>, properties: seq<Byte>, message: seq<Byte>)
    ensures var body := Body(topic, properties, message);
            DecodeRemaining(Packet(topic, properties, message)[1..]) == |body|
  {
    var body := Body(topic, properties, message);
    RemainingRoundTrip(|body|, body);
    assert Packet(topic, properties, message)[1..] == RemainingLength(|body|) + body;
  }
}

/** A PUBLISH packet as section 3.3 of MQTT Version 5.0 has a receiver take it apart. */
module MqttStandard {
  import opened Wrappers
  import opened Mqtt

  const PUBLISH: nat := 3

  datatype Content = Content(topic: seq<Byte>, properties: seq<Byte>, payload: seq<Byte>)

  datatype Publish = Publish(dup: bool, qos: nat, retain: bool, content: Content)

  /** The properties, behind their length, and the payload. */
  function ReadRest(topic: seq<Byte>, rest: seq<Byte>): Option<Content>
    requires rest != []
  {
    var k, p := LengthFieldEnd(rest, 0) + 1, DecodeRemaining(rest);
    if |rest| < k + p then None else Some(Content(topic, rest[k..k + p], rest[k + p..]))
  }

  /** The topic behind its length, and a packet identifier if the quality of service calls for one. */
  function ReadContent(qos: nat, body: seq<Byte>): Option<Content> {
    if |body| < 2 then None
    else
      var t: nat := 256 * (body[0] as nat) + body[1] as nat;
      var at := 2 + t + if qos > 0 then 2 else 0;
      if |body| <= at then None else ReadRest(body[2..2 + t], body[at..])
  }

  /** Packet type and flags, remaining length, and what follows. */
  function ReadPublish(bytes: seq<Byte>): Option<Publish> {
    if |bytes| < 2 then None
    else
      var first: nat, body := bytes[0] as nat, bytes[LengthFieldEnd(bytes, 1) + 1..];
      var qos := first / 2 % 4;
      if first / 16 != PUBLISH || qos == 3 || DecodeRemaining(bytes[1..]) != |body| then None
      else match ReadContent(qos, body)
        case None => None
        case Some(content) => Some(Publish(first / 8 % 2 == 1, qos, first % 2 == 1, content))
  }

  lemma TopicLengthField(t: nat)
    ensures 256 * (High(t) as nat) + LowByte(t) as nat == t % 65536
  {
    var q := t / 256;
    assert t == 65536 * (q / 256) + (256 * (q % 256) + t % 256);
    Remainder(t, q / 256, 256 * (q % 256) + t % 256);
  }

  lemma Remainder(t: nat, q: nat, r: nat)
    requires t == 65536 * q + r && r < 65536
    ensures t % 65536 == r
  {}

  /** What is behind the length field. */
  lemma BodyOf(topic: seq<Byte>, properties: seq<Byte>, message: seq<Byte>)
    ensures var packet := Packet(topic, properties, message);
            && |packet| >= 2 && packet[0] == HEADER && packet[LengthFieldEnd(packet, 1) + 1..] == Body(topic, properties, message)
  {
    PacketLayout(topic, properties, message);
    var body := Body(topic, properties, message);
    Behind([HEADER] + RemainingLength(|body|), body);
  }

  lemma Behind(front: seq<Byte>, body: seq<Byte>)
    ensures (front + body)[|front|..] == body
  {}

  lemma RestRead(topic: seq<Byte>, properties: seq<Byte>, message: seq<Byte>)
    requires |properties| < 128
    ensures ReadRest(topic, [LowByte(|properties|)] + properties + message) == Some(Content(topic, properties, message))
  {
    var rest := [LowByte(|properties|)] + properties + message;
    assert rest[0] as nat == |properties|;
    assert rest[1..1 + |properties|] == properties && rest[1 + |properties|..] == message;
  }

  lemma BodyParts(topic: seq<Byte>, properties: seq<Byte>, message: seq<Byte>)
    ensures var body, t := Body(topic, properties, message), |topic|;
            && body[0] == High(t) && body[1] == LowByte(t) && 2 + t < |body|
            && body[2..2 + t] == topic && body[2 + t..] == [LowByte(|properties|)] + properties + message
  {
    var t := |topic|;
    var front := [High(t), LowByte(t)] + topic;
    assert Body(topic, properties, message) == front + ([LowByte(|properties|)] + properties + message);
    Behind(front, [LowByte(|properties|)] + properties + message);
    assert front[2..] == topic;
  }

  lemma ContentRead(topic: seq<Byte>, properties: seq<Byte>, message: seq<Byte>)
    requires |properties| < 128
    ensures ReadContent(0, Body(topic, properties, message)) == Some(Content(topic, properties, message)) <==> |topic| < 65536
  {
    BodyParts(topic, properties, message);
    TopicLengthField(|topic|);
    RestRead(topic, properties, message);
    if |topic| >= 65536 { ShortTopic(Body(topic, properties, message), |topic|); }
  }

  lemma ShortTopic(body: seq<Byte>, t: nat)
    requires 2 <= |body| && 65536 <= t && 256 * (body[0] as nat) + body[1] as nat == t % 65536
    ensures ReadContent(0, body).Some? ==> |ReadContent(0, body).value.topic| != t
  {}

  /**
   A receiver reads topic, properties and message as they were given, in a packet with quality of
   service 0 and neither flag set, exactly if the length of the topic fits its two bytes.
   */
  lemma StandardReads(topic: seq<Byte>, properties: seq<Byte>, message: seq<Byte>)
    requires |properties| < 128
    ensures var read := ReadPublish(Packet(topic, properties, message));
            read == Some(Publish(false, 0, false, Content(topic, properties, message))) <==> |topic| < 65536
  {
    BodyOf(topic, properties, message);
    StandardLength(topic, properties, message);
    ContentRead(topic, properties, message);
    FirstByte(Packet(topic, properties, message), Body(topic, properties, message));
  }

  lemma FirstByte(packet: seq<Byte>, body: seq<Byte>)
    requires |packet| >= 2 && packet[0] == HEADER && packet[LengthFieldEnd(packet, 1) + 1..] == body
    requires DecodeRemaining(packet[1..]) == |body|
    ensures ReadPublish(packet) == match ReadContent(0, body) case None => None case Some(content) => Some(Publish(false, 0, false, content))
  {
    var first: nat := packet[0] as nat;
    assert first / 16 == PUBLISH && first / 2 % 4 == 0 && first / 8 % 2 == 0 && first % 2 == 0;
  }
}
