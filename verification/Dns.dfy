/**
 The query that `DNS_Request` builds: the host name cut at its dots into labels, each behind its
 length, as in section 4.1.2 of RFC 1035. The host name is given with its final NUL, as the
 caller counts it.
 */
module Dns {
  import opened Wrappers

  const DOT: Byte := 46
  const HOST_START: nat := 12
  const DNS_PACKET_MIN_SIZE: nat := 17
  const MAX_LABEL: nat := 63

  /** A host name ends in NUL. */
  predicate IsHostname(host: seq<Byte>) {
    host != [] && host[|host| - 1] == 0
  }

  /** The characters up to the next dot or NUL. */
  function LabelLength(host: seq<Byte>): (j: nat)
    requires IsHostname(host)
    ensures j < |host| && (host[j] == DOT || host[j] == 0)
    ensures forall i :: 0 <= i < j ==> host[i] != DOT && host[i] != 0
  {
    if host[0] == DOT || host[0] == 0 then 0 else 1 + LabelLength(host[1..])
  }

  function Labels(host: seq<Byte>): (labels: seq<seq<Byte>>)
    requires IsHostname(host)
    ensures labels != []
  {
    var j := LabelLength(host);
    [host[..j]] + if j + 1 == |host| then [] else Labels(host[j + 1..])
  }

  /** A label behind its length; a length over 255 is cut to a byte. */
  function Labelled(name: seq<Byte>): seq<Byte> {
    [|name| % 256] + name
  }

  function QName(labels: seq<seq<Byte>>): seq<Byte> {
    if labels == [] then [0] else Labelled(labels[0]) + QName(labels[1..])
  }

  function Header(id0: Byte, id1: Byte): (h: seq<Byte>)
    ensures |h| == HOST_START
  {
    [id0, id1, 1, 0, 0, 1, 0, 0, 0, 0, 0, 0]
  }

  function Query(id0: Byte, id1: Byte, host: seq<Byte>): seq<Byte>
    requires IsHostname(host)
  {
    Header(id0, id1) + QName(Labels(host)) + [0, 1, 0, 1]
  }

  // ---------- The size ----------

  /** The first label and the others. */
  lemma LabelsUnfold(host: seq<Byte>)
    requires IsHostname(host)
    ensures var j, labels := LabelLength(host), Labels(host);
            && labels[0] == host[..j]
            && (j + 1 == |host| ==> labels[1..] == [])
            && (j + 1 < |host| ==> IsHostname(host[j + 1..]) && labels[1..] == Labels(host[j + 1..]))
  {
    var j := LabelLength(host);
    if j + 1 < |host| {
      var rest := host[j + 1..];
      assert rest[|rest| - 1] == host[|host| - 1];
      OneMore(host[..j], Labels(rest));
    }
  }

  lemma OneMore(first: seq<Byte>, others: seq<seq<Byte>>)
    ensures ([first] + others)[0] == first && ([first] + others)[1..] == others
  {}

  lemma QNameOf(labels: seq<seq<Byte>>)
    requires labels != []
    ensures |QName(labels)| == 1 + |labels[0]| + |QName(labels[1..])|
  {}

  /** Dots become lengths, and there is one length and one final 0 more. */
  lemma {:induction false} QNameSize(host: seq<Byte>)
    requires IsHostname(host)
    ensures |QName(Labels(host))| == |host| + 1
    decreases |host|
  {
    var j := LabelLength(host);
    LabelsUnfold(host);
    QNameOf(Labels(host));
    if j + 1 < |host| { QNameSize(host[j + 1..]); }
  }

  /** The packet is filled exactly. */
  lemma QuerySize(id0: Byte, id1: Byte, host: seq<Byte>)
    requires IsHostname(host)
    ensures |Query(id0, id1, host)| == DNS_PACKET_MIN_SIZE + |host|
  {
    QNameSize(host);
  }

  // ---------- The code ----------

  /** The loop that counts to the end of a label. */
  method CountLabel(host: seq<Byte>, i: nat) returns (j: nat)
    requires IsHostname(host) && i < |host|
    ensures j == LabelLength(host[i..]) && i + j < |host|
  {
    j := 0;
    while host[i + j] != DOT && host[i + j] != 0
      invariant i + j < |host| && j + LabelLength(host[i + j..]) == LabelLength(host[i..])
      decreases |host| - j
    {
      assert host[i + j..][1..] == host[i + j + 1..];
      j := j + 1;
    }
  }

  /** The loop that copies a label behind its length. */
  method CopyLabel(packet: array<Byte>, k: nat, host: seq<Byte>, i: nat, j: nat)
    requires i + j <= |host| && k + 1 + j <= packet.Length
    modifies packet
    ensures packet[k..k + 1 + j] == Labelled(host[i..i + j])
    ensures forall p :: 0 <= p < packet.Length && !(k <= p < k + 1 + j) ==> packet[p] == old(packet[p])
  {
    packet[k] := j % 256;
    ghost var data := Labelled(host[i..i + j]);
    var c := 0;
    while c < j
      invariant c <= j && forall p :: 0 <= p <= c ==> data[p] == packet[k + p]
      invariant forall p :: 0 <= p < packet.Length && !(k <= p < k + 1 + j) ==> packet[p] == old(packet[p])
    {
      packet[k + 1 + c] := host[i + c];
      c := c + 1;
    }
  }

  method WriteLabel(packet: array<Byte>, k: nat, host: seq<Byte>, i: nat, j: nat)
    requires i + j <= |host| && k + 1 + j <= packet.Length
    modifies packet
    ensures packet[..k + 1 + j] == old(packet[..k]) + Labelled(host[i..i + j])
  {
    ghost var front := packet[..k];
    CopyLabel(packet, k, host, i, j);
    assert packet[..k] == front;
    assert packet[..k + 1 + j] == packet[..k] + packet[k..k + 1 + j];
  }

  /** The next label of a host name, and the host name after it. */
  lemma NextLabel(host: seq<Byte>, i: nat, next: nat)
    requires IsHostname(host) && i < |host| && next == i + LabelLength(host[i..]) + 1
    ensures next <= |host|
    ensures next < |host| ==> QName(Labels(host[i..])) == Labelled(host[i..next - 1]) + QName(Labels(host[next..]))
    ensures next == |host| ==> QName(Labels(host[i..])) == Labelled(host[i..next - 1]) + [0]
  {
    var rest, j := host[i..], next - 1 - i;
    assert rest[..j] == host[i..next - 1];
    if next < |host| {
      assert rest[j + 1..] == host[next..];
    }
    LabelsUnfold(rest);
  }

  /** What is in the packet already, with what the rest of the host name will add to it. */
  function Whole(front: seq<Byte>, host: seq<Byte>, i: nat): seq<Byte>
    requires IsHostname(host) && i < |host|
  {
    front + QName(Labels(host[i..]))
  }

  lemma NextWhole(front: seq<Byte>, host: seq<Byte>, i: nat, next: nat)
    requires IsHostname(host) && i < |host| && next == i + LabelLength(host[i..]) + 1
    ensures next <= |host|
    ensures next < |host| ==> Whole(front + Labelled(host[i..next - 1]), host, next) == Whole(front, host, i)
    ensures next == |host| ==> front + Labelled(host[i..next - 1]) + [0] == Whole(front, host, i)
  {
    NextLabel(host, i, next);
    if next < |host| {
      Regroup(front, Labelled(host[i..next - 1]), QName(Labels(host[next..])));
    } else {
      Regroup(front, Labelled(host[i..next - 1]), [0]);
    }
  }

  lemma Regroup(front: seq<Byte>, part: seq<Byte>, rest: seq<Byte>)
    ensures front + (part + rest) == front + part + rest
  {}

  method EndName(packet: array<Byte>, k: nat)
    requires k < packet.Length
    modifies packet
    ensures packet[..k + 1] == old(packet[..k]) + [0]
  {
    packet[k] := 0;
  }

  /** A round of the outer loop: a length, its label, and after the last one the final 0. */
  method Round(packet: array<Byte>, k: nat, host: seq<Byte>, i: nat) returns (k': nat, i': nat)
    requires IsHostname(host) && i < |host| && k + |host| - i + 1 <= packet.Length
    modifies packet
    ensures i' == i + LabelLength(host[i..]) + 1 <= |host| && k' - k == i' - i
    ensures i' < |host| ==> packet[..k'] == old(packet[..k]) + Labelled(host[i..i' - 1])
    ensures i' == |host| ==> packet[..k' + 1] == old(packet[..k]) + Labelled(host[i..i' - 1]) + [0]
  {
    var j := CountLabel(host, i);
    WriteLabel(packet, k, host, i, j);
    k', i' := k + 1 + j, i + j + 1;
    if i' == |host| { EndName(packet, k'); }
  }

  /** The QNAME loops, from byte 12 on; they end on the final 0 of the name. */
  method WriteName(packet: array<Byte>, host: seq<Byte>) returns (k: nat)
    requires IsHostname(host) && packet.Length == DNS_PACKET_MIN_SIZE + |host|
    modifies packet
    ensures k == HOST_START + |host|
    ensures packet[..k + 1] == old(packet[..HOST_START]) + QName(Labels(host))
  {
    ghost var whole := Whole(packet[..HOST_START], host, 0);
    assert host[0..] == host;
    var i := 0;
    k := HOST_START;
    while i < |host|
      invariant i <= |host| && k == HOST_START + i
      invariant i < |host| ==> Whole(packet[..k], host, i) == whole
      invariant i == |host| ==> packet[..k + 1] == whole
    {
      ghost var front, before := packet[..k], i;
      k, i := Round(packet, k, host, i);
      NextWhole(front, host, before, i);
    }
  }

  /** `DNS_Request` up to the exchange, for two random bytes of transaction id. */
  method BuildQuery(host: seq<Byte>, id0: Byte, id1: Byte) returns (packet: array<Byte>)
    requires IsHostname(host)
    ensures fresh(packet) && packet[..] == Query(id0, id1, host) && packet.Length == DNS_PACKET_MIN_SIZE + |host|
  {
    packet := new Byte[DNS_PACKET_MIN_SIZE + |host|](_ => 0);
    packet[0], packet[1], packet[2], packet[5] := id0, id1, 1, 1;
    assert packet[..HOST_START] == Header(id0, id1);
    var k := WriteName(packet, host);
    packet[k + 1], packet[k + 2], packet[k + 3], packet[k + 4] := 0, 1, 0, 1;
    assert packet[..] == packet[..k + 1] + [0, 1, 0, 1];
  }

  // ---------- Reading the name back ----------

  /** The labels of a QNAME as a server reads them: up to the first zero length. */
  function DecodeName(bytes: seq<Byte>): Option<seq<seq<Byte>>> {
    if bytes == [] then None
    else if bytes[0] == 0 then Some([])
    else if bytes[0] as nat > MAX_LABEL || |bytes| < 1 + bytes[0] as nat then None
    else
      var rest := DecodeName(bytes[1 + bytes[0] as nat..]);
      if rest.None? then None else Some([bytes[1..1 + bytes[0] as nat]] + rest.value)
  }

  predicate LabelOk(name: seq<Byte>) {
    0 < |name| <= MAX_LABEL
  }

  lemma {:induction false} DecodeQName(labels: seq<seq<Byte>>, tail: seq<Byte>)
    requires forall i :: 0 <= i < |labels| ==> LabelOk(labels[i])
    ensures DecodeName(QName(labels) + tail) == Some(labels)
    decreases |labels|
  {
    var bytes := QName(labels) + tail;
    if labels == [] {
      assert bytes[0] == 0;
    } else {
      var n := |labels[0]|;
      DecodeQName(labels[1..], tail);
      assert LabelOk(labels[0]);
      FirstLabel(labels[0], QName(labels[1..]), tail);
      assert labels == [labels[0]] + labels[1..];
    }
  }

  lemma FirstLabel(name: seq<Byte>, rest: seq<Byte>, tail: seq<Byte>)
    requires LabelOk(name)
    ensures var bytes := Labelled(name) + rest + tail;
            bytes[0] as nat == |name| && bytes[1..1 + |name|] == name && bytes[1 + |name|..] == rest + tail
  {}

  /** The labels with a dot between them and the NUL behind. */
  function Joined(labels: seq<seq<Byte>>): seq<Byte>
    requires labels != []
  {
    labels[0] + if |labels| == 1 then [0] else [DOT] + Joined(labels[1..])
  }

  /** No NUL inside, so that the caller's length is the string's. */
  predicate PlainHostname(host: seq<Byte>) {
    IsHostname(host) && forall i :: 0 <= i < |host| - 1 ==> host[i] != 0
  }

  lemma JoinedMore(labels: seq<seq<Byte>>)
    requires labels != [] && labels[1..] != []
    ensures Joined(labels) == labels[0] + [DOT] + Joined(labels[1..])
  {}

  lemma CutAt(host: seq<Byte>, j: nat)
    requires j < |host|
    ensures host == host[..j] + [host[j]] + host[j + 1..]
  {}

  lemma PlainTail(host: seq<Byte>, m: nat)
    requires PlainHostname(host) && m < |host|
    ensures PlainHostname(host[m..])
  {
    var rest := host[m..];
    forall i | 0 <= i < |rest| - 1 ensures rest[i] != 0 { assert rest[i] == host[m + i]; }
  }

  lemma PlainRest(host: seq<Byte>)
    requires PlainHostname(host)
    ensures var j := LabelLength(host);
            && (j + 1 < |host| ==> PlainHostname(host[j + 1..]) && host[j] == DOT)
            && (j + 1 == |host| ==> host[j] == 0)
  {
    var j := LabelLength(host);
    if j + 1 < |host| { PlainTail(host, j + 1); }
  }

  lemma {:induction false} LabelsJoined(host: seq<Byte>)
    requires PlainHostname(host)
    ensures Joined(Labels(host)) == host
    decreases |host|
  {
    var j, labels := LabelLength(host), Labels(host);
    LabelsUnfold(host);
    PlainRest(host);
    CutAt(host, j);
    if j + 1 < |host| {
      LabelsJoined(host[j + 1..]);
      JoinedMore(labels);
    } else {
      assert host[j + 1..] == [];
    }
  }

  /** A decoder never yields an empty label or one over 63 bytes. */
  lemma {:induction false} DecodedOk(bytes: seq<Byte>, i: nat)
    requires DecodeName(bytes).Some? && i < |DecodeName(bytes).value|
    ensures LabelOk(DecodeName(bytes).value[i])
    decreases |bytes|
  {
    if i > 0 { DecodedOk(bytes[1 + bytes[0] as nat..], i - 1); }
  }

  lemma NameOf(header: seq<Byte>, name: seq<Byte>, tail: seq<Byte>)
    ensures (header + name + tail)[|header|..] == name + tail
  {}

  /** A server reads the host name back from the query exactly if every label is 1 to 63 bytes long. */
  lemma QueryDecodes(id0: Byte, id1: Byte, host: seq<Byte>)
    requires PlainHostname(host)
    ensures Joined(Labels(host)) == host
    ensures DecodeName(Query(id0, id1, host)[HOST_START..]) == Some(Labels(host)) <==>
              forall i :: 0 <= i < |Labels(host)| ==> LabelOk(Labels(host)[i])
  {
    LabelsJoined(host);
    var name, tail := Query(id0, id1, host)[HOST_START..], [0, 1, 0, 1];
    NameOf(Header(id0, id1), QName(Labels(host)), tail);
    if forall i :: 0 <= i < |Labels(host)| ==> LabelOk(Labels(host)[i]) { DecodeQName(Labels(host), tail); }
    if DecodeName(name) == Some(Labels(host)) {
      forall i | 0 <= i < |Labels(host)| ensures LabelOk(Labels(host)[i]) { DecodedOk(name, i); }
    }
  }
}

/** A query as sections 4.1.1 and 4.1.2 of RFC 1035 have a server read it. */
module DnsStandard {
  import opened Wrappers
  import opened Dns

  const TYPE_A: nat := 1
  const CLASS_IN: nat := 1

  datatype Header = Header(id: nat, response: bool, opcode: nat, authoritative: bool, truncated: bool,
                           recursionDesired: bool, recursionAvailable: bool, reserved: nat, code: nat,
                           questions: nat, answers: nat, authorities: nat, additionals: nat)

  datatype Question = Question(labels: seq<seq<Byte>>, qtype: nat, qclass: nat)

  function Number(bytes: seq<Byte>, i: nat): nat
    requires i + 1 < |bytes|
  {
    256 * (bytes[i] as nat) + bytes[i + 1] as nat
  }

  function ReadHeader(bytes: seq<Byte>): Option<Header> {
    if |bytes| < 12 then None
    else
      var a, b: nat := bytes[2] as nat, bytes[3] as nat;
      Some(Header(Number(bytes, 0), a / 128 == 1, a / 8 % 16, a / 4 % 2 == 1, a / 2 % 2 == 1, a % 2 == 1,
                  b / 128 == 1, b / 16 % 8, b % 16, Number(bytes, 4), Number(bytes, 6), Number(bytes, 8), Number(bytes, 10)))
  }

  /** Where a name ends: after its first zero length. */
  function NameSize(bytes: seq<Byte>): nat
    requires DecodeName(bytes).Some?
  {
    if bytes[0] == 0 then 1 else 1 + bytes[0] as nat + NameSize(bytes[1 + bytes[0] as nat..])
  }

  /** One question, and nothing behind it. */
  function ReadQuestion(bytes: seq<Byte>): Option<Question> {
    var name := DecodeName(bytes);
    if name.None? || |bytes| != NameSize(bytes) + 4 then None
    else Some(Question(name.value, Number(bytes, NameSize(bytes)), Number(bytes, NameSize(bytes) + 2)))
  }

  lemma {:induction false} NameSizeOf(labels: seq<seq<Byte>>, tail: seq<Byte>)
    requires forall i :: 0 <= i < |labels| ==> LabelOk(labels[i])
    ensures DecodeName(QName(labels) + tail) == Some(labels) && NameSize(QName(labels) + tail) == |QName(labels)|
    decreases |labels|
  {
    DecodeQName(labels, tail);
    var bytes := QName(labels) + tail;
    if labels == [] {
      assert bytes[0] == 0;
    } else {
      assert LabelOk(labels[0]);
      NameSizeOf(labels[1..], tail);
      FirstLabel(labels[0], QName(labels[1..]), tail);
      assert bytes == Labelled(labels[0]) + QName(labels[1..]) + tail;
    }
  }

  lemma HeaderRead(id0: Byte, id1: Byte, rest: seq<Byte>)
    ensures ReadHeader(Dns.Header(id0, id1) + rest) ==
              Some(Header(256 * (id0 as nat) + id1 as nat, false, 0, false, false, true, false, 0, 0, 1, 0, 0, 0))
  {}

  lemma QuestionRead(labels: seq<seq<Byte>>)
    requires forall i :: 0 <= i < |labels| ==> LabelOk(labels[i])
    ensures ReadQuestion(QName(labels) + [0, 1, 0, 1]) == Some(Question(labels, TYPE_A, CLASS_IN))
  {
    NameSizeOf(labels, [0, 1, 0, 1]);
    QuestionAt(QName(labels) + [0, 1, 0, 1], labels, |QName(labels)|);
  }

  lemma QuestionAt(bytes: seq<Byte>, labels: seq<seq<Byte>>, n: nat)
    requires DecodeName(bytes) == Some(labels) && NameSize(bytes) == n && |bytes| == n + 4
    requires bytes[n] == 0 && bytes[n + 1] == 1 && bytes[n + 2] == 0 && bytes[n + 3] == 1
    ensures ReadQuestion(bytes) == Some(Question(labels, TYPE_A, CLASS_IN))
  {
    Pair(bytes, n, 1);
    Pair(bytes, n + 2, 1);
  }

  lemma Pair(bytes: seq<Byte>, i: nat, low: Byte)
    requires i + 1 < |bytes| && bytes[i] == 0 && bytes[i + 1] == low
    ensures Number(bytes, i) == low as nat
  {}

  /**
   A server reads a standard query with recursion desired and one question, for the address
   (type A) of the host name in the Internet class, if every label is 1 to 63 bytes long.
   */
  lemma StandardReads(id0: Byte, id1: Byte, host: seq<Byte>)
    requires PlainHostname(host) && forall i :: 0 <= i < |Labels(host)| ==> LabelOk(Labels(host)[i])
    ensures var query := Query(id0, id1, host);
            && ReadHeader(query) == Some(Header(256 * (id0 as nat) + id1 as nat, false, 0, false, false, true, false, 0, 0, 1, 0, 0, 0))
            && ReadQuestion(query[HOST_START..]) == Some(Question(Labels(host), TYPE_A, CLASS_IN))
  {
    var name, tail := QName(Labels(host)), [0, 1, 0, 1];
    NameOf(Dns.Header(id0, id1), name, tail);
    HeaderRead(id0, id1, name + tail);
    assert Query(id0, id1, host) == Dns.Header(id0, id1) + (name + tail);
    QuestionRead(Labels(host));
  }
}
