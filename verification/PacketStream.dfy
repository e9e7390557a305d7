/** The packet stack of sw2d.c over a byte stream that is read and written in arbitrary pieces. */
module PacketStream {
  import opened Bytes
  import T = Transport

  const ATT_CID: Word := 0x0004
  const ATT_HANDLE_NOTIFY: Byte := 0x1b
  const PACKET_BUFFER := 2048

  // ---------- what the stream holds ----------

  /** The packet at the front of a stream, as hci_read_packet returns it into a buffer of the given size:
      the return value, the packet, and the stream left. */
  function Packet(input: Data, size: nat): (int, Data, Data) {
    if size < 1 || |input| < 1 then (-1, [], input)
    else if input[0] == T.EVENT_PKT then
      if size < 3 then (-1, [], input[1..])
      else if |input| < 3 then (-1, [], [])
      else Body(input, 3, input[2], size)
    else if input[0] == T.ACLDATA_PKT then
      if size < 5 then (-1, [], input[1..])
      else if |input| < 5 then (-1, [], [])
      else Body(input, 5, Le16(input[3], input[4]), size)
    else (1, input[..1], input[1..])
  }

  // A header is read before the length is checked, so a packet too long for the buffer loses its header.
  function Body(input: Data, header: nat, length: nat, size: nat): (int, Data, Data)
    requires header <= |input|
  {
    if header + length > size then (-1, [], input[header..])
    else if |input| < header + length then (-1, [], [])
    else (header + length, input[..header + length], input[header + length..])
  }

  /** An event or ACL packet whose length field agrees with its length and that fits the buffer. */
  predicate IsPacket(p: Data, size: nat) {
    && 1 <= |p| <= size
    && (|| (p[0] == T.EVENT_PKT && |p| >= 3 && |p| - 3 == p[2])
        || (p[0] == T.ACLDATA_PKT && |p| >= 5 && |p| - 5 == Le16(p[3], p[4])))
  }

  function Concat(ps: seq<Data>): Data {
    if ps == [] then [] else ps[0] + Concat(ps[1..])
  }

  lemma PacketInFront(p: Data, rest: Data, size: nat)
    requires IsPacket(p, size)
    ensures Packet(p + rest, size) == (|p|, p, rest)
  {
    assert (p + rest)[..|p|] == p && (p + rest)[|p|..] == rest;
  }

  /** A packet too long for the buffer is refused with only its header consumed: the next read begins inside it. */
  lemma LongPacketLosesHeader(p: Data, rest: Data, size: nat)
    requires IsPacket(p, |p|) && |p| > size
    requires size >= if p[0] == T.EVENT_PKT then 3 else 5
    ensures Packet(p + rest, size) == (-1, [], p[if p[0] == T.EVENT_PKT then 3 else 5..] + rest)
  {
    var header := if p[0] == T.EVENT_PKT then 3 else 5;
    assert (p + rest)[header..] == p[header..] + rest;
  }

  /** A byte that begins neither an event nor an ACL packet is returned by itself. */
  lemma StrayByte(b: Byte, rest: Data, size: nat)
    requires size >= 1 && b != 0x04 && b != 0x02
    ensures Packet([b] + rest, size) == (1, [b], rest)
  {
    assert ([b] + rest)[..1] == [b] && ([b] + rest)[1..] == rest;
  }

  // Successive reads, as long as they succeed.
  function ReadAll(input: Data, size: nat): seq<Data>
    decreases |input|
  {
    var (n, p, rest) := Packet(input, size);
    if n <= 0 then [] else [p] + ReadAll(rest, size)
  }

  /** Successive calls return exactly the packets of the stream, in order. */
  lemma {:induction false} ReadAllOfConcat(ps: seq<Data>, size: nat)
    requires forall p | p in ps :: IsPacket(p, size)
    ensures ReadAll(Concat(ps), size) == ps
  {
    if ps != [] {
      PacketInFront(ps[0], Concat(ps[1..]), size);
      ReadAllOfConcat(ps[1..], size);
    }
  }

  // ---------- ATT over ACL ----------

  // acl_send_att's frame
  function AclFrame(handle: Word, att: Data): Data
    requires |att| <= 1024
  {
    T.AclDatagram(handle, ATT_CID, att)
  }

  lemma AclFrameIsPacket(handle: Word, att: Data)
    requires |att| <= 1024
    ensures IsPacket(AclFrame(handle, att), PACKET_BUFFER)
  {
    T.AclFields(handle, ATT_CID, att);
  }

  datatype Verdict = Skip | Lost | Payload(att: Data)

  /** What read_acl_att makes of one packet: an ATT payload for its connection that fits the caller's
      buffer, a Disconnection Complete, or something to pass over. */
  function Judge(p: Data, handle: Word, size: nat): Verdict {
    if p == [] then Skip
    else if p[0] == T.EVENT_PKT && |p| >= 3 then
      if p[1] == T.EVT_DISCONN_COMPLETE && |p| >= 7 then Lost else Skip
    else if p[0] != T.ACLDATA_PKT || |p| < 9 then Skip
    else
      var acl, l2 := Le16(p[3], p[4]), Le16(p[5], p[6]);
      if Handle12(Le16(p[1], p[2])) != handle || Le16(p[7], p[8]) != ATT_CID then Skip
      else if acl + 5 > |p| || l2 + 4 > acl then Skip
      else if l2 > size then Skip
      else Payload(p[9..9 + l2])
  }

  /** How each poll before a packet ends. When the list is used up, every poll finds data. */
  datatype Ready = HasData | TimedOut | Failed

  function Head(polls: seq<Ready>): Ready { if polls == [] then HasData else polls[0] }
  function Tail(polls: seq<Ready>): seq<Ready> { if polls == [] then [] else polls[1..] }

  datatype Answer = Answer(n: int, att: Data, input: Data, polls: seq<Ready>)

  // read_acl_att on a stream
  function ReadAtt(input: Data, polls: seq<Ready>, handle: Word, size: nat): Answer
    decreases |input|
  {
    match Head(polls)
    case TimedOut => Answer(0, [], input, Tail(polls))
    case Failed => Answer(-1, [], input, Tail(polls))
    case HasData =>
      var (n, p, rest) := Packet(input, PACKET_BUFFER);
      if n <= 0 then Answer(n, [], rest, Tail(polls))
      else match Judge(p, handle, size)
        case Skip => ReadAtt(rest, Tail(polls), handle, size)
        case Lost => Answer(-2, [], rest, Tail(polls))
        case Payload(att) => Answer(|att|, att, rest, Tail(polls))
  }

  // What is left of the polls after the first k.
  function Drop(polls: seq<Ready>, k: nat): seq<Ready> {
    if k <= |polls| then polls[k..] else []
  }

  function PollAt(polls: seq<Ready>, k: nat): Ready {
    if k < |polls| then polls[k] else HasData
  }

  lemma DropTail(polls: seq<Ready>, k: nat)
    ensures Drop(Tail(polls), k) == Drop(polls, k + 1) && PollAt(Tail(polls), k) == PollAt(polls, k + 1)
  {
  }

  predicate IsNotification(v: Verdict) {
    v.Payload? && v.att != [] && v.att[0] == ATT_HANDLE_NOTIFY
  }

  // Packets read_acl_att passes over, and those att_request_response passes over besides.
  predicate Passed(p: Data, handle: Word, size: nat, notifications: bool) {
    Judge(p, handle, size).Skip? || (notifications && IsNotification(Judge(p, handle, size)))
  }

  // How many packets are passed over before one that is not, a poll without data, or the end.
  function FirstStop(ps: seq<Data>, polls: seq<Ready>, handle: Word, size: nat, notifications: bool): (i: nat)
    ensures i <= |ps|
    ensures forall j | 0 <= j < i :: Passed(ps[j], handle, size, notifications) && PollAt(polls, j).HasData?
    ensures i < |ps| && PollAt(polls, i).HasData? ==> !Passed(ps[i], handle, size, notifications)
  {
    if ps == [] || !Head(polls).HasData? || !Passed(ps[0], handle, size, notifications) then 0
    else
      var i := FirstStop(ps[1..], Tail(polls), handle, size, notifications);
      assert forall j | 0 <= j < i :: ps[j + 1] == ps[1..][j] && PollAt(polls, j + 1) == PollAt(Tail(polls), j);
      assert forall j | 1 <= j < i + 1 :: ps[j] == ps[1..][j - 1] && PollAt(polls, j) == PollAt(Tail(polls), j - 1);
      1 + i
  }

  /** On every stream of packets and with every outcome of the polls, read_acl_att goes by the first relevant packet
      and consumes the stream just past it, unless a poll finds no data or the stream ends before. */
  lemma {:induction false} ReadAttFindsFirst(ps: seq<Data>, polls: seq<Ready>, handle: Word, size: nat)
    requires forall p | p in ps :: IsPacket(p, PACKET_BUFFER)
    ensures var i := FirstStop(ps, polls, handle, size, false);
            ReadAtt(Concat(ps), polls, handle, size) ==
              if PollAt(polls, i).TimedOut? then Answer(0, [], Concat(ps[i..]), Drop(polls, i + 1))
              else if PollAt(polls, i).Failed? then Answer(-1, [], Concat(ps[i..]), Drop(polls, i + 1))
              else if i == |ps| then Answer(-1, [], [], Drop(polls, i + 1))
              else match Judge(ps[i], handle, size)
                case Lost => Answer(-2, [], Concat(ps[i + 1..]), Drop(polls, i + 1))
                case Payload(att) => Answer(|att|, att, Concat(ps[i + 1..]), Drop(polls, i + 1))
                case Skip => Answer(0, [], [], [])
  {
    if ps != [] {
      PacketInFront(ps[0], Concat(ps[1..]), PACKET_BUFFER);
      if Head(polls).HasData? && Judge(ps[0], handle, size).Skip? {
        ReadAttFindsFirst(ps[1..], Tail(polls), handle, size);
        var i := FirstStop(ps[1..], Tail(polls), handle, size, false);
        DropTail(polls, i);
        DropTail(polls, i + 1);
        assert ps[1..][i..] == ps[i + 1..];
        if i < |ps[1..]| { assert ps[1..][i + 1..] == ps[i + 2..]; }
      }
    }
  }

  lemma JudgeFrame(handle: Word, att: Data, size: nat)
    requires handle < 0x1000 && |att| <= 1024 && |att| <= size
    ensures Judge(AclFrame(handle, att), handle, size) == Payload(att)
  {
    T.AclFields(handle, ATT_CID, att);
    T.HandleWord(handle);
    var p := AclFrame(handle, att);
    assert p[9..9 + |att|] == p[9..];
  }

  /** A PDU of 1 to 1024 bytes sent on a connection comes back byte for byte on that connection, into every buffer
      that holds it. */
  lemma AttRoundTrip(handle: Word, att: Data, rest: Data, polls: seq<Ready>, size: nat)
    requires handle < 0x1000 && 1 <= |att| <= 1024 && |att| <= size && Head(polls).HasData?
    ensures ReadAtt(AclFrame(handle, att) + rest, polls, handle, size) == Answer(|att|, att, rest, Tail(polls))
  {
    AclFrameIsPacket(handle, att);
    JudgeFrame(handle, att, size);
    PacketInFront(AclFrame(handle, att), rest, PACKET_BUFFER);
  }

  // ---------- which packets are passed over ----------

  // An ACL packet by its fields: boundary flags, handle, channel, the PDU and what trails it.
  function AclPacket(flags: nat, handle: Word, cid: Word, pdu: Data, trailing: Data): (p: Data)
    requires flags < 0x10 && handle < 0x1000 && 4 + |pdu| + |trailing| < 0x1_0000
    ensures |p| == 9 + |pdu| + |trailing|
  {
    [0x02] + Put16(handle + 0x1000 * flags) + Put16(4 + |pdu| + |trailing|) + Put16(|pdu|) + Put16(cid) + pdu + trailing
  }

  lemma AclPacketFields(flags: nat, handle: Word, cid: Word, pdu: Data, trailing: Data)
    requires flags < 0x10 && handle < 0x1000 && 4 + |pdu| + |trailing| < 0x1_0000
    ensures var p := AclPacket(flags, handle, cid, pdu, trailing);
            && p[0] == 0x02 && Handle12(Le16(p[1], p[2])) == handle && Le16(p[3], p[4]) == |p| - 5
            && Le16(p[5], p[6]) == |pdu| && Le16(p[7], p[8]) == cid && p[9..9 + |pdu|] == pdu
  {
    var p := AclPacket(flags, handle, cid, pdu, trailing);
    var h := Put16(handle + 0x1000 * flags);
    assert p[1] == h[0] && p[2] == h[1];
  }

  /** A frame is taken exactly when it is of the handle, on channel 4, and fits: every other is passed over, whatever
      its boundary flags and trailing bytes. */
  lemma FrameTakenExactly(flags: nat, h: Word, cid: Word, pdu: Data, trailing: Data, rest: Data, polls: seq<Ready>,
                          handle: Word, size: nat)
    requires flags < 0x10 && h < 0x1000 && 9 + |pdu| + |trailing| <= PACKET_BUFFER && Head(polls).HasData?
    ensures ReadAtt(AclPacket(flags, h, cid, pdu, trailing) + rest, polls, handle, size)
            == if h == handle && cid == 0x0004 && |pdu| <= size then Answer(|pdu|, pdu, rest, Tail(polls))
               else ReadAtt(rest, Tail(polls), handle, size)
  {
    AclPacketFields(flags, h, cid, pdu, trailing);
    PacketInFront(AclPacket(flags, h, cid, pdu, trailing), rest, PACKET_BUFFER);
  }

  /** Of the events only a Disconnection Complete with its four parameters ends the reading; every other is passed
      over. */
  lemma EventTakenExactly(code: Byte, params: Data, rest: Data, polls: seq<Ready>, handle: Word, size: nat)
    requires |params| < 0x100 && Head(polls).HasData?
    ensures var p := [0x04, code, |params|] + params;
            ReadAtt(p + rest, polls, handle, size)
            == if code == 0x05 && |params| >= 4 then Answer(-2, [], rest, Tail(polls))
               else ReadAtt(rest, Tail(polls), handle, size)
  {
    PacketInFront([0x04, code, |params|] + params, rest, PACKET_BUFFER);
  }

  /** And a payload only ever comes from such a frame. */
  lemma PayloadComesFromFrame(p: Data, handle: Word, size: nat) returns (flags: nat, trailing: Data)
    requires IsPacket(p, PACKET_BUFFER) && handle < 0x1000 && Judge(p, handle, size).Payload?
    ensures var pdu := Judge(p, handle, size).att;
            && flags < 0x10 && |pdu| <= size && 4 + |pdu| + |trailing| < 0x1_0000
            && p == AclPacket(flags, handle, 0x0004, pdu, trailing)
  {
    var word, n := Le16(p[1], p[2]), Le16(p[5], p[6]);
    flags, trailing := word / 0x1000, p[9 + n..];
    HandleParts(word, handle);
    SameWord(p[1], p[2]);
    SameWord(p[3], p[4]);
    SameWord(p[5], p[6]);
    SameWord(p[7], p[8]);
    assert p == [p[0]] + [p[1], p[2]] + [p[3], p[4]] + [p[5], p[6]] + [p[7], p[8]] + p[9..9 + n] + p[9 + n..];
  }

  lemma HandleParts(word: Word, handle: Word)
    requires Handle12(word) == handle
    ensures word / 0x1000 < 0x10 && word == handle + 0x1000 * (word / 0x1000)
  {
  }

  lemma SameWord(lo: Byte, hi: Byte)
    ensures Put16(Le16(lo, hi)) == [lo, hi]
  {
  }

  // The reading loop of att_request_response: -1 stands for a timeout too.
  function Response(input: Data, polls: seq<Ready>, handle: Word, size: nat): Answer
    decreases |input|
  {
    var a := ReadAtt(input, polls, handle, size);
    ReadAttShrinks(input, polls, handle, size);
    if a.n <= 0 then if a.n == 0 then a.(n := -1) else a
    else if a.att[0] == ATT_HANDLE_NOTIFY then Response(a.input, a.polls, handle, size)
    else a
  }

  lemma ReadAttShrinks(input: Data, polls: seq<Ready>, handle: Word, size: nat)
    ensures var a := ReadAtt(input, polls, handle, size);
            (a.n > 0 ==> |a.input| < |input| && a.n == |a.att|) && |a.att| <= size
    decreases |input|
  {
  }

  // One more packet passed over by att_request_response.
  lemma ResponsePasses(p: Data, rest: Data, polls: seq<Ready>, handle: Word, size: nat)
    requires IsPacket(p, PACKET_BUFFER) && Head(polls).HasData? && Passed(p, handle, size, true)
    ensures Response(p + rest, polls, handle, size) == Response(rest, Tail(polls), handle, size)
  {
    PacketInFront(p, rest, PACKET_BUFFER);
    if Judge(p, handle, size).Skip? {
      assert ReadAtt(p + rest, polls, handle, size) == ReadAtt(rest, Tail(polls), handle, size);
    }
  }

  // What att_request_response returns for the packet that ends its wait.
  function Decide(v: Verdict, rest: Data, polls: seq<Ready>): Answer {
    match v
    case Payload(att) => Answer(if att == [] then -1 else |att|, att, rest, polls)
    case _ => Answer(-2, [], rest, polls)
  }

  lemma ResponseStops(p: Data, rest: Data, polls: seq<Ready>, handle: Word, size: nat)
    requires IsPacket(p, PACKET_BUFFER) && Head(polls).HasData? && !Passed(p, handle, size, true)
    ensures Response(p + rest, polls, handle, size) == Decide(Judge(p, handle, size), rest, Tail(polls))
  {
    PacketInFront(p, rest, PACKET_BUFFER);
  }

  // The answer when packet i is the first not passed over.
  function StoppedAt(ps: seq<Data>, polls: seq<Ready>, handle: Word, size: nat, i: nat): Answer
    requires i <= |ps|
  {
    if !PollAt(polls, i).HasData? then Answer(-1, [], Concat(ps[i..]), Drop(polls, i + 1))
    else if i == |ps| then Answer(-1, [], [], Drop(polls, i + 1))
    else Decide(Judge(ps[i], handle, size), Concat(ps[i + 1..]), Drop(polls, i + 1))
  }

  lemma StoppedLater(ps: seq<Data>, polls: seq<Ready>, handle: Word, size: nat, i: nat)
    requires ps != [] && i <= |ps| - 1
    ensures StoppedAt(ps[1..], Tail(polls), handle, size, i) == StoppedAt(ps, polls, handle, size, i + 1)
  {
    DropTail(polls, i);
    DropTail(polls, i + 1);
    assert ps[1..][i..] == ps[i + 1..];
    if i < |ps[1..]| { assert ps[1..][i + 1..] == ps[i + 2..]; }
  }

  /** On every stream of packets, whatever events and other frames it holds, with every buffer size and every outcome
      of the polls, att_request_response goes by the first packet that is a disconnection, an empty PDU or a PDU that
      is no notification, and leaves the stream just behind it; a poll without data or the end of the stream before
      it gives -1. */
  lemma {:induction false} ResponseFindsFirst(ps: seq<Data>, polls: seq<Ready>, handle: Word, size: nat)
    requires forall p | p in ps :: IsPacket(p, PACKET_BUFFER)
    ensures Response(Concat(ps), polls, handle, size)
            == StoppedAt(ps, polls, handle, size, FirstStop(ps, polls, handle, size, true))
  {
    if ps != [] && Head(polls).HasData? {
      if Passed(ps[0], handle, size, true) {
        ResponsePasses(ps[0], Concat(ps[1..]), polls, handle, size);
        ResponseFindsFirst(ps[1..], Tail(polls), handle, size);
        StoppedLater(ps, polls, handle, size, FirstStop(ps[1..], Tail(polls), handle, size, true));
      } else {
        ResponseStops(ps[0], Concat(ps[1..]), polls, handle, size);
      }
    }
  }

  /** However many notifications, events and frames of others come before it, and whatever comes behind it, the
      first PDU that is no notification is the response. */
  lemma {:induction false} ResponseSkipsNotifications(before: seq<Data>, handle: Word, response: Data, rest: Data,
                                                       size: nat)
    requires forall p | p in before :: IsPacket(p, PACKET_BUFFER) && Passed(p, handle, size, true)
    requires handle < 0x1000 && 1 <= |response| <= 1024 && |response| <= size && response[0] != ATT_HANDLE_NOTIFY
    ensures Response(Concat(before) + (AclFrame(handle, response) + rest), [], handle, size)
            == Answer(|response|, response, rest, [])
  {
    var last := AclFrame(handle, response) + rest;
    if before == [] {
      assert Concat(before) + last == last;
      AclFrameIsPacket(handle, response);
      JudgeFrame(handle, response, size);
      ResponseStops(AclFrame(handle, response), rest, [], handle, size);
    } else {
      var first, others := before[0], Concat(before[1..]);
      assert (first + others) + last == first + (others + last);
      ResponsePasses(first, others + last, [], handle, size);
      ResponseSkipsNotifications(before[1..], handle, response, rest, size);
    }
  }
}
