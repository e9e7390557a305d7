/** hci_transport_user.c: one HCI packet per datagram of the user channel. */
module Transport {
  import opened Bytes

  const COMMAND_PKT: Byte := 0x01
  const ACLDATA_PKT: Byte := 0x02
  const EVENT_PKT: Byte := 0x04

  const EVT_DISCONN_COMPLETE: Byte := 0x05
  const EVT_ENCRYPT_CHANGE: Byte := 0x08
  const EVT_CMD_COMPLETE: Byte := 0x0e
  const EVT_CMD_STATUS: Byte := 0x0f
  const EVT_LE_META: Byte := 0x3e

  const LE_CONN_COMPLETE: Byte := 0x01
  const LE_LTK_REQUEST: Byte := 0x05

  const RAW_SIZE := 512

  /** What the host distinguishes about a received packet. */
  datatype Frame =
    | ConnectionComplete(status: Byte, handle: Word, peerType: Byte, peer: Address)
    | LtkRequest(handle: Word)
    | LeMeta(subevent: Byte)
    | CommandComplete(opcode: Word, status: Byte)
    | CommandStatus(status: Byte, opcode: Word)
    | EncryptionChange(status: Byte, handle: Word)
    | Disconnection(reason: Byte)
    | OtherEvent(code: Byte)
    | Acl(handle: Word, cid: Word, payload: Data)
    | Unknown

  // Shortest parameter block a conforming controller sends with an event.
  function MinParameters(code: Byte, subevent: Byte): nat {
    if code == EVT_CMD_STATUS || code == EVT_CMD_COMPLETE || code == EVT_DISCONN_COMPLETE
       || code == EVT_ENCRYPT_CHANGE then 4
    else if code == EVT_LE_META && subevent == LE_CONN_COMPLETE then 19
    else if code == EVT_LE_META && subevent == LE_LTK_REQUEST then 13
    else if code == EVT_LE_META then 2
    else 0
  }

  /** The length fields agree with the bytes received, and the packet fits the raw buffer. */
  predicate WellFormed(d: Data) {
    && 0 < |d| <= RAW_SIZE
    && (d[0] == EVENT_PKT ==>
          && |d| >= 3 && |d| - 3 == d[2]
          && d[2] >= MinParameters(d[1], if |d| > 3 then d[3] else 0))
    && (d[0] == ACLDATA_PKT ==>
          && |d| >= 9 && Le16(d[3], d[4]) == |d| - 5 && Le16(d[5], d[6]) == |d| - 9)
  }

  function EventFrame(code: Byte, p: Data): Frame
    requires |p| >= MinParameters(code, if |p| > 0 then p[0] else 0)
  {
    if code == EVT_LE_META then
      if p[0] == LE_CONN_COMPLETE then
        ConnectionComplete(p[1], Handle12(Le16(p[2], p[3])), p[5], p[6..12])
      else if p[0] == LE_LTK_REQUEST then LtkRequest(Handle12(Le16(p[1], p[2])))
      else LeMeta(p[0])
    else if code == EVT_CMD_COMPLETE then CommandComplete(Le16(p[1], p[2]), p[3])
    else if code == EVT_CMD_STATUS then CommandStatus(p[0], Le16(p[2], p[3]))
    else if code == EVT_ENCRYPT_CHANGE then EncryptionChange(p[0], Handle12(Le16(p[1], p[2])))
    else if code == EVT_DISCONN_COMPLETE then Disconnection(p[3])
    else OtherEvent(code)
  }

  function Classify(d: Data): Frame
    requires WellFormed(d)
  {
    if d[0] == EVENT_PKT then EventFrame(d[1], d[3..])
    else if d[0] == ACLDATA_PKT then Acl(Handle12(Le16(d[1], d[2])), Le16(d[7], d[8]), d[9..])
    else Unknown
  }

  // ---------- sending ----------

  // The command opcode: ten bits of OCF under six bits of OGF.
  function Opcode(ogf: Word, ocf: Word): Word {
    (ocf % 0x400 + ogf * 0x400) % 0x1_0000
  }

  function CommandDatagram(ogf: Word, ocf: Word, params: Data): Data
    requires |params| < 0x100
  {
    [COMMAND_PKT] + Put16(Opcode(ogf, ocf)) + [|params|] + params
  }

  const MAX_ACL := 0xFFFB

  // Handle word with the packet-boundary flag 10, ACL length, L2CAP length, channel.
  function AclHeader(handle: Word, cid: Word, len: nat): (h: Data)
    requires len <= MAX_ACL
    ensures |h| == 9
  {
    [ACLDATA_PKT] + Put16(Handle12(handle) + 2 * 0x1000) + Put16(4 + len) + Put16(len) + Put16(cid)
  }

  function AclDatagram(handle: Word, cid: Word, data: Data): Data
    requires |data| <= MAX_ACL
  {
    AclHeader(handle, cid, |data|) + data
  }

  lemma HandleWord(handle: Word)
    ensures Handle12(handle) + 2 * 0x1000 < 0x1_0000
    ensures Handle12(Handle12(handle) + 2 * 0x1000) == Handle12(handle)
    ensures Handle12(handle) == handle <==> handle < 0x1000
  {
  }

  // The fields of the datagram, one by one.
  lemma AclFields(handle: Word, cid: Word, data: Data)
    requires |data| <= MAX_ACL
    ensures var d := AclDatagram(handle, cid, data);
            && |d| == 9 + |data| && d[0] == ACLDATA_PKT && Handle12(Le16(d[1], d[2])) == Handle12(handle)
            && Le16(d[3], d[4]) == 4 + |data| && Le16(d[5], d[6]) == |data| && Le16(d[7], d[8]) == cid && d[9..] == data
  {
    var d, head := AclDatagram(handle, cid, data), AclHeader(handle, cid, |data|);
    var h := Put16(Handle12(handle) + 2 * 0x1000);
    assert head[1] == h[0] && head[2] == h[1];
    assert forall i | 0 <= i < 9 :: d[i] == head[i];
    HandleWord(handle);
  }

  lemma AclFits(handle: Word, cid: Word, data: Data)
    requires |data| <= 512
    ensures WellFormed(AclDatagram(handle, cid, data)) <==> |data| <= 503
  {
    AclFields(handle, cid, data);
  }

  /** A sent packet reads back unchanged exactly when its handle has twelve bits and it fits the
      receive buffer: 503 payload bytes, although the sender accepts 512. */
  lemma AclRoundTrip(handle: Word, cid: Word, data: Data)
    requires |data| <= 512
    ensures WellFormed(AclDatagram(handle, cid, data)) <==> |data| <= 503
    ensures |data| <= 503 ==>
      Classify(AclDatagram(handle, cid, data)) == Acl(Handle12(handle), cid, data)
    ensures |data| <= 503 ==>
      (Classify(AclDatagram(handle, cid, data)) == Acl(handle, cid, data) <==> handle < 0x1000)
  {
    AclFits(handle, cid, data);
    AclFields(handle, cid, data);
    HandleWord(handle);
  }

  lemma OpcodeParts(ogf: Word, ocf: Word)
    ensures Opcode(ogf, ocf) / 0x400 == ogf && Opcode(ogf, ocf) % 0x400 == ocf <==> ogf < 0x40 && ocf < 0x400
  {
    var low, op := ocf % 0x400, Opcode(ogf, ocf);
    if ogf < 0x40 {
      assert op == 0x400 * ogf + low;
      assert op / 0x400 == ogf && op % 0x400 == low;
    } else {
      assert op / 0x400 < 0x40;
    }
  }

  /** The opcode recovers group and command exactly when they fit their six and ten bits. */
  lemma CommandHeaderRoundTrip(ogf: Word, ocf: Word, params: Data)
    requires |params| < 0x100
    ensures var d := CommandDatagram(ogf, ocf, params);
            && |d| == 4 + |params| && d[3] == |params| && d[4..] == params
            && var op := Le16(d[1], d[2]);
               op / 0x400 == ogf && op % 0x400 == ocf <==> ogf < 0x40 && ocf < 0x400
  {
    var d := CommandDatagram(ogf, ocf, params);
    assert d[1] == Put16(Opcode(ogf, ocf))[0] && d[2] == Put16(Opcode(ogf, ocf))[1];
    OpcodeParts(ogf, ocf);
  }

  // ---------- the frame record filled in place ----------

  /** hci_user_frame_t; `payload` is an offset into `raw`. */
  class HciFrame {
    const raw: array<Byte>
    var rawLen: nat
    var pktType: Byte
    var evtCode: Byte
    var subevent: Byte
    var status: Byte
    var opcode: Word
    var handle: Word
    var cid: Word
    var aclLen: Word
    var l2capLen: Word
    var payload: nat
    var payloadLen: nat

    ghost predicate Valid() reads this {
      raw.Length == RAW_SIZE
    }

    constructor ()
      ensures Valid() && fresh(raw)
    {
      raw := new Byte[RAW_SIZE](_ => 0);
      rawLen, pktType, evtCode, subevent, status := 0, 0, 0, 0, 0;
      opcode, handle, cid, aclLen, l2capLen, payload, payloadLen := 0, 0, 0, 0, 0, 0, 0;
    }

    /** The tests the callers of hci_user_read_frame make on the record. */
    function View(): Frame
      reads this, raw
      requires Valid() && payload + payloadLen <= RAW_SIZE
    {
      var p := raw[payload..payload + payloadLen];
      if pktType == EVENT_PKT then
        if evtCode == EVT_DISCONN_COMPLETE then Disconnection(status)
        else if evtCode == EVT_ENCRYPT_CHANGE then EncryptionChange(status, handle)
        else if evtCode == EVT_CMD_STATUS then CommandStatus(status, opcode)
        else if evtCode == EVT_CMD_COMPLETE && payloadLen >= 4 then CommandComplete(Le16(p[1], p[2]), p[3])
        else if evtCode == EVT_LE_META && subevent == LE_CONN_COMPLETE && payloadLen >= 19 then
          ConnectionComplete(p[1], Handle12(Le16(p[2], p[3])), p[5], p[6..12])
        else if evtCode == EVT_LE_META && subevent == LE_LTK_REQUEST && payloadLen >= 13 then
          LtkRequest(Handle12(Le16(p[1], p[2])))
        else if evtCode == EVT_LE_META then LeMeta(subevent)
        else OtherEvent(evtCode)
      else if pktType == ACLDATA_PKT then Acl(handle, cid, p)
      else Unknown
    }

    /** hci_user_read_frame on one datagram, whatever the record held before. */
    method Read(datagram: Data) returns (rc: int)
      requires Valid() && WellFormed(datagram)
      modifies this, raw
      ensures rc == 1 && Valid() && raw[..|datagram|] == datagram && rawLen == |datagram|
      ensures datagram[0] in {EVENT_PKT, ACLDATA_PKT} ==>
                payload + payloadLen == |datagram| && View() == Classify(datagram)
      ensures datagram[0] !in {EVENT_PKT, ACLDATA_PKT} ==> pktType == datagram[0]
    {
      forall i | 0 <= i < |datagram| { raw[i] := datagram[i]; }
      assert raw[..|datagram|] == datagram;
      rawLen := |datagram|;
      pktType := raw[0];
      if raw[0] == EVENT_PKT && rawLen >= 3 {
        ParseEvent();
        assert raw[3..rawLen] == datagram[3..];
        ViewOfEvent(datagram[3..]);
      } else if raw[0] == ACLDATA_PKT && rawLen >= 9 {
        handle := Handle12(Le16(raw[1], raw[2]));
        aclLen := Le16(raw[3], raw[4]);
        l2capLen := Le16(raw[5], raw[6]);
        cid := Le16(raw[7], raw[8]);
        payload := 9;
        payloadLen := l2capLen;
        assert raw[9..rawLen] == datagram[9..];
      }
      rc := 1;
    }

    // What the fields say about an event whose parameters are p.
    ghost predicate Parsed(p: Data)
      reads this
    {
      && |p| >= MinParameters(evtCode, if |p| > 0 then p[0] else 0)
      && (evtCode == EVT_LE_META ==> subevent == p[0])
      && (evtCode == EVT_CMD_STATUS ==> status == p[0] && opcode == Le16(p[2], p[3]))
      && (evtCode == EVT_DISCONN_COMPLETE ==> status == p[3])
      && (evtCode == EVT_ENCRYPT_CHANGE ==> status == p[0] && handle == Handle12(Le16(p[1], p[2])))
    }

    lemma ViewOfEvent(p: Data)
      requires Valid() && pktType == EVENT_PKT && payload == 3 && payloadLen == |p| && 3 + |p| <= RAW_SIZE
      requires raw[3..3 + |p|] == p && Parsed(p)
      ensures View() == EventFrame(evtCode, p)
    {
    }

    method ParseEvent()
      requires Valid() && 3 <= rawLen <= RAW_SIZE && rawLen - 3 == raw[2]
      requires raw[2] >= MinParameters(raw[1], if rawLen > 3 then raw[3] else 0)
      modifies this
      ensures rawLen == old(rawLen) && pktType == old(pktType) && evtCode == raw[1]
      ensures payload == 3 && payloadLen == rawLen - 3 && Parsed(raw[3..rawLen])
    {
      ghost var p := raw[3..rawLen];
      assert |p| > 0 ==> p[0] == raw[3];
      assert |p| >= 4 ==> p[1] == raw[4] && p[2] == raw[5] && p[3] == raw[6];
      evtCode := raw[1];
      payload := 3;
      payloadLen := raw[2];
      subevent, status, opcode := 0, 0, 0;
      if evtCode == EVT_LE_META && payloadLen >= 2 {
        subevent := raw[payload];
      }
      if evtCode == EVT_CMD_STATUS && payloadLen >= 4 {
        status := raw[payload];
        opcode := Le16(raw[payload + 2], raw[payload + 3]);
      }
      if evtCode == EVT_DISCONN_COMPLETE && payloadLen >= 4 {
        handle := Handle12(Le16(raw[payload + 1], raw[payload + 2]));
        status := raw[payload + 3];
      }
      if evtCode == EVT_ENCRYPT_CHANGE && payloadLen >= 4 {
        status := raw[payload];
        handle := Handle12(Le16(raw[payload + 1], raw[payload + 2]));
      }
      assert Parsed(p);
      assert raw[3..rawLen] == p;
    }
  }

  method FillHeader(buf: array<Byte>, handle: Word, cid: Word, len: nat)
    requires len <= MAX_ACL && buf.Length >= 9
    modifies buf
    ensures buf[..9] == AclHeader(handle, cid, len)
  {
    var hf, acl, l2, ch := Put16(Handle12(handle) + 2 * 0x1000), Put16(4 + len), Put16(len), Put16(cid);
    buf[0] := ACLDATA_PKT;
    buf[1], buf[2] := hf[0], hf[1];
    buf[3], buf[4] := acl[0], acl[1];
    buf[5], buf[6] := l2[0], l2[1];
    buf[7], buf[8] := ch[0], ch[1];
  }

  method FillDatagram(buf: array<Byte>, handle: Word, cid: Word, data: array<Byte>, len: nat)
    requires len <= data.Length && len <= MAX_ACL && buf.Length >= 9 + len && buf != data
    modifies buf
    ensures buf[..9 + len] == AclDatagram(handle, cid, data[..len])
  {
    FillHeader(buf, handle, cid, len);
    ghost var head := buf[..9];
    forall i | 0 <= i < len { buf[9 + i] := data[i]; }
    assert buf[..9] == head;
    assert buf[9..9 + len] == data[..len];
    assert buf[..9 + len] == buf[..9] + buf[9..9 + len];
  }

  /** hci_user_acl_send: the buffer is filled field by field, then written as one datagram unless the socket refuses. */
  method AclSend(handle: Word, cid: Word, data: array<Byte>, len: nat, refused: bool)
    returns (rc: int, written: seq<Data>)
    requires len <= data.Length
    ensures rc == if len <= 512 && !refused then 0 else -1
    ensures rc == 0 ==> written == [AclDatagram(handle, cid, data[..len])]
    ensures rc == -1 ==> written == []
  {
    if len > 512 { return -1, []; }
    var buf := new Byte[5 + 4 + 512](_ => 0);
    FillDatagram(buf, handle, cid, data, len);
    if refused { return -1, []; }
    return 0, [buf[..9 + len]];
  }
}
