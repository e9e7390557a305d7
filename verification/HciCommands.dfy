/** The bytes of what the host writes: sw2d_final.c's command parameters in hci_transport_user.c's framing. */
module HciCommands {
  import opened Bytes
  import opened Wrappers
  import opened Transport
  import opened Controller
  import Host

  const OGF_LE: Word := 0x08

  // le_create_conn: scan interval and window, no filter, the peer, the own address type, and timing.
  function CreateParams(peerType: Byte, peer: Address, ownType: Byte): Data {
    [0x10, 0x00, 0x10, 0x00, 0x00, peerType] + peer + ([ownType] + TIMING)
  }

  // Connection interval 0x28 to 0x38, no latency, supervision timeout 0x0C80, event length 1.
  const TIMING: Data := [0x28, 0x00, 0x38, 0x00, 0x00, 0x00, 0x80, 0x0C, 0x01, 0x00, 0x01, 0x00]

  // Start Encryption with the short-term key: the random number and the diversifier are zero.
  function EncryptionParams(handle: Word, key: Block): Data {
    Put16(handle) + [0, 0, 0, 0, 0, 0, 0, 0] + Put16(0) + key
  }

  function Datagram(p: Packet): (d: Data)
    requires (p.SmpPdu? || p.AttPdu?) ==> |p.pdu| <= 512
  {
    match p
    case CreateConnection(peerType, peer, ownType) =>
      CommandDatagram(OGF_LE, 0x000D, CreateParams(peerType, peer, ownType))
    case CancelCreate => CommandDatagram(OGF_LE, 0x000E, [])
    case StartEncryption(handle, key) => CommandDatagram(OGF_LE, 0x0019, EncryptionParams(handle, key))
    case LtkReply(handle, key) => CommandDatagram(OGF_LE, 0x001A, Put16(handle) + key)
    case SmpPdu(handle, pdu) => AclDatagram(handle, Host.SMP_CID, pdu)
    case AttPdu(handle, pdu) => AclDatagram(handle, Host.ATT_CID, pdu)
  }

  // The controller's reading of it (sections 7.8.12, 7.8.13, 7.8.24, 7.8.25 and 5.4.2 of Core Specification Vol 4
  // Part E, and the channels of Vol 3 Part A).
  function ReadDatagram(d: Data): Option<Packet> {
    if |d| >= 4 && d[0] == 0x01 && |d| - 4 == d[3] then ReadCommand(Le16(d[1], d[2]), d[4..])
    else if |d| >= 9 && d[0] == 0x02 then
      var handle, cid := Handle12(Le16(d[1], d[2])), Le16(d[7], d[8]);
      if cid == 0x0006 then Some(SmpPdu(handle, d[9..]))
      else if cid == 0x0004 then Some(AttPdu(handle, d[9..]))
      else None
    else None
  }

  function ReadCommand(opcode: Word, q: Data): Option<Packet> {
    if opcode == 0x200D && |q| == 25 then Some(CreateConnection(q[5], q[6..12], q[12]))
    else if opcode == 0x200E && |q| == 0 then Some(CancelCreate)
    else if opcode == 0x2019 && |q| == 28 && (forall i | 2 <= i < 12 :: q[i] == 0) then
      Some(StartEncryption(Le16(q[0], q[1]), q[12..]))
    else if opcode == 0x201A && |q| == 18 then Some(LtkReply(Le16(q[0], q[1]), q[2..]))
    else None
  }

  lemma CommandReads(ocf: Word, params: Data)
    requires ocf < 0x400 && |params| < 0x100
    ensures var d := CommandDatagram(OGF_LE, ocf, params);
            && |d| == 4 + |params| && d[0] == 0x01 && Le16(d[1], d[2]) == 0x2000 + ocf
            && d[3] == |params| && d[4..] == params
  {
    var d := CommandDatagram(OGF_LE, ocf, params);
    var op := Put16(Opcode(OGF_LE, ocf));
    assert Opcode(OGF_LE, ocf) == 0x2000 + ocf;
    assert d[1] == op[0] && d[2] == op[1];
  }

  lemma CreateReads(peerType: Byte, peer: Address, ownType: Byte)
    ensures ReadCommand(0x200D, CreateParams(peerType, peer, ownType))
            == Some(CreateConnection(peerType, peer, ownType))
  {
    var q, tail := CreateParams(peerType, peer, ownType), [ownType] + TIMING;
    assert |q| == 25 && q[6..12] == peer && q[12..] == tail;
    assert q[12] == tail[0];
  }

  lemma EncryptionReads(handle: Word, key: Block)
    ensures ReadCommand(0x2019, EncryptionParams(handle, key)) == Some(StartEncryption(handle, key))
    ensures ReadCommand(0x201A, Put16(handle) + key) == Some(LtkReply(handle, key))
  {
    var q, r := EncryptionParams(handle, key), Put16(handle) + key;
    assert q[12..] == key && r[2..] == key;
    assert q[0] == Put16(handle)[0] && q[1] == Put16(handle)[1];
  }

  lemma PduReads(handle: Word, cid: Word, pdu: Data)
    requires handle < 0x1000 && cid in {0x0004, 0x0006} && |pdu| <= 512
    ensures ReadDatagram(AclDatagram(handle, cid, pdu))
            == Some(if cid == 0x0006 then SmpPdu(handle, pdu) else AttPdu(handle, pdu))
  {
    AclFields(handle, cid, pdu);
    HandleWord(handle);
  }

  /** What the host means is what the controller reads, for every command and every PDU on a twelve-bit handle. */
  lemma ControllerReadsWhatWasWritten(p: Packet)
    requires (p.SmpPdu? || p.AttPdu?) ==> |p.pdu| <= 512 && p.handle < 0x1000
    ensures ReadDatagram(Datagram(p)) == Some(p)
  {
    match p
    case CreateConnection(peerType, peer, ownType) =>
      CommandReads(0x000D, CreateParams(peerType, peer, ownType));
      CreateReads(peerType, peer, ownType);
    case CancelCreate => CommandReads(0x000E, []);
    case StartEncryption(handle, key) =>
      CommandReads(0x0019, EncryptionParams(handle, key));
      EncryptionReads(handle, key);
    case LtkReply(handle, key) =>
      CommandReads(0x001A, Put16(handle) + key);
      EncryptionReads(handle, key);
    case SmpPdu(handle, pdu) => PduReads(handle, 0x0006, pdu);
    case AttPdu(handle, pdu) => PduReads(handle, 0x0004, pdu);
  }

  // ---------- events ----------

  // An event as a conforming controller sends it (section 7.7 of Core Specification Vol 4 Part E); `filler` stands for
  // the parameters the host does not look at.
  function EventDatagram(code: Byte, params: Data): Data
    requires |params| < 0x100
  {
    [0x04, code, |params|] + params
  }

  function EncodedEvent(f: Frame, filler: Data): Data
    requires |filler| == 10
  {
    match f
    case ConnectionComplete(status, handle, peerType, peer) =>
      EventDatagram(0x3E, [0x01, status] + Put16(handle) + [filler[0], peerType] + peer + filler[..7])
    case LtkRequest(handle) => EventDatagram(0x3E, [0x05] + Put16(handle) + filler)
    case CommandComplete(opcode, status) => EventDatagram(0x0E, [filler[0]] + Put16(opcode) + [status])
    case CommandStatus(status, opcode) => EventDatagram(0x0F, [status, filler[0]] + Put16(opcode))
    case EncryptionChange(status, handle) => EventDatagram(0x08, [status] + Put16(handle) + [filler[0]])
    case Disconnection(reason) => EventDatagram(0x05, [0x00] + filler[..2] + [reason])
    case _ => EventDatagram(0xFF, [])
  }

  predicate IsEvent(f: Frame) {
    || (f.ConnectionComplete? && f.handle < 0x1000) || (f.LtkRequest? && f.handle < 0x1000)
    || f.CommandComplete? || f.CommandStatus?
    || (f.EncryptionChange? && f.handle < 0x1000) || f.Disconnection?
  }

  lemma ConnectionRead(status: Byte, handle: Word, peerType: Byte, peer: Address, filler: Data)
    requires handle < 0x1000 && |filler| == 10
    ensures var f := ConnectionComplete(status, handle, peerType, peer);
            WellFormed(EncodedEvent(f, filler)) && Classify(EncodedEvent(f, filler)) == f
  {
    var p := [0x01, status] + Put16(handle) + [filler[0], peerType] + peer + filler[..7];
    var d := EncodedEvent(ConnectionComplete(status, handle, peerType, peer), filler);
    assert d == [0x04, 0x3E, 19] + p && d[3..] == p;
    assert p[2] == Put16(handle)[0] && p[3] == Put16(handle)[1] && p[5] == peerType && p[6..12] == peer;
  }

  lemma HandleEventsRead(status: Byte, handle: Word, filler: Data)
    requires handle < 0x1000 && |filler| == 10
    ensures var f := LtkRequest(handle); WellFormed(EncodedEvent(f, filler)) && Classify(EncodedEvent(f, filler)) == f
    ensures var f := EncryptionChange(status, handle);
            WellFormed(EncodedEvent(f, filler)) && Classify(EncodedEvent(f, filler)) == f
  {
    var w := Put16(handle);
    var p, q := [0x05] + w + filler, [status] + w + [filler[0]];
    var d, e := EncodedEvent(LtkRequest(handle), filler), EncodedEvent(EncryptionChange(status, handle), filler);
    assert d == [0x04, 0x3E, 13] + p && d[3..] == p && p[1] == w[0] && p[2] == w[1];
    assert e == [0x04, 0x08, 4] + q && e[3..] == q && q[1] == w[0] && q[2] == w[1];
  }

  lemma OtherEventsRead(status: Byte, opcode: Word, filler: Data)
    requires |filler| == 10
    ensures var f := CommandComplete(opcode, status);
            WellFormed(EncodedEvent(f, filler)) && Classify(EncodedEvent(f, filler)) == f
    ensures var f := CommandStatus(status, opcode);
            WellFormed(EncodedEvent(f, filler)) && Classify(EncodedEvent(f, filler)) == f
    ensures var f := Disconnection(status);
            WellFormed(EncodedEvent(f, filler)) && Classify(EncodedEvent(f, filler)) == f
  {
    var w := Put16(opcode);
    var p, q, r := [filler[0]] + w + [status], [status, filler[0]] + w, [0x00] + filler[..2] + [status];
    var d := EncodedEvent(CommandComplete(opcode, status), filler);
    var e := EncodedEvent(CommandStatus(status, opcode), filler);
    var g := EncodedEvent(Disconnection(status), filler);
    assert d == [0x04, 0x0E, 4] + p && d[3..] == p && p[1] == w[0] && p[2] == w[1];
    assert e == [0x04, 0x0F, 4] + q && e[3..] == q && q[2] == w[0] && q[3] == w[1];
    assert g == [0x04, 0x05, 4] + r && g[3..] == r;
  }

  /** An event a conforming controller sends is read for what it is, whatever the parameters the host ignores. */
  lemma EventsReadAsSent(f: Frame, filler: Data)
    requires IsEvent(f) && |filler| == 10
    ensures WellFormed(EncodedEvent(f, filler)) && Classify(EncodedEvent(f, filler)) == f
  {
    match f
    case ConnectionComplete(status, handle, peerType, peer) => ConnectionRead(status, handle, peerType, peer, filler);
    case LtkRequest(handle) => HandleEventsRead(0, handle, filler);
    case EncryptionChange(status, handle) => HandleEventsRead(status, handle, filler);
    case CommandComplete(opcode, status) => OtherEventsRead(status, opcode, filler);
    case CommandStatus(status, opcode) => OtherEventsRead(status, opcode, filler);
    case Disconnection(reason) => OtherEventsRead(reason, 0, filler);
  }
}
