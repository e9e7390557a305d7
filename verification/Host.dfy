/** The reconnect loop of sw2d_final.c, as functions of the host's state and of a script.
    The script fixes everything the host does not control: when its reads time out, when its
    deadlines pass, what the controller does meanwhile and when the process is told to stop. */
module Host {
  import opened Bytes
  import opened Pairing
  import opened Transport
  import opened Controller

  const ATT_CID: Word := 0x0004
  const SMP_CID: Word := 0x0006

  const SMP_PAIRING_REQ: Byte := 0x01
  const SMP_PAIRING_RSP: Byte := 0x02
  const SMP_CONFIRM: Byte := 0x03
  const SMP_RANDOM: Byte := 0x04
  const SMP_PAIRING_FAILED: Byte := 0x05
  const SMP_SECURITY_REQUEST: Byte := 0x0b

  const ATT_ERROR_RSP: Byte := 0x01
  const ATT_MTU_REQ: Byte := 0x02
  const ATT_MTU_RSP: Byte := 0x03
  const ATT_READ_BY_TYPE_REQ: Byte := 0x08
  const ATT_READ_BY_TYPE_RSP: Byte := 0x09
  const ATT_READ_BY_GROUP_REQ: Byte := 0x10
  const ATT_READ_BY_GROUP_RSP: Byte := 0x11
  const ATT_WRITE_REQ: Byte := 0x12

  const PAIRING_REQUEST: PairingPdu := [SMP_PAIRING_REQ, 0x03, 0x00, 0x01, 0x10, 0x03, 0x03]
  const TK: Block := [0, 0, 0, 0, 0, 0, 0, 0, 0, 0, 0, 0, 0, 0, 0, 0]

  /** What stays fixed for the life of the process, and the oracles: `nonce(n)` is the random of
      session n, `fails(k)` says whether the k-th write fails, `stack(k)` is what an uninitialised
      buffer holds when k script entries are left. */
  datatype Config = Config(local: Address, localType: Byte, peer: Address, peerType: Byte, securityRequest: bool,
                           e: Cipher, nonce: nat -> Block, fails: nat -> bool, stack: nat -> Data)

  datatype Choice =
    | Turn(action: Action)  // the controller acts
    | Quiet                 // a read slice ends with nothing read
    | Expire                // the deadline of the current wait passes
    | Deliver               // the oldest unread frame is read

  datatype Entry = Wrote(packet: Packet, ok: bool) | Got(frame: Frame)

  /** session_t with the socket: the script left, the controller, the number of writes so far, whether a
      cancellation went unanswered, and what this session wrote and read. */
  datatype Sys = Sys(
    script: seq<Choice>, ctl: State, writes: nat, missed: bool, trace: seq<Entry>,
    didCancel: bool, lastReason: Byte, conn: Word,
    pres: PairingPdu, mrand: Block, sconfirm: Block, srand: Block, stk: Block,
    mtu: Word, reportHandle: Word, reportCccd: Word)

  /** `Reconnect` is the jump to the end of the loop body. */
  datatype Flow = Go(s: Sys) | Reconnect(s: Sys)
  {
    predicate IsFailure() { Reconnect? }
    function PropagateFailure(): Flow requires Reconnect? { this }
    function Extract(): Sys requires Go? { s }
  }

  // ---------- reading and writing ----------

  function Write(c: Config, s: Sys, p: Packet): Flow {
    var ok := !c.fails(s.writes);
    var s' := s.(writes := s.writes + 1, trace := s.trace + [Wrote(p, ok)],
                 ctl := if ok then s.ctl.Write(p) else s.ctl);
    if ok then Go(s') else Reconnect(s')
  }

  datatype Input =
    | Stopped                       // the process was told to stop
    | Elapsed(s: Sys)                // time passes
    | Nothing(s: Sys)               // the read returned without a frame
    | TimeUp(s: Sys)
    | Received(frame: Frame, s: Sys)

  function Poll(s: Sys): (i: Input)
    ensures i.Stopped? <==> s.script == []
    ensures !i.Stopped? ==> |i.s.script| < |s.script|
  {
    if s.script == [] then Stopped
    else
      var rest := s.(script := s.script[1..]);
      match s.script[0]
      case Turn(a) => Elapsed(rest.(ctl := Act(s.ctl, a)))
      case Quiet => Nothing(rest)
      case Expire => TimeUp(rest)
      case Deliver =>
        if s.ctl.unread == [] then Nothing(rest)
        else
          var f := s.ctl.unread[0];
          Received(f, rest.(ctl := Read(s.ctl), trace := s.trace + [Got(f)]))
  }

  // hci_user_cancel_connect: at most five frames are read in search of the reply.
  function Drain(s: Sys, frames: nat): Sys
    decreases |s.script|
  {
    if frames == 0 then s.(missed := true)
    else match Poll(s)
      case Stopped => s.(missed := true)
      case Elapsed(s') => Drain(s', frames)
      case Nothing(s') => s'.(missed := true)
      case TimeUp(s') => s'.(missed := true)
      case Received(f, s') => if CancelReply(f) then s' else Drain(s', frames - 1)
  }

  function Cancel(c: Config, s: Sys): Sys {
    match Write(c, s, CancelCreate)
    case Reconnect(s') => s'.(missed := true)
    case Go(s') => Drain(s', 5)
  }

  // rx_await for LE Connection Complete.
  function AwaitConnection(s: Sys): Flow
    decreases |s.script|
  {
    match Poll(s)
    case Stopped => Reconnect(s)
    case Elapsed(s') => AwaitConnection(s')
    case Nothing(s') => AwaitConnection(s')
    case TimeUp(s') => Reconnect(s')
    case Received(f, s') =>
      match f
      case Disconnection(reason) => Reconnect(s'.(lastReason := reason))
      case ConnectionComplete(status, handle, _, _) =>
        if status == SUCCESS then Go(s'.(conn := handle)) else Reconnect(s')
      case _ => AwaitConnection(s')
  }

  /** The result of rx_await_acl: its return code, the caller's buffer, and the length it reports. */
  datatype Rx = Rx(rc: int, buf: Data, len: nat, s: Sys)

  // A payload that does not fit leaves buffer and length as they were, and still counts as received.
  function AwaitAcl(s: Sys, cid: Word, buf: Data): Rx
    decreases |s.script|
  {
    match Poll(s)
    case Stopped => Rx(-1, buf, |buf|, s)
    case Elapsed(s') => AwaitAcl(s', cid, buf)
    case Nothing(s') => AwaitAcl(s', cid, buf)
    case TimeUp(s') => Rx(-1, buf, |buf|, s')
    case Received(f, s') =>
      match f
      case Disconnection(reason) => Rx(-2, buf, |buf|, s'.(lastReason := reason))
      case Acl(handle, channel, payload) =>
        if handle != s.conn || channel != cid then AwaitAcl(s', cid, buf)
        else if |payload| <= |buf| then Rx(0, payload + buf[|payload|..], |payload|, s')
        else Rx(0, buf, |buf|, s')
      case _ => AwaitAcl(s', cid, buf)
  }

  function Buffer(c: Config, s: Sys, size: nat): (b: Data)
    ensures |b| == size
  {
    var junk := c.stack(|s.script|);
    if |junk| >= size then junk[..size] else junk + seq(size - |junk|, _ => 0)
  }

  // ---------- the phases of a session ----------

  predicate IsResponse(rx: Rx) {
    rx.rc == 0 && rx.len >= 7 && |rx.buf| == 32 && rx.buf[0] == SMP_PAIRING_RSP
  }

  // A timeout, too, goes by what the buffer holds: it is retried if that looks like a Security Request.
  function AwaitPairingResponse(c: Config, s: Sys): Flow {
    var rx := AwaitAcl(s, SMP_CID, Buffer(c, s, 32));
    if rx.rc == -2 then Reconnect(rx.s)
    else if IsResponse(rx) then Go(rx.s.(pres := rx.buf[..7]))
    else if rx.len >= 2 && |rx.buf| == 32 && rx.buf[0] == SMP_SECURITY_REQUEST then
      var again := AwaitAcl(rx.s, SMP_CID, rx.buf);
      if IsResponse(again) then Go(again.s.(pres := again.buf[..7])) else Reconnect(again.s)
    else Reconnect(rx.s)
  }

  function RequestSecurity(c: Config, s: Sys): Flow {
    if c.securityRequest then Write(c, s, SmpPdu(s.conn, [SMP_SECURITY_REQUEST, 0x01])) else Go(s)
  }

  function Negotiate(c: Config, s: Sys): Flow {
    var s :- RequestSecurity(c, s);
    var s :- Write(c, s, SmpPdu(s.conn, PAIRING_REQUEST));
    AwaitPairingResponse(c, s)
  }

  // Our Confirm, over our Random and our addresses as initiator.
  function OurConfirm(c: Config, pres: PairingPdu, r: Block): Block {
    C1(c.e, TK, r, PAIRING_REQUEST, pres, c.localType, c.local, c.peerType, c.peer)
  }

  // The Confirm the peer must have sent for a Random: the same function with the addresses exchanged.
  function PeerConfirm(c: Config, pres: PairingPdu, r: Block): Block {
    C1(c.e, TK, r, PAIRING_REQUEST, pres, c.peerType, c.peer, c.localType, c.local)
  }

  // A 17-byte PDU with the given opcode, or nothing.
  function AwaitValue(c: Config, s: Sys, opcode: Byte): (r: (Flow, Block)) {
    var rx := AwaitAcl(s, SMP_CID, Buffer(c, s, 32));
    if rx.rc == 0 && rx.len == 17 && |rx.buf| == 32 && rx.buf[0] == opcode then (Go(rx.s), rx.buf[1..17])
    else (Reconnect(rx.s), TK)
  }

  function Commit(c: Config, n: nat, s: Sys): Flow {
    var s := s.(mrand := c.nonce(n));
    var s :- Write(c, s, SmpPdu(s.conn, [SMP_CONFIRM] + OurConfirm(c, s.pres, s.mrand)));
    var (flow, value) := AwaitValue(c, s, SMP_CONFIRM);
    var s :- flow;
    Go(s.(sconfirm := value))
  }

  function Reveal(c: Config, s: Sys): Flow {
    var s :- Write(c, s, SmpPdu(s.conn, [SMP_RANDOM] + s.mrand));
    var (flow, value) := AwaitValue(c, s, SMP_RANDOM);
    var s :- flow;
    var s := s.(srand := value);
    if PeerConfirm(c, s.pres, s.srand) != s.sconfirm then Reconnect(s)
    else Go(s.(stk := S1(c.e, TK, s.mrand, s.srand)))
  }

  function AwaitEncryption(c: Config, s: Sys): Flow
    decreases |s.script|
  {
    match Poll(s)
    case Stopped => Reconnect(s)
    case Elapsed(s') => AwaitEncryption(c, s')
    case Nothing(s') => AwaitEncryption(c, s')
    case TimeUp(s') => Reconnect(s')
    case Received(f, s') =>
      match f
      case Disconnection(_) => Reconnect(s')
      case EncryptionChange(status, handle) =>
        if status == SUCCESS && handle == s.conn then Go(s') else AwaitEncryption(c, s')
      case LtkRequest(handle) => AwaitEncryption(c, Write(c, s', LtkReply(handle, s.stk)).s)
      case _ => AwaitEncryption(c, s')
  }

  function Encrypt(c: Config, s: Sys): Flow {
    var s :- Write(c, s, StartEncryption(s.conn, s.stk));
    AwaitEncryption(c, s)
  }

  function ExchangeMtu(c: Config, s: Sys): Flow {
    var s :- Write(c, s, AttPdu(s.conn, [ATT_MTU_REQ, 0xFF, 0x00]));
    var rx := AwaitAcl(s, ATT_CID, Buffer(c, s, 32));
    Go(rx.s.(mtu := if rx.rc == 0 && rx.len >= 3 && |rx.buf| == 32 && rx.buf[0] == ATT_MTU_RSP
                    then Le16(rx.buf[1], rx.buf[2]) else 23))
  }

  // Returns the handle range of the first primary service, or the full range.
  function DiscoverService(c: Config, s: Sys): (r: (Flow, Word, Word)) {
    var flow := Write(c, s, AttPdu(s.conn, [ATT_READ_BY_GROUP_REQ, 0x01, 0x00, 0xFF, 0xFF, 0x00, 0x28]));
    if flow.Reconnect? then (flow, 0, 0)
    else
      var rx := AwaitAcl(flow.s, ATT_CID, Buffer(c, flow.s, 64));
      if rx.rc == 0 && rx.len >= 6 && |rx.buf| == 64 && rx.buf[0] == ATT_READ_BY_GROUP_RSP then
        (Go(rx.s), Le16(rx.buf[2], rx.buf[3]), Le16(rx.buf[4], rx.buf[5]))
      else (Go(rx.s), 0x0001, 0xFFFF)
  }

  lemma AwaitAclShrinks(s: Sys, cid: Word, buf: Data)
    ensures var rx := AwaitAcl(s, cid, buf);
            && |rx.s.script| <= |s.script| && (s.script != [] ==> |rx.s.script| < |s.script|)
            && (rx.rc == 0 ==> s.script != []) && |rx.buf| == |buf| && rx.len <= |buf|
            && rx.rc in {0, -1, -2}
    decreases |s.script|
  {
  }

  // A characteristic that can notify becomes the report characteristic, the last one seen winning.
  function Learn(s: Sys, buf: Data, len: nat): Sys
    requires |buf| == 64
  {
    if buf[0] == ATT_READ_BY_TYPE_RSP && len >= 7 && (buf[4] / 0x10) % 2 == 1 then
      var value := Le16(buf[5], buf[6]);
      s.(reportHandle := value, reportCccd := (value + 1) % 0x1_0000)
    else s
  }

  function Characteristics(c: Config, s: Sys): Flow
    decreases |s.script|
  {
    var rx := AwaitAcl(s, ATT_CID, Buffer(c, s, 64));
    AwaitAclShrinks(s, ATT_CID, Buffer(c, s, 64));
    if rx.rc == -2 then Reconnect(rx.s)
    else if rx.rc != 0 then Go(rx.s)
    else
      var s' := Learn(rx.s, rx.buf, rx.len);
      if rx.buf[0] == ATT_ERROR_RSP then Go(s') else Characteristics(c, s')
  }

  function DiscoverCharacteristics(c: Config, s: Sys, start: Word, end: Word): Flow {
    var s :- Write(c, s, AttPdu(s.conn, [ATT_READ_BY_TYPE_REQ] + Put16(start) + Put16(end) + [0x03, 0x28]));
    var s :- Characteristics(c, s);
    Go(if s.reportHandle == 0 then s.(reportHandle := 0x000E, reportCccd := 0x000F) else s)
  }

  function EnableNotifications(c: Config, s: Sys): Flow {
    var s :- Write(c, s, AttPdu(s.conn, [ATT_WRITE_REQ] + Put16(s.reportCccd) + [0x01, 0x00]));
    Go(AwaitAcl(s, ATT_CID, Buffer(c, s, 16)).s)
  }

  // The report loop ends with the connection or with the process.
  function Reports(s: Sys): Sys
    decreases |s.script|
  {
    match Poll(s)
    case Stopped => s
    case Elapsed(s') => Reports(s')
    case Nothing(s') => Reports(s')
    case TimeUp(s') => Reports(s')
    case Received(f, s') =>
      if f.Disconnection? then s'.(lastReason := f.reason) else Reports(s')
  }

  // ---------- one session, and the loop ----------

  function Connect(c: Config, s: Sys): Flow {
    var s :- Write(c, s, CreateConnection(c.peerType, c.peer, c.localType));
    AwaitConnection(s)
  }

  function Pair(c: Config, n: nat, s: Sys): Flow {
    var s :- Negotiate(c, s);
    var s :- Commit(c, n, s);
    Reveal(c, s)
  }

  function Secure(c: Config, n: nat, s: Sys): Flow {
    var s :- Connect(c, s);
    var s :- Pair(c, n, s);
    Encrypt(c, s)
  }

  function Attributes(c: Config, s: Sys): Flow {
    var s :- ExchangeMtu(c, s);
    var (flow, start, end) := DiscoverService(c, s);
    var s :- flow;
    var s :- DiscoverCharacteristics(c, s, start, end);
    var s :- EnableNotifications(c, s);
    Go(Reports(s))
  }

  // The top of the loop body, up to the create: the cancel flag is raised until encryption succeeds.
  function Begin(c: Config, s: Sys): Sys {
    var s := s.(trace := [], conn := 0, mtu := 0, lastReason := 0);
    var s := if s.didCancel || s.lastReason != 0 then Cancel(c, s) else s;
    s.(didCancel := true)
  }

  function Session(c: Config, n: nat, s: Sys): Sys {
    var flow := Secure(c, n, Begin(c, s));
    if flow.Reconnect? then flow.s
    else
      var rest := Attributes(c, flow.s.(didCancel := false));
      if rest.Reconnect? then rest.s else rest.s.(didCancel := false)
  }

  /** Up to `k` sessions, the first being number n; yields the trace of each session. */
  function Run(c: Config, n: nat, k: nat, s: Sys): (seq<seq<Entry>>, Sys)
    decreases k
  {
    if k == 0 || s.script == [] then ([], s)
    else
      var s1 := Session(c, n, s);
      var (traces, s2) := Run(c, n + 1, k - 1, s1);
      ([s1.trace] + traces, s2)
  }

  /** After hci_user_init: the controller has been reset; anything it may still report is not about creates. */
  predicate Booted(s: Sys) {
    && s.ctl.unprocessed == [] && !s.ctl.creating
    && (forall f | f in s.ctl.unread :: !Reserved(f))
    && (forall f | f in s.ctl.log :: !Reserved(f))
    && !s.didCancel && !s.missed
  }
}
