/** What every session's trace of writes and reads satisfies, against an arbitrary peer. */
module TraceSafety {
  import opened Bytes
  import opened Pairing
  import opened Transport
  import opened Controller
  import opened Host

  type Trace = seq<Entry>

  /** Where in a trace the pairing exchange took place, and the values exchanged. */
  datatype Handshake = Handshake(request: nat, response: nat, commit: nat, confirm: nat, revealed: nat, random: nat,
                                 handle: Word, pres: PairingPdu, mrand: Block, sconfirm: Block, srand: Block)

  // A Pairing Response of at least seven bytes was read; if it fits the 32-byte buffer those are `pres`.
  predicate Responded(t: Trace, i: nat, handle: Word, pres: PairingPdu) {
    && i < |t| && t[i].Got? && t[i].frame.Acl?
    && t[i].frame.handle == handle && t[i].frame.cid == SMP_CID
    && |t[i].frame.payload| >= 7 && pres[0] == SMP_PAIRING_RSP
    && (|t[i].frame.payload| <= 32 ==> t[i].frame.payload[..7] == pres)
  }

  /** c1 as this host as initiator must have it, and as it must hold of the responder's Random: in the first the
      host's address stands as the initiator's, in the second the two are exchanged. */
  function InitiatorConfirm(c: Config, pres: PairingPdu, r: Block): Block {
    C1(c.e, TK, r, PAIRING_REQUEST, pres, c.localType, c.local, c.peerType, c.peer)
  }

  function ResponderConfirm(c: Config, pres: PairingPdu, r: Block): Block {
    C1(c.e, TK, r, PAIRING_REQUEST, pres, c.peerType, c.peer, c.localType, c.local)
  }

  /** Request, response, our Confirm for `mrand`, then the peer's 17-byte Confirm. */
  predicate Committed(c: Config, t: Trace, w: Handshake) {
    && w.request < w.response < w.commit < w.confirm < |t|
    && t[w.request] == Wrote(SmpPdu(w.handle, PAIRING_REQUEST), true)
    && Responded(t, w.response, w.handle, w.pres)
    && t[w.commit] == Wrote(SmpPdu(w.handle, [SMP_CONFIRM] + InitiatorConfirm(c, w.pres, w.mrand)), true)
    && t[w.confirm] == Got(Acl(w.handle, SMP_CID, [SMP_CONFIRM] + w.sconfirm))
  }

  /** Then our Random, the very `mrand` committed to, and a Random of the peer that its Confirm commits to. */
  predicate Exchanged(c: Config, t: Trace, w: Handshake) {
    && Committed(c, t, w)
    && w.confirm < w.revealed < w.random < |t|
    && t[w.revealed] == Wrote(SmpPdu(w.handle, [SMP_RANDOM] + w.mrand), true)
    && t[w.random] == Got(Acl(w.handle, SMP_CID, [SMP_RANDOM] + w.srand))
    && ResponderConfirm(c, w.pres, w.srand) == w.sconfirm
  }

  predicate IsCancel(e: Entry) { e.Wrote? && e.packet.CancelCreate? }
  predicate IsCreate(e: Entry) { e.Wrote? && e.packet.CreateConnection? }
  predicate IsStart(e: Entry) { e.Wrote? && e.packet.StartEncryption? }
  predicate IsLoss(e: Entry) { e.Got? && e.frame.Disconnection? }

  predicate IsCompletion(e: Entry) { e.Got? && e.frame.ConnectionComplete? }
  predicate IsConnection(e: Entry, handle: Word) {
    IsCompletion(e) && e.frame.status == SUCCESS && e.frame.handle == handle
  }

  /** A create was written, the first Connection Complete read behind it made a connection with this handle, and no
      disconnection was read since the create. One read by the drain before it belongs to an earlier link. */
  ghost predicate Connected(t: Trace, handle: Word) {
    exists i: nat, j: nat :: LinkedAt(t, i, j, handle)
  }

  predicate LinkedAt(t: Trace, i: nat, j: nat, handle: Word) {
    && i < j < |t| && IsCreate(t[i]) && t[i].ok && IsConnection(t[j], handle)
    && (forall k | i < k < j :: !IsCompletion(t[k]))
    && (forall k | i < k < |t| :: !IsLoss(t[k]))
  }

  /** Start Encryption went out on this handle and was answered by a successful Encryption Change. */
  predicate EncryptedAt(t: Trace, i: nat, j: nat, handle: Word) {
    && i < j < |t|
    && t[i].Wrote? && t[i].ok && t[i].packet.StartEncryption? && t[i].packet.handle == handle
    && t[j] == Got(EncryptionChange(SUCCESS, handle))
  }

  ghost predicate Encrypted(t: Trace) {
    exists i: nat, j: nat, h: Word :: EncryptedAt(t, i, j, h)
  }

  /** May `e` follow `past` in the trace of one session? */
  ghost predicate Allowed(c: Config, n: nat, past: Trace, e: Entry) {
    e.Wrote? ==>
      match e.packet
      case CancelCreate => past == []
      case CreateConnection(peerType, peer, ownType) =>
        && peerType == c.peerType && peer == c.peer && ownType == c.localType
        && forall x | x in past :: !IsCreate(x)
      case SmpPdu(handle, pdu) =>
        && Connected(past, handle)
        && (pdu != [] && pdu[0] == SMP_RANDOM ==>
              exists w: Handshake ::
                Committed(c, past, w) && w.handle == handle && w.mrand == c.nonce(n) && pdu[1..] == w.mrand)
      case StartEncryption(handle, key) =>
        && Connected(past, handle)
        && exists w: Handshake ::
             && Exchanged(c, past, w) && w.handle == handle && w.mrand == c.nonce(n)
             && key == S1(c.e, TK, w.mrand, w.srand)
      case LtkReply(handle, key) =>
        && past != [] && past[|past| - 1] == Got(LtkRequest(handle))
        && exists w: Handshake ::
             && Exchanged(c, past, w) && Connected(past, w.handle) && w.mrand == c.nonce(n)
             && key == S1(c.e, TK, w.mrand, w.srand)
      case AttPdu(handle, _) => exists i: nat, j: nat :: EncryptedAt(past, i, j, handle)
  }

  ghost predicate AllowedAt(c: Config, n: nat, t: Trace, i: nat)
    requires i < |t|
  {
    Allowed(c, n, t[..i], t[i])
  }

  /** Every entry of the trace may follow those before it. */
  ghost predicate Proper(c: Config, n: nat, t: Trace) {
    forall i: nat | i < |t| :: AllowedAt(c, n, t, i)
  }

  lemma ProperSnoc(c: Config, n: nat, t: Trace, e: Entry)
    requires Proper(c, n, t) && Allowed(c, n, t, e)
    ensures Proper(c, n, t + [e])
  {
    var u := t + [e];
    forall i: nat | i < |u| ensures AllowedAt(c, n, u, i) {
      if i < |t| {
        assert AllowedAt(c, n, t, i);
        assert u[..i] == t[..i];
      } else {
        assert u[..i] == t;
      }
    }
  }

  // ---------- reading ----------

  /** Reading only appends received frames, none of them a disconnection unless said so. */
  ghost predicate Reads(s: Sys, s': Sys) {
    && s.trace <= s'.trace
    && forall i | |s.trace| <= i < |s'.trace| :: s'.trace[i].Got? && !s'.trace[i].frame.Disconnection?
  }

  // The fields of the session record that reading leaves alone.
  predicate SameRecord(s: Sys, s': Sys) {
    && s'.conn == s.conn && s'.pres == s.pres && s'.mrand == s.mrand && s'.sconfirm == s.sconfirm
    && s'.srand == s.srand && s'.stk == s.stk && s'.didCancel == s.didCancel
  }

  lemma PollReads(c: Config, n: nat, s: Sys)
    ensures var i := Poll(s);
            !i.Stopped? ==>
              && SameRecord(s, i.s)
              && (i.Received? ==> i.s.trace == s.trace + [Got(i.frame)])
              && (!i.Received? ==> i.s.trace == s.trace)
              && (i.Received? && !i.frame.Disconnection? ==> Reads(s, i.s))
              && (Proper(c, n, s.trace) ==> Proper(c, n, i.s.trace))
  {
    var i := Poll(s);
    if i.Received? && Proper(c, n, s.trace) { ProperSnoc(c, n, s.trace, Got(i.frame)); }
  }

  /** From s to s' only SMP PDUs were written. */
  ghost predicate Talks(s: Sys, s': Sys) {
    && s.trace <= s'.trace && s'.conn == s.conn && s'.didCancel == s.didCancel
    && forall i | |s.trace| <= i < |s'.trace| :: s'.trace[i].Wrote? ==> s'.trace[i].packet.SmpPdu?
  }

  // The last entry is the frame a successful wait returns, and the buffer holds its payload if that fits.
  predicate Returns(rx: Rx, handle: Word, cid: Word) {
    var t := rx.s.trace;
    && |t| > 0 && t[|t| - 1].Got? && t[|t| - 1].frame.Acl?
    && t[|t| - 1].frame.handle == handle && t[|t| - 1].frame.cid == cid
    && var p := t[|t| - 1].frame.payload;
       if |p| <= |rx.buf| then rx.len == |p| && rx.buf[..|p|] == p else rx.len == |rx.buf|
  }

  lemma {:induction false} AwaitAclReads(c: Config, n: nat, s: Sys, cid: Word, buf: Data)
    ensures var rx := AwaitAcl(s, cid, buf);
            && SameRecord(s, rx.s) && |rx.buf| == |buf|
            && Talks(s, rx.s)
            && (rx.rc != -2 ==> Reads(s, rx.s))
            && (rx.rc == 0 ==> Returns(rx, s.conn, cid) && |s.trace| < |rx.s.trace|)
            && (Proper(c, n, s.trace) ==> Proper(c, n, rx.s.trace))
    decreases |s.script|
  {
    PollReads(c, n, s);
    var i := Poll(s);
    if i.Elapsed? || i.Nothing? || (i.Received? && !i.frame.Disconnection?) {
      AwaitAclReads(c, n, i.s, cid, buf);
    }
  }

  // The wait ended with the first Connection Complete it read.
  ghost predicate Connects(s: Sys, s': Sys) {
    && Reads(s, s') && |s'.trace| > |s.trace| && IsConnection(s'.trace[|s'.trace| - 1], s'.conn)
    && forall i | |s.trace| <= i < |s'.trace| - 1 :: !IsCompletion(s'.trace[i])
  }

  // What a wait for the connection that began at s leaves behind.
  ghost predicate Ended(c: Config, n: nat, s: Sys, flow: Flow) {
    && flow.s.didCancel == s.didCancel && s.trace <= flow.s.trace
    && (flow.Go? ==> Connects(s, flow.s))
    && (forall i | |s.trace| <= i < |flow.s.trace| :: flow.s.trace[i].Got?)
    && (Proper(c, n, s.trace) ==> Proper(c, n, flow.s.trace))
  }

  // One more read that does not decide it.
  lemma EndedEarlier(c: Config, n: nat, s: Sys, s1: Sys, flow: Flow)
    requires Ended(c, n, s1, flow) && s1.didCancel == s.didCancel && Reads(s, s1)
    requires forall i | |s.trace| <= i < |s1.trace| :: !IsCompletion(s1.trace[i])
    requires Proper(c, n, s.trace) ==> Proper(c, n, s1.trace)
    ensures Ended(c, n, s, flow)
  {
  }

  predicate Undecided(s: Sys) {
    var i := Poll(s);
    i.Elapsed? || i.Nothing? || (i.Received? && !i.frame.Disconnection? && !i.frame.ConnectionComplete?)
  }

  lemma {:induction false} AwaitConnectionReads(c: Config, n: nat, s: Sys)
    ensures Ended(c, n, s, AwaitConnection(s))
    decreases |s.script|
  {
    PollReads(c, n, s);
    if Undecided(s) {
      var i := Poll(s);
      AwaitConnectionReads(c, n, i.s);
      EndedEarlier(c, n, s, i.s, AwaitConnection(i.s));
      assert AwaitConnection(s) == AwaitConnection(i.s);
    }
  }

  // ---------- pairing ----------

  predicate Agreed(t: Trace, request: nat, response: nat, handle: Word, pres: PairingPdu) {
    && request < response < |t|
    && t[request] == Wrote(SmpPdu(handle, PAIRING_REQUEST), true)
    && Responded(t, response, handle, pres)
  }

  lemma ReadsKeepConnected(s: Sys, s': Sys)
    requires Connected(s.trace, s.conn) && Reads(s, s') && s'.conn == s.conn
    ensures Connected(s'.trace, s'.conn)
  {
    var i: nat, j: nat :| LinkedAt(s.trace, i, j, s.conn);
    assert LinkedAt(s'.trace, i, j, s.conn);
  }

  lemma ConnectedLonger(t: Trace, e: Entry, handle: Word)
    requires Connected(t, handle) && !IsLoss(e)
    ensures Connected(t + [e], handle)
  {
    var i: nat, j: nat :| LinkedAt(t, i, j, handle);
    assert LinkedAt(t + [e], i, j, handle);
  }

  // Writing one packet that may be written now.
  lemma WriteTrace(c: Config, n: nat, s: Sys, p: Packet)
    requires Proper(c, n, s.trace) && Allowed(c, n, s.trace, Wrote(p, !c.fails(s.writes)))
    ensures var s' := Write(c, s, p).s;
            && s'.trace == s.trace + [Wrote(p, !c.fails(s.writes))]
            && Proper(c, n, s'.trace) && SameRecord(s, s')
            && (Connected(s.trace, s.conn) ==> Connected(s'.trace, s'.conn))
  {
    var e := Wrote(p, !c.fails(s.writes));
    ProperSnoc(c, n, s.trace, e);
    if Connected(s.trace, s.conn) { ConnectedLonger(s.trace, e, s.conn); }
  }

  // What one wait for the response leaves behind.
  ghost predicate ResponseAwaited(c: Config, n: nat, s: Sys, rx: Rx) {
    && Talks(s, rx.s) && Proper(c, n, rx.s.trace) && |rx.buf| == 32
    && (rx.rc != -2 ==> Connected(rx.s.trace, rx.s.conn))
    && (IsResponse(rx) ==> |rx.s.trace| > |s.trace|
                           && Responded(rx.s.trace, |rx.s.trace| - 1, s.conn, rx.buf[..7]))
  }

  lemma AwaitResponseTrace(c: Config, n: nat, s: Sys, buf: Data)
    requires Proper(c, n, s.trace) && Connected(s.trace, s.conn) && |buf| == 32
    ensures ResponseAwaited(c, n, s, AwaitAcl(s, SMP_CID, buf))
  {
    AwaitAclReads(c, n, s, SMP_CID, buf);
    var rx := AwaitAcl(s, SMP_CID, buf);
    if rx.rc != -2 { ReadsKeepConnected(s, rx.s); }
    if IsResponse(rx) {
      var p := rx.s.trace[|rx.s.trace| - 1].frame.payload;
      if 7 <= |p| <= 32 { assert p[..7] == rx.buf[..|p|][..7] == rx.buf[..7]; }
    }
  }

  // What a wait for the response leaves behind.
  ghost predicate Answered(c: Config, n: nat, s: Sys, flow: Flow) {
    && Talks(s, flow.s) && Proper(c, n, flow.s.trace)
    && (flow.Go? ==> |flow.s.trace| > |s.trace| && Connected(flow.s.trace, flow.s.conn)
                     && Responded(flow.s.trace, |flow.s.trace| - 1, s.conn, flow.s.pres))
  }

  lemma AnsweredLater(c: Config, n: nat, s: Sys, s1: Sys, flow: Flow)
    requires Talks(s, s1) && Answered(c, n, s1, flow)
    ensures Answered(c, n, s, flow)
  {
  }

  // The response as the host stores it.
  function Stored(rx: Rx): Flow
    requires |rx.buf| == 32
  {
    if IsResponse(rx) then Go(rx.s.(pres := rx.buf[..7])) else Reconnect(rx.s)
  }

  lemma OneAnswer(c: Config, n: nat, s: Sys, rx: Rx)
    requires ResponseAwaited(c, n, s, rx)
    ensures Answered(c, n, s, Stored(rx))
  {
  }

  lemma AwaitPairingResponseTrace(c: Config, n: nat, s: Sys)
    requires Proper(c, n, s.trace) && Connected(s.trace, s.conn)
    ensures Answered(c, n, s, AwaitPairingResponse(c, s))
  {
    var rx := AwaitAcl(s, SMP_CID, Buffer(c, s, 32));
    AwaitResponseTrace(c, n, s, Buffer(c, s, 32));
    OneAnswer(c, n, s, rx);
    if rx.rc != -2 {
      var again := AwaitAcl(rx.s, SMP_CID, rx.buf);
      AwaitResponseTrace(c, n, rx.s, rx.buf);
      OneAnswer(c, n, rx.s, again);
      AnsweredLater(c, n, s, rx.s, Stored(again));
    }
  }

  lemma RequestSecurityTrace(c: Config, n: nat, s: Sys)
    requires Proper(c, n, s.trace) && Connected(s.trace, s.conn)
    ensures var s' := RequestSecurity(c, s).s;
            Talks(s, s') && Proper(c, n, s'.trace) && Connected(s'.trace, s'.conn)
  {
    if c.securityRequest { WriteTrace(c, n, s, SmpPdu(s.conn, [SMP_SECURITY_REQUEST, 0x01])); }
  }

  // Our request and the wait for its response.
  lemma RequestTrace(c: Config, n: nat, s: Sys) returns (response: nat)
    requires Proper(c, n, s.trace) && Connected(s.trace, s.conn)
    ensures var f := Write(c, s, SmpPdu(s.conn, PAIRING_REQUEST));
            var flow := if f.Go? then AwaitPairingResponse(c, f.s) else f;
            && Talks(s, flow.s) && Proper(c, n, flow.s.trace)
            && (flow.Go? ==> Connected(flow.s.trace, flow.s.conn)
                             && Agreed(flow.s.trace, |s.trace|, response, s.conn, flow.s.pres))
  {
    response := 0;
    WriteTrace(c, n, s, SmpPdu(s.conn, PAIRING_REQUEST));
    var f := Write(c, s, SmpPdu(s.conn, PAIRING_REQUEST));
    if f.Reconnect? { return; }
    AwaitPairingResponseTrace(c, n, f.s);
    if AwaitPairingResponse(c, f.s).Go? { response := |AwaitPairingResponse(c, f.s).s.trace| - 1; }
  }

  lemma NegotiateTrace(c: Config, n: nat, s: Sys) returns (request: nat, response: nat)
    requires Proper(c, n, s.trace) && Connected(s.trace, s.conn)
    ensures var flow := Negotiate(c, s);
            && Talks(s, flow.s) && Proper(c, n, flow.s.trace)
            && (flow.Go? ==> Connected(flow.s.trace, flow.s.conn) && |s.trace| <= request
                             && Agreed(flow.s.trace, request, response, s.conn, flow.s.pres))
  {
    request, response := 0, 0;
    RequestSecurityTrace(c, n, s);
    var f := RequestSecurity(c, s);
    if f.Reconnect? { return; }
    request := |f.s.trace|;
    response := RequestTrace(c, n, f.s);
  }

  lemma AwaitValueTrace(c: Config, n: nat, s: Sys, opcode: Byte)
    requires Proper(c, n, s.trace) && Connected(s.trace, s.conn)
    ensures var (flow, value) := AwaitValue(c, s, opcode);
            && Talks(s, flow.s) && SameRecord(s, flow.s) && Proper(c, n, flow.s.trace)
            && (flow.Go? ==> |flow.s.trace| > |s.trace| && Connected(flow.s.trace, flow.s.conn)
                             && flow.s.trace[|flow.s.trace| - 1] == Got(Acl(s.conn, SMP_CID, [opcode] + value)))
  {
    var buf := Buffer(c, s, 32);
    AwaitAclReads(c, n, s, SMP_CID, buf);
    var rx := AwaitAcl(s, SMP_CID, buf);
    if rx.rc == 0 {
      ReadsKeepConnected(s, rx.s);
      assert rx.buf[..17] == [rx.buf[0]] + rx.buf[1..17];
    }
  }

  // From s the host wrote a PDU, reached s1, and waited until `heard`, which gave `value`.
  ghost predicate Heard(c: Config, n: nat, s: Sys, s1: Sys, pdu: Data, opcode: Byte, heard: Flow, value: Block) {
    && Talks(s, s1) && s1.trace == s.trace + [Wrote(SmpPdu(s.conn, pdu), true)]
    && Talks(s1, heard.s) && SameRecord(s, heard.s) && Proper(c, n, heard.s.trace)
    && (heard.Go? ==>
          && |heard.s.trace| > |s1.trace| && Connected(heard.s.trace, heard.s.conn)
          && heard.s.trace[|heard.s.trace| - 1] == Got(Acl(s.conn, SMP_CID, [opcode] + value)))
  }

  lemma WriteThenHear(c: Config, n: nat, s: Sys, s1: Sys, pdu: Data, opcode: Byte)
    requires Proper(c, n, s.trace) && Connected(s.trace, s.conn)
    requires Allowed(c, n, s.trace, Wrote(SmpPdu(s.conn, pdu), true))
    requires Write(c, s, SmpPdu(s.conn, pdu)) == Go(s1)
    ensures var (heard, value) := AwaitValue(c, s1, opcode); Heard(c, n, s, s1, pdu, opcode, heard, value)
  {
    WriteTrace(c, n, s, SmpPdu(s.conn, pdu));
    WriteTalks(c, s, SmpPdu(s.conn, pdu));
    AwaitValueTrace(c, n, s1, opcode);
  }

  // What the steps up to the peer's Confirm leave behind.
  ghost predicate Promised(c: Config, n: nat, s: Sys, flow: Flow, w: Handshake, request: nat) {
    && Talks(s, flow.s) && Proper(c, n, flow.s.trace)
    && (flow.Go? ==>
          && Connected(flow.s.trace, flow.s.conn) && Committed(c, flow.s.trace, w)
          && w.handle == s.conn && w.pres == flow.s.pres && w.request == request
          && w.mrand == flow.s.mrand == c.nonce(n) && w.sconfirm == flow.s.sconfirm)
  }

  lemma PromisedFrom(c: Config, n: nat, s: Sys, s1: Sys, heard: Flow, value: Block, flow: Flow, request: nat,
                     response: nat) returns (w: Handshake)
    requires Agreed(s.trace, request, response, s.conn, s.pres) && s.mrand == c.nonce(n)
    requires Heard(c, n, s, s1, [SMP_CONFIRM] + OurConfirm(c, s.pres, s.mrand), SMP_CONFIRM, heard, value)
    requires flow == if heard.Go? then Go(heard.s.(sconfirm := value)) else heard
    ensures Promised(c, n, s, flow, w, request)
  {
    TalksTransitive(s, s1, heard.s);
    w := Handshake(request, response, |s.trace|, 0, 0, 0, s.conn, s.pres, s.mrand, value, TK);
    if heard.Go? {
      w := w.(confirm := |heard.s.trace| - 1);
      assert heard.s.trace[|s.trace|] == s1.trace[|s.trace|];
      CommittedFrom(c, s.trace, heard.s.trace, w);
    }
  }

  lemma CommitDecides(c: Config, n: nat, s: Sys, s1: Sys)
    requires s.mrand == c.nonce(n)
    requires Write(c, s, SmpPdu(s.conn, [SMP_CONFIRM] + OurConfirm(c, s.pres, s.mrand))) == Go(s1)
    ensures var (heard, value) := AwaitValue(c, s1, SMP_CONFIRM);
            Commit(c, n, s) == if heard.Go? then Go(heard.s.(sconfirm := value)) else heard
  {
    assert s == s.(mrand := c.nonce(n));
  }

  lemma CommitTrace(c: Config, n: nat, s: Sys, request: nat, response: nat) returns (w: Handshake)
    requires Proper(c, n, s.trace) && Connected(s.trace, s.conn)
    requires Agreed(s.trace, request, response, s.conn, s.pres)
    ensures Promised(c, n, s, Commit(c, n, s), w, request)
  {
    var t := s.(mrand := c.nonce(n));
    var pdu := [SMP_CONFIRM] + OurConfirm(c, t.pres, t.mrand);
    var f := Write(c, t, SmpPdu(t.conn, pdu));
    if f.Reconnect? {
      WriteTrace(c, n, t, SmpPdu(t.conn, pdu));
      WriteTalks(c, t, SmpPdu(t.conn, pdu));
      return Handshake(request, response, 0, 0, 0, 0, s.conn, s.pres, t.mrand, TK, TK);
    }
    WriteThenHear(c, n, t, f.s, pdu, SMP_CONFIRM);
    CommitDecides(c, n, t, f.s);
    var (heard, value) := AwaitValue(c, f.s, SMP_CONFIRM);
    w := PromisedFrom(c, n, t, f.s, heard, value, Commit(c, n, t), request, response);
  }

  // A committed exchange becomes complete with our Random and one its Confirm commits to.
  lemma ExchangedFrom(c: Config, t0: Trace, t: Trace, w: Handshake, value: Block)
    returns (w': Handshake)
    requires Committed(c, t0, w) && t0 <= t && |t0| < |t| - 1
    requires t[|t0|] == Wrote(SmpPdu(w.handle, [SMP_RANDOM] + w.mrand), true)
    requires t[|t| - 1] == Got(Acl(w.handle, SMP_CID, [SMP_RANDOM] + value))
    requires PeerConfirm(c, w.pres, value) == w.sconfirm
    ensures Exchanged(c, t, w') && w'.handle == w.handle && w'.mrand == w.mrand && w'.request == w.request
    ensures w'.srand == value
  {
    w' := w.(revealed := |t0|, random := |t| - 1, srand := value);
    SameConfirms(c, w.pres, value);
  }

  lemma CommittedFrom(c: Config, t0: Trace, t: Trace, w: Handshake)
    requires Agreed(t0, w.request, w.response, w.handle, w.pres) && t0 <= t && |t0| < |t| - 1
    requires w.commit == |t0| && w.confirm == |t| - 1
    requires t[|t0|] == Wrote(SmpPdu(w.handle, [SMP_CONFIRM] + OurConfirm(c, w.pres, w.mrand)), true)
    requires t[|t| - 1] == Got(Acl(w.handle, SMP_CID, [SMP_CONFIRM] + w.sconfirm))
    ensures Committed(c, t, w)
  {
    SameConfirms(c, w.pres, w.mrand);
  }

  lemma SameConfirms(c: Config, pres: PairingPdu, r: Block)
    ensures InitiatorConfirm(c, pres, r) == OurConfirm(c, pres, r)
    ensures ResponderConfirm(c, pres, r) == PeerConfirm(c, pres, r)
  {
  }

  // What revealing our Random leaves behind.
  ghost predicate Revealed(c: Config, n: nat, s: Sys, flow: Flow, w: Handshake, request: nat) {
    && Talks(s, flow.s) && Proper(c, n, flow.s.trace)
    && (flow.Go? ==>
          && Connected(flow.s.trace, flow.s.conn) && Exchanged(c, flow.s.trace, w)
          && w.handle == s.conn && w.mrand == c.nonce(n) && w.request == request
          && flow.s.stk == S1(c.e, TK, w.mrand, w.srand))
  }

  // The outcome, by the comparison of the Confirm heard before.
  predicate RevealDecided(c: Config, s: Sys, heard: Flow, value: Block, flow: Flow) {
    && flow.s.trace == heard.s.trace && flow.s.conn == heard.s.conn && flow.s.didCancel == heard.s.didCancel
    && (flow.Go? ==>
          && heard.Go? && PeerConfirm(c, s.pres, value) == s.sconfirm
          && flow.s.stk == S1(c.e, TK, s.mrand, value))
  }

  lemma RevealedFrom(c: Config, n: nat, s: Sys, s1: Sys, heard: Flow, value: Block, flow: Flow, w: Handshake)
    returns (w': Handshake)
    requires Committed(c, s.trace, w) && w.handle == s.conn && w.mrand == c.nonce(n)
    requires w.pres == s.pres && w.mrand == s.mrand && w.sconfirm == s.sconfirm
    requires Heard(c, n, s, s1, [SMP_RANDOM] + s.mrand, SMP_RANDOM, heard, value)
    requires RevealDecided(c, s, heard, value, flow)
    ensures Revealed(c, n, s, flow, w', w.request)
  {
    TalksTransitive(s, s1, heard.s);
    w' := w;
    if flow.Go? {
      assert heard.s.trace[|s.trace|] == s1.trace[|s.trace|];
      w' := ExchangedFrom(c, s.trace, heard.s.trace, w, value);
    }
  }

  lemma RevealDecides(c: Config, s: Sys, s1: Sys, heard: Flow, value: Block)
    requires Write(c, s, SmpPdu(s.conn, [SMP_RANDOM] + s.mrand)) == Go(s1)
    requires AwaitValue(c, s1, SMP_RANDOM) == (heard, value) && SameRecord(s, heard.s)
    ensures RevealDecided(c, s, heard, value, Reveal(c, s))
  {
  }

  lemma RevealFails(c: Config, n: nat, s: Sys, w: Handshake)
    requires Proper(c, n, s.trace) && Connected(s.trace, s.conn) && Committed(c, s.trace, w)
    requires w.handle == s.conn && w.mrand == s.mrand == c.nonce(n)
    requires Write(c, s, SmpPdu(s.conn, [SMP_RANDOM] + s.mrand)).Reconnect?
    ensures Revealed(c, n, s, Reveal(c, s), w, w.request)
  {
    var p := SmpPdu(s.conn, [SMP_RANDOM] + s.mrand);
    MayReveal(c, n, s, w);
    WriteTrace(c, n, s, p);
    WriteTalks(c, s, p);
  }

  lemma RevealTrace(c: Config, n: nat, s: Sys, w: Handshake) returns (w': Handshake)
    requires Proper(c, n, s.trace) && Connected(s.trace, s.conn) && Committed(c, s.trace, w)
    requires w.handle == s.conn && w.pres == s.pres && w.mrand == s.mrand == c.nonce(n) && w.sconfirm == s.sconfirm
    ensures Revealed(c, n, s, Reveal(c, s), w', w.request)
  {
    var f := Write(c, s, SmpPdu(s.conn, [SMP_RANDOM] + s.mrand));
    if f.Reconnect? {
      RevealFails(c, n, s, w);
      return w;
    }
    var (heard, value) := AwaitValue(c, f.s, SMP_RANDOM);
    MayReveal(c, n, s, w);
    WriteThenHear(c, n, s, f.s, [SMP_RANDOM] + s.mrand, SMP_RANDOM);
    RevealDecides(c, s, f.s, heard, value);
    w' := RevealedFrom(c, n, s, f.s, heard, value, Reveal(c, s), w);
  }

  lemma TalksTransitive(s: Sys, s1: Sys, s2: Sys)
    requires Talks(s, s1) && Talks(s1, s2)
    ensures Talks(s, s2)
  {
  }

  lemma WriteTalks(c: Config, s: Sys, p: Packet)
    requires p.SmpPdu?
    ensures Talks(s, Write(c, s, p).s)
  {
  }

  lemma MayReveal(c: Config, n: nat, s: Sys, w: Handshake)
    requires Connected(s.trace, s.conn) && Committed(c, s.trace, w)
    requires w.handle == s.conn && w.mrand == s.mrand == c.nonce(n)
    ensures Allowed(c, n, s.trace, Wrote(SmpPdu(s.conn, [SMP_RANDOM] + s.mrand), !c.fails(s.writes)))
  {
    assert ([SMP_RANDOM] + s.mrand)[1..] == w.mrand;
  }

  // The steps up to the peer's Confirm.
  function Promise(c: Config, n: nat, s: Sys): Flow {
    var s :- Negotiate(c, s);
    Commit(c, n, s)
  }

  lemma PromiseTrace(c: Config, n: nat, s: Sys) returns (w: Handshake)
    requires Proper(c, n, s.trace) && Connected(s.trace, s.conn)
    ensures var flow := Promise(c, n, s);
            && Talks(s, flow.s) && Proper(c, n, flow.s.trace)
            && (flow.Go? ==>
                  && Connected(flow.s.trace, flow.s.conn) && Committed(c, flow.s.trace, w) && |s.trace| <= w.request
                  && w.handle == s.conn && w.pres == flow.s.pres
                  && w.mrand == flow.s.mrand == c.nonce(n) && w.sconfirm == flow.s.sconfirm)
  {
    w := Handshake(0, 0, 0, 0, 0, 0, 0, PAIRING_REQUEST, TK, TK, TK);
    var request, response := NegotiateTrace(c, n, s);
    var f := Negotiate(c, s);
    if f.Reconnect? { return; }
    w := CommitTrace(c, n, f.s, request, response);
  }

  lemma PairTrace(c: Config, n: nat, s: Sys) returns (w: Handshake)
    requires Proper(c, n, s.trace) && Connected(s.trace, s.conn)
    ensures var flow := Pair(c, n, s);
            && Talks(s, flow.s) && Proper(c, n, flow.s.trace)
            && (flow.Go? ==>
                  && Connected(flow.s.trace, flow.s.conn) && Exchanged(c, flow.s.trace, w) && |s.trace| <= w.request
                  && w.handle == s.conn && w.mrand == c.nonce(n)
                  && flow.s.stk == S1(c.e, TK, w.mrand, w.srand))
  {
    w := PromiseTrace(c, n, s);
    var f := Promise(c, n, s);
    if f.Reconnect? { return; }
    w := RevealTrace(c, n, f.s, w);
  }

  // ---------- encrypting ----------

  /** No key has been put to use yet. */
  ghost predicate Unkeyed(t: Trace) {
    forall i | 0 <= i < |t| :: !IsStart(t[i])
  }

  /** The session key is the one of this exchange. */
  ghost predicate Keyed(c: Config, n: nat, s: Sys, w: Handshake) {
    && Proper(c, n, s.trace) && Exchanged(c, s.trace, w)
    && w.mrand == c.nonce(n) && s.stk == S1(c.e, TK, w.mrand, w.srand)
  }

  lemma KeyedExtends(c: Config, n: nat, s: Sys, s': Sys, w: Handshake)
    requires Keyed(c, n, s, w) && s.trace <= s'.trace && s'.stk == s.stk && Proper(c, n, s'.trace)
    ensures Keyed(c, n, s', w)
  {
  }

  // Nothing but long-term-key replies was written.
  ghost predicate Waits(s: Sys, s': Sys) {
    && s.trace <= s'.trace && SameRecord(s, s')
    && forall i | |s.trace| <= i < |s'.trace| :: !IsStart(s'.trace[i])
  }

  // No success was read on the connection in use.
  ghost predicate Unsuccessful(s: Sys, s': Sys) {
    forall i | |s.trace| <= i < |s'.trace| :: s'.trace[i] != Got(EncryptionChange(SUCCESS, s.conn))
  }

  lemma WaitsTransitive(s: Sys, s1: Sys, s2: Sys)
    requires Waits(s, s1) && Waits(s1, s2)
    ensures Waits(s, s2)
    ensures Unsuccessful(s, s1) && Unsuccessful(s1, s2) ==> Unsuccessful(s, s2)
  {
  }

  // The wait for encryption is not decided by the next poll.
  predicate GoesOn(s: Sys) {
    var i := Poll(s);
    i.Elapsed? || i.Nothing? || (i.Received? && !i.frame.Disconnection? && i.frame != EncryptionChange(SUCCESS, s.conn))
  }

  // Where it goes on from.
  function Onward(c: Config, s: Sys): Sys
    requires GoesOn(s)
  {
    var i := Poll(s);
    if i.Received? && i.frame.LtkRequest? then Write(c, i.s, LtkReply(i.frame.handle, s.stk)).s else i.s
  }

  lemma WaitsOneStep(c: Config, s: Sys)
    requires GoesOn(s)
    ensures var next := Onward(c, s);
            Waits(s, next) && Unsuccessful(s, next) && |next.script| < |s.script|
            && AwaitEncryption(c, s) == AwaitEncryption(c, next)
  {
  }

  // Waiting ends well with the Encryption Change it waits for, and badly without one.
  lemma {:induction false} AwaitEncryptionEnds(c: Config, s: Sys)
    ensures var flow := AwaitEncryption(c, s);
            var t := flow.s.trace;
            && Waits(s, flow.s)
            && (flow.Go? ==> |t| > |s.trace| && t[|t| - 1] == Got(EncryptionChange(SUCCESS, s.conn)))
            && (flow.Reconnect? ==> Unsuccessful(s, flow.s))
    decreases |s.script|
  {
    if GoesOn(s) {
      var next := Onward(c, s);
      WaitsOneStep(c, s);
      AwaitEncryptionEnds(c, next);
      WaitsTransitive(s, next, AwaitEncryption(c, next).s);
    }
  }

  lemma LtkReplyTrace(c: Config, n: nat, s: Sys, handle: Word, w: Handshake)
    requires Keyed(c, n, s, w) && w.handle == s.conn && Connected(s.trace, s.conn)
    requires s.trace[|s.trace| - 1] == Got(LtkRequest(handle))
    ensures var s' := Write(c, s, LtkReply(handle, s.stk)).s; Keyed(c, n, s', w) && Connected(s'.trace, s'.conn)
  {
    WriteTrace(c, n, s, LtkReply(handle, s.stk));
    KeyedExtends(c, n, s, Write(c, s, LtkReply(handle, s.stk)).s, w);
  }

  lemma {:induction false} AwaitEncryptionTrace(c: Config, n: nat, s: Sys, w: Handshake)
    requires Keyed(c, n, s, w) && w.handle == s.conn && Connected(s.trace, s.conn)
    ensures Proper(c, n, AwaitEncryption(c, s).s.trace)
    decreases |s.script|
  {
    PollReads(c, n, s);
    var i := Poll(s);
    if i.Stopped? || i.TimeUp? || (i.Received? && i.frame.Disconnection?) { return; }
    KeyedExtends(c, n, s, i.s, w);
    ReadsKeepConnected(s, i.s);
    if i.Received? && i.frame.LtkRequest? {
      LtkReplyTrace(c, n, i.s, i.frame.handle, w);
      AwaitEncryptionTrace(c, n, Write(c, i.s, LtkReply(i.frame.handle, s.stk)).s, w);
    } else {
      AwaitEncryptionTrace(c, n, i.s, w);
    }
  }

  // Entry i is a key request, answered at once with the session key for the handle it names.
  predicate Answers(t: Trace, i: nat, key: Block) {
    && i + 1 < |t| && t[i].Got? && t[i].frame.LtkRequest?
    && t[i + 1].Wrote? && t[i + 1].packet == LtkReply(t[i].frame.handle, key)
  }

  // From `at` on every key request is answered, and nothing else is written.
  ghost predicate AllAnswered(t: Trace, at: nat, key: Block) {
    && at <= |t|
    && (forall i | at <= i < |t| && t[i].Got? && t[i].frame.LtkRequest? :: Answers(t, i, key))
    && (forall i | at <= i < |t| && t[i].Wrote? :: i > at && Answers(t, i - 1, key))
  }

  lemma AnsweredEarlier(t: Trace, at: nat, later: nat, key: Block)
    requires at <= later && AllAnswered(t, later, key)
    requires later == at || (later == at + 1 && t[at].Got? && !t[at].frame.LtkRequest?)
             || (later == at + 2 && Answers(t, at, key))
    ensures AllAnswered(t, at, key)
  {
  }

  lemma AwaitEncryptionExtends(c: Config, s: Sys)
    ensures s.trace <= AwaitEncryption(c, s).s.trace
  {
    AwaitEncryptionEnds(c, s);
  }

  /** While encryption is awaited the key is written for a handle, in use or not, exactly when a key request for that
      handle is read, and right behind it. */
  lemma {:induction false} KeyRequestsAnswered(c: Config, s: Sys)
    ensures AllAnswered(AwaitEncryption(c, s).s.trace, |s.trace|, s.stk)
    decreases |s.script|
  {
    if GoesOn(s) {
      var next := Onward(c, s);
      WaitsOneStep(c, s);
      KeyRequestsAnswered(c, next);
      AwaitEncryptionExtends(c, next);
      AnsweredEarlier(AwaitEncryption(c, next).s.trace, |s.trace|, |next.trace|, s.stk);
    }
  }

  lemma EncryptTrace(c: Config, n: nat, s: Sys, w: Handshake)
    requires Keyed(c, n, s, w) && w.handle == s.conn && Connected(s.trace, s.conn)
    ensures Proper(c, n, Encrypt(c, s).s.trace)
  {
    var p := StartEncryption(s.conn, s.stk);
    WriteTrace(c, n, s, p);
    var f := Write(c, s, p);
    if f.Go? {
      KeyedExtends(c, n, s, f.s, w);
      AwaitEncryptionTrace(c, n, f.s, w);
    }
  }

  lemma EncryptEnds(c: Config, s: Sys)
    requires Unkeyed(s.trace)
    ensures var flow := Encrypt(c, s);
            && s.trace <= flow.s.trace && flow.s.conn == s.conn && flow.s.didCancel == s.didCancel
            && (flow.Go? ==> flow.s.trace != [] && EncryptedAt(flow.s.trace, |s.trace|, |flow.s.trace| - 1, s.conn))
            && (flow.Reconnect? ==> !Encrypted(flow.s.trace))
  {
    var f := Write(c, s, StartEncryption(s.conn, s.stk));
    AwaitEncryptionEnds(c, f.s);
    var t := Encrypt(c, s).s.trace;
    assert forall i | 0 <= i < |t| && IsStart(t[i]) :: i == |s.trace|;
  }

  // ---------- attributes and reports ----------

  /** From s to s' only ATT PDUs on the connection were written, all of them properly. */
  ghost predicate Continues(c: Config, n: nat, s: Sys, s': Sys) {
    && s.trace <= s'.trace && s'.conn == s.conn && s'.didCancel == s.didCancel
    && Proper(c, n, s'.trace)
    && forall i | |s.trace| <= i < |s'.trace| :: s'.trace[i].Wrote? ==> s'.trace[i].packet.AttPdu?
  }

  ghost predicate Secured(c: Config, n: nat, s: Sys) {
    Proper(c, n, s.trace) && exists i: nat, j: nat :: EncryptedAt(s.trace, i, j, s.conn)
  }

  lemma SecuredExtends(c: Config, n: nat, s: Sys, s': Sys)
    requires Secured(c, n, s) && Continues(c, n, s, s')
    ensures Secured(c, n, s')
  {
    var i: nat, j: nat :| EncryptedAt(s.trace, i, j, s.conn);
    assert EncryptedAt(s'.trace, i, j, s.conn);
  }

  // Writing an ATT PDU and waiting for the answer: the shape of four of the five steps.
  lemma AskTrace(c: Config, n: nat, s: Sys, pdu: Data, size: nat)
    requires Secured(c, n, s)
    ensures var s1 := Write(c, s, AttPdu(s.conn, pdu)).s;
            && Continues(c, n, s, s1) && Secured(c, n, s1)
            && var s2 := AwaitAcl(s1, ATT_CID, Buffer(c, s1, size)).s;
               Continues(c, n, s, s2) && Secured(c, n, s2)
  {
    var s1 := Write(c, s, AttPdu(s.conn, pdu)).s;
    WriteTrace(c, n, s, AttPdu(s.conn, pdu));
    SecuredExtends(c, n, s, s1);
    AwaitAclContinues(c, n, s1, Buffer(c, s1, size));
  }

  lemma AwaitAclContinues(c: Config, n: nat, s: Sys, buf: Data)
    requires Secured(c, n, s)
    ensures var s' := AwaitAcl(s, ATT_CID, buf).s; Continues(c, n, s, s') && Secured(c, n, s')
  {
    AwaitAclReads(c, n, s, ATT_CID, buf);
    var s' := AwaitAcl(s, ATT_CID, buf).s;
    AwaitAclGets(s, ATT_CID, buf);
    SecuredExtends(c, n, s, s');
  }

  lemma {:induction false} AwaitAclGets(s: Sys, cid: Word, buf: Data)
    ensures var s' := AwaitAcl(s, cid, buf).s;
            s.trace <= s'.trace && forall i | |s.trace| <= i < |s'.trace| :: s'.trace[i].Got?
    decreases |s.script|
  {
    var i := Poll(s);
    if i.Elapsed? || i.Nothing? || i.Received? { AwaitAclGets(i.s, cid, buf); }
  }

  lemma {:induction false} CharacteristicsTrace(c: Config, n: nat, s: Sys)
    requires Secured(c, n, s)
    ensures var s' := Characteristics(c, s).s; Continues(c, n, s, s') && Secured(c, n, s')
    decreases |s.script|
  {
    var buf := Buffer(c, s, 64);
    AwaitAclShrinks(s, ATT_CID, buf);
    AwaitAclContinues(c, n, s, buf);
    var rx := AwaitAcl(s, ATT_CID, buf);
    if rx.rc == 0 { CharacteristicsTrace(c, n, Learn(rx.s, rx.buf, rx.len)); }
  }

  lemma {:induction false} ReportsTrace(c: Config, n: nat, s: Sys)
    requires Proper(c, n, s.trace)
    ensures Continues(c, n, s, Reports(s))
    decreases |s.script|
  {
    PollReads(c, n, s);
    var i := Poll(s);
    if !i.Stopped? { ReportsTrace(c, n, i.s); }
  }

  lemma DiscoverCharacteristicsTrace(c: Config, n: nat, s: Sys, start: Word, end: Word)
    requires Secured(c, n, s)
    ensures var s' := DiscoverCharacteristics(c, s, start, end).s; Continues(c, n, s, s') && Secured(c, n, s')
  {
    var pdu := [ATT_READ_BY_TYPE_REQ] + Put16(start) + Put16(end) + [0x03, 0x28];
    AskTrace(c, n, s, pdu, 64);
    CharacteristicsTrace(c, n, Write(c, s, AttPdu(s.conn, pdu)).s);
  }

  lemma ExchangeMtuTrace(c: Config, n: nat, s: Sys)
    requires Secured(c, n, s)
    ensures var s' := ExchangeMtu(c, s).s; Continues(c, n, s, s') && Secured(c, n, s')
  {
    AskTrace(c, n, s, [ATT_MTU_REQ, 0xFF, 0x00], 32);
  }

  lemma DiscoverServiceTrace(c: Config, n: nat, s: Sys)
    requires Secured(c, n, s)
    ensures var s' := DiscoverService(c, s).0.s; Continues(c, n, s, s') && Secured(c, n, s')
  {
    AskTrace(c, n, s, [ATT_READ_BY_GROUP_REQ, 0x01, 0x00, 0xFF, 0xFF, 0x00, 0x28], 64);
  }

  lemma EnableNotificationsTrace(c: Config, n: nat, s: Sys)
    requires Secured(c, n, s)
    ensures var s' := EnableNotifications(c, s).s; Continues(c, n, s, s') && Secured(c, n, s')
  {
    AskTrace(c, n, s, [ATT_WRITE_REQ] + Put16(s.reportCccd) + [0x01, 0x00], 16);
  }

  lemma DiscoverTrace(c: Config, n: nat, s: Sys)
    requires Secured(c, n, s)
    ensures var (flow, _, _) := DiscoverService(c, ExchangeMtu(c, s).s);
            Continues(c, n, s, flow.s) && Secured(c, n, flow.s)
  {
    ExchangeMtuTrace(c, n, s);
    DiscoverServiceTrace(c, n, ExchangeMtu(c, s).s);
  }

  lemma ContinuesTransitive(c: Config, n: nat, s: Sys, s1: Sys, s2: Sys)
    requires Continues(c, n, s, s1) && Continues(c, n, s1, s2)
    ensures Continues(c, n, s, s2)
  {
  }

  lemma AttributesTrace(c: Config, n: nat, s: Sys)
    requires Secured(c, n, s)
    ensures Continues(c, n, s, Attributes(c, s).s)
  {
    ExchangeMtuTrace(c, n, s);
    var f1 := ExchangeMtu(c, s);
    if f1.Reconnect? { return; }
    DiscoverTrace(c, n, s);
    var (f2, start, end) := DiscoverService(c, f1.s);
    if f2.Reconnect? { return; }
    DiscoverCharacteristicsTrace(c, n, f2.s, start, end);
    var f3 := DiscoverCharacteristics(c, f2.s, start, end);
    ContinuesTransitive(c, n, s, f2.s, f3.s);
    if f3.Reconnect? { return; }
    EnableNotificationsTrace(c, n, f3.s);
    var f4 := EnableNotifications(c, f3.s);
    ContinuesTransitive(c, n, s, f3.s, f4.s);
    if f4.Reconnect? { return; }
    ReportsTrace(c, n, f4.s);
    ContinuesTransitive(c, n, s, f4.s, Reports(f4.s));
    assert Attributes(c, s) == Go(Reports(f4.s));
  }

  // ---------- a whole session ----------

  // Draining only appends received frames.
  lemma {:induction false} DrainTrace(c: Config, n: nat, s: Sys, frames: nat)
    requires Proper(c, n, s.trace)
    ensures var s' := Drain(s, frames);
            && s.trace <= s'.trace && Proper(c, n, s'.trace) && s'.didCancel == s.didCancel
            && forall i | |s.trace| <= i < |s'.trace| :: s'.trace[i].Got?
    decreases |s.script|
  {
    PollReads(c, n, s);
    var i := Poll(s);
    if frames > 0 {
      if i.Elapsed? { DrainTrace(c, n, i.s, frames); }
      if i.Received? { DrainTrace(c, n, i.s, frames - 1); }
    }
  }

  /** A session opens with a cancel exactly when the flag was up, whatever reason the last disconnection gave. */
  lemma BeginTrace(c: Config, n: nat, s: Sys)
    ensures var s' := Begin(c, s);
            && Proper(c, n, s'.trace) && s'.didCancel
            && (if s.didCancel then |s'.trace| > 0 && IsCancel(s'.trace[0]) else s'.trace == [])
            && forall i | 1 <= i < |s'.trace| :: s'.trace[i].Got?
  {
    var s0 := s.(trace := [], conn := 0, mtu := 0, lastReason := 0);
    if s.didCancel {
      WriteTrace(c, n, s0, CancelCreate);
      DrainTrace(c, n, Write(c, s0, CancelCreate).s, 5);
    }
  }

  lemma ConnectTrace(c: Config, n: nat, s: Sys)
    requires Proper(c, n, s.trace) && forall x | x in s.trace :: !IsCreate(x)
    ensures var flow := Connect(c, s);
            var t := flow.s.trace;
            && s.trace <= t && Proper(c, n, t) && flow.s.didCancel == s.didCancel
            && |s.trace| < |t| && IsCreate(t[|s.trace|])
            && (forall i | |s.trace| <= i < |t| :: t[i].Wrote? ==> IsCreate(t[i]))
            && (flow.Go? ==> Connected(t, flow.s.conn))
  {
    var p := CreateConnection(c.peerType, c.peer, c.localType);
    WriteTrace(c, n, s, p);
    var f := Write(c, s, p);
    AwaitConnectionReads(c, n, f.s);
    if f.Go? {
      var g := AwaitConnection(f.s);
      if g.Go? { assert LinkedAt(g.s.trace, |s.trace|, |g.s.trace| - 1, g.s.conn); }
    }
  }

  lemma SecureTrace(c: Config, n: nat, s: Sys)
    requires Proper(c, n, s.trace)
    requires forall i | 0 <= i < |s.trace| :: s.trace[i].Wrote? ==> IsCancel(s.trace[i])
    ensures var flow := Secure(c, n, s);
            && Connect(c, s).s.trace <= flow.s.trace && Proper(c, n, flow.s.trace) && flow.s.didCancel == s.didCancel
            && (flow.Go? ==> Secured(c, n, flow.s))
            && (flow.Reconnect? ==> !Encrypted(flow.s.trace))
  {
    ConnectTrace(c, n, s);
    var f1 := Connect(c, s);
    assert Unkeyed(f1.s.trace);
    if f1.Reconnect? { return; }
    var w := PairTrace(c, n, f1.s);
    var f2 := Pair(c, n, f1.s);
    assert Unkeyed(f2.s.trace);
    if f2.Reconnect? { return; }
    EncryptTrace(c, n, f2.s, w);
    EncryptEnds(c, f2.s);
  }

  /** What the peer hears: the PDU behind opcode 3 is c1 over the Random it hears later behind opcode 4, with this host
      as initiator: its Pairing Request as written, its address type and address in the initiator's place. A responder
      that recomputes c1 from the Random it reads therefore accepts. */
  lemma CommitmentOpens(c: Config, n: nat, t: Trace, i: nat)
    requires Proper(c, n, t) && i < |t| && t[i].Wrote? && t[i].packet.SmpPdu?
    requires t[i].packet.pdu != [] && t[i].packet.pdu[0] == 0x04
    ensures |t[i].packet.pdu| == 17
    ensures exists w: Handshake ::
              && w.request < w.response < w.commit < w.confirm < i
              && t[w.request] == Wrote(SmpPdu(w.handle, [0x01, 0x03, 0x00, 0x01, 0x10, 0x03, 0x03]), true)
              && Responded(t, w.response, w.handle, w.pres)
              && t[w.commit].Wrote? && t[w.commit].ok && t[w.commit].packet.SmpPdu?
              && t[w.commit].packet.handle == w.handle == t[i].packet.handle
              && OpensTo(c, w.pres, t[w.commit].packet.pdu, t[i].packet.pdu)
  {
    assert AllowedAt(c, n, t, i);
    var w: Handshake :| Committed(c, t[..i], w) && w.handle == t[i].packet.handle && t[i].packet.pdu[1..] == w.mrand;
    assert t[..i][w.request] == t[w.request] && t[..i][w.response] == t[w.response] && t[..i][w.commit] == t[w.commit];
    assert t[w.commit].packet.pdu[1..] == InitiatorConfirm(c, w.pres, w.mrand);
    assert OpensTo(c, w.pres, t[w.commit].packet.pdu, t[i].packet.pdu);
  }

  /** What the host has heard when it puts a key to use: a PDU behind opcode 3, later one behind opcode 4, and the first
      is c1 over the second with the peer in the initiator's place; the key is made of the first halves of the Random
      this host wrote and of the one it read. */
  lemma KeyWasCommittedTo(c: Config, n: nat, t: Trace, i: nat)
    requires Proper(c, n, t) && i < |t| && IsStart(t[i])
    ensures exists w: Handshake ::
              && w.request < w.response < w.confirm < w.revealed < w.random < i
              && Responded(t, w.response, w.handle, w.pres) && w.handle == t[i].packet.handle
              && t[w.confirm] == Got(Acl(w.handle, SMP_CID, [0x03] + w.sconfirm))
              && t[w.revealed] == Wrote(SmpPdu(w.handle, [0x04] + w.mrand), true)
              && t[w.random] == Got(Acl(w.handle, SMP_CID, [0x04] + w.srand))
              && w.sconfirm == C1(c.e, TK, w.srand, [0x01, 0x03, 0x00, 0x01, 0x10, 0x03, 0x03], w.pres,
                                  c.peerType, c.peer, c.localType, c.local)
              && t[i].packet.key == c.e(TK, w.mrand[..8] + w.srand[..8])
  {
    assert AllowedAt(c, n, t, i);
    var w: Handshake :|
      && Exchanged(c, t[..i], w) && w.handle == t[i].packet.handle && w.mrand == c.nonce(n)
      && t[i].packet.key == S1(c.e, TK, w.mrand, w.srand);
    assert t[..i][w.response] == t[w.response] && t[..i][w.confirm] == t[w.confirm];
    assert t[..i][w.revealed] == t[w.revealed] && t[..i][w.random] == t[w.random];
    assert w.sconfirm == ResponderConfirm(c, w.pres, w.srand);
  }

  // The responder's test of the two PDUs it read.
  predicate OpensTo(c: Config, pres: PairingPdu, confirm: Data, random: Data) {
    && |confirm| == |random| == 17 && confirm[0] == 0x03
    && confirm[1..] == C1(c.e, TK, random[1..], [0x01, 0x03, 0x00, 0x01, 0x10, 0x03, 0x03], pres,
                          c.localType, c.local, c.peerType, c.peer)
  }

  // Pairing or encryption goes on at j, behind a disconnection read at i.
  predicate AfterLoss(t: Trace, i: nat, j: nat) {
    i < j < |t| && IsLoss(t[i]) && t[j].Wrote? && (t[j].packet.SmpPdu? || t[j].packet.StartEncryption?)
  }

  /** Pairing or encryption goes on behind a disconnection only when that was read before the create, by the drain of
      the cancel. */
  lemma LossBeforeCreate(c: Config, n: nat, t: Trace, i: nat, j: nat)
    requires Proper(c, n, t) && AfterLoss(t, i, j)
    ensures exists k :: i < k < j && IsCreate(t[k])
  {
    assert AllowedAt(c, n, t, j);
    var k: nat, m: nat :| LinkedAt(t[..j], k, m, t[j].packet.handle);
    assert t[..j][k] == t[k] && t[..j][i] == t[i];
  }

  ghost predicate Cancels(t: Trace) {
    exists i | 0 <= i < |t| :: IsCancel(t[i])
  }

  lemma CancelComesFirst(c: Config, n: nat, t: Trace)
    requires Proper(c, n, t) && Cancels(t)
    ensures IsCancel(t[0])
  {
    var i :| 0 <= i < |t| && IsCancel(t[i]);
    assert AllowedAt(c, n, t, i);
  }

  /** One session, against any peer, controller and timing: every entry of its trace is allowed where it
      stands, it cancels exactly when the flag was up, and it leaves the flag up exactly when it ended
      before encryption succeeded. */
  lemma SessionIsProper(c: Config, n: nat, s: Sys)
    ensures var s' := Session(c, n, s);
            && Proper(c, n, s'.trace)
            && (Cancels(s'.trace) <==> s.didCancel)
            && (s'.didCancel <==> !Encrypted(s'.trace))
  {
    BeginTrace(c, n, s);
    var s0 := Begin(c, s);
    ConnectTrace(c, n, s0);
    SecureTrace(c, n, s0);
    var f := Secure(c, n, s0);
    var t := Session(c, n, s).trace;
    if f.Go? {
      var s1 := f.s.(didCancel := false);
      AttributesTrace(c, n, s1);
      SecuredExtends(c, n, s1, Attributes(c, s1).s);
    }
    if Cancels(t) { CancelComesFirst(c, n, t); }
    assert IsCreate(t[|s0.trace|]);
  }

  /** Over any number of sessions: every trace is proper, session 0 cancels only if the flag was already
      up, and each later session cancels exactly when the one before it ended unencrypted. */
  lemma {:induction false} EverySessionIsProper(c: Config, n: nat, k: nat, s: Sys)
    ensures var ts := Run(c, n, k, s).0;
            && |ts| <= k
            && (forall i | 0 <= i < |ts| :: Proper(c, n + i, ts[i]))
            && (ts != [] ==> (Cancels(ts[0]) <==> s.didCancel))
            && (forall i | 1 <= i < |ts| :: Cancels(ts[i]) <==> !Encrypted(ts[i - 1]))
    decreases k
  {
    if k > 0 && s.script != [] {
      SessionIsProper(c, n, s);
      var s1 := Session(c, n, s);
      EverySessionIsProper(c, n + 1, k - 1, s1);
      OneMoreSession(c, n, s1.trace, Run(c, n + 1, k - 1, s1).0, s.didCancel, s1.didCancel);
    }
  }

  // Prepending one trace to those of the sessions after it.
  lemma OneMoreSession(c: Config, n: nat, t: Trace, rest: seq<Trace>, flag: bool, flag': bool)
    requires Proper(c, n, t) && (Cancels(t) <==> flag) && (flag' <==> !Encrypted(t))
    requires forall i | 0 <= i < |rest| :: Proper(c, n + 1 + i, rest[i])
    requires rest != [] ==> (Cancels(rest[0]) <==> flag')
    requires forall i | 1 <= i < |rest| :: Cancels(rest[i]) <==> !Encrypted(rest[i - 1])
    ensures var ts := [t] + rest;
            && (forall i | 0 <= i < |ts| :: Proper(c, n + i, ts[i]))
            && (Cancels(ts[0]) <==> flag)
            && (forall i | 1 <= i < |ts| :: Cancels(ts[i]) <==> !Encrypted(ts[i - 1]))
  {
    var ts := [t] + rest;
    forall i | 0 <= i < |ts| ensures Proper(c, n + i, ts[i]) {
      if i > 0 { assert Proper(c, n + 1 + (i - 1), rest[i - 1]); }
    }
    forall i | 1 <= i < |ts| ensures Cancels(ts[i]) <==> !Encrypted(ts[i - 1]) {
      assert ts[i] == rest[i - 1];
      if i > 1 { assert ts[i - 1] == rest[i - 2]; }
    }
  }
}
