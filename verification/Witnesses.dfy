/** Concrete runs: the two ways a create comes to be disallowed when a cancellation goes unanswered,
    and when a peer's Random is accepted. */
module Witnesses {
  import opened Bytes
  import opened Pairing
  import opened Transport
  import opened Controller
  import opened Host
  import TraceSafety

  const IDLE := State([], false, [], [])

  function Boot(script: seq<Choice>): Sys {
    Sys(script, IDLE, 0, false, [], false, 0, 0, PAIRING_REQUEST, TK, TK, TK, TK, 0, 0, 0)
  }

  /** The peer is accepted exactly when the Random it reveals is the one it committed to, and then both
      sides hold the same key. */
  lemma RevealAccepts(c: Config, s: Sys, r: Block)
    requires Injective(c.e)
    requires s.sconfirm == PeerConfirm(c, s.pres, r)
    requires Write(c, s, SmpPdu(s.conn, [SMP_RANDOM] + s.mrand)).Go?
    requires AwaitValue(c, Write(c, s, SmpPdu(s.conn, [SMP_RANDOM] + s.mrand)).s, SMP_RANDOM).0.Go?
    ensures var (flow, value) := AwaitValue(c, Write(c, s, SmpPdu(s.conn, [SMP_RANDOM] + s.mrand)).s, SMP_RANDOM);
            && (Reveal(c, s).Go? <==> value == r)
            && (value == r ==> Reveal(c, s).s.stk == S1(c.e, TK, s.mrand, r))
  {
    var s1 := Write(c, s, SmpPdu(s.conn, [SMP_RANDOM] + s.mrand)).s;
    var (flow, value) := AwaitValue(c, s1, SMP_RANDOM);
    AwaitAclKeeps(s1, SMP_CID, Buffer(c, s1, 32));
    C1InjectiveInRandom(c.e, TK, value, r, PAIRING_REQUEST, s.pres, c.peerType, c.peer, c.localType, c.local);
  }

  lemma {:induction false} AwaitAclKeeps(s: Sys, cid: Word, buf: Data)
    ensures var s' := AwaitAcl(s, cid, buf).s;
            s'.pres == s.pres && s'.mrand == s.mrand && s'.sconfirm == s.sconfirm
    decreases |s.script|
  {
    var i := Poll(s);
    if i.Elapsed? || i.Nothing? || i.Received? { AwaitAclKeeps(i.s, cid, buf); }
  }

  // ---------- a cancel that could not be written ----------

  /** If the cancel itself cannot be written, the next create meets the one still pending. */
  lemma FailedCancelIsDisallowed(c: Config)
    requires forall k: nat :: c.fails(k) <==> k == 1
    ensures exists script :: Booted(Boot(script)) && !NeverDisallowed(Run(c, 0, 2, Boot(script)).1.ctl)
  {
    var script := [Turn(Process(true)), Expire, Turn(Process(true))];
    var s := Boot(script);
    var a := Begin(c, s);
    var a1 := Write(c, a, CreateConnection(c.peerType, c.peer, c.localType)).s;
    var a2 := Poll(a1).s;
    assert a2.script == [Expire, Turn(Process(true))];
    var a3 := Poll(a2).s;
    assert Poll(a1).Elapsed? && Poll(a2).TimeUp?;
    assert AwaitConnection(a1) == AwaitConnection(a2) == Reconnect(a3);
    assert Secure(c, 0, a) == Reconnect(a3);
    assert Session(c, 0, s) == a3;
    assert a3.ctl.creating && a3.didCancel && a3.writes == 1 && a3.ctl.unprocessed == [];

    var b := Begin(c, a3);
    var b1 := Write(c, b, CreateConnection(c.peerType, c.peer, c.localType)).s;
    assert b1.script == [Turn(Process(true))] && b1.ctl.creating && b1.ctl.unprocessed[0].CreateConnection?;
    var b2 := Poll(b1).s;
    assert Poll(b1).Elapsed? && Poll(b2).Stopped?;
    assert AwaitConnection(b1) == AwaitConnection(b2) == Reconnect(b2);
    assert Secure(c, 1, b) == Reconnect(b2);
    assert Session(c, 1, a3) == b2;
    assert b2.ctl.log[|b2.ctl.log| - 1] == CommandStatus(COMMAND_DISALLOWED, CREATE_OPCODE);
    assert Run(c, 1, 1, a3).1 == b2;
    assert Run(c, 0, 2, s).1 == b2;
  }

  // ---------- an honest peer ----------

  function Says(f: Frame): seq<Choice> {
    [Turn(Emit(f)), Deliver]
  }

  // The state once `f` was raised and read.
  function Hear(s: Sys, f: Frame, rest: seq<Choice>): Sys {
    s.(script := rest, ctl := State(s.ctl.unprocessed, s.ctl.creating, [], s.ctl.log + [f]),
       trace := s.trace + [Got(f)])
  }

  lemma PollTwice(s: Sys, f: Frame, rest: seq<Choice>)
    requires s.script == Says(f) + rest && s.ctl.unread == [] && !Reserved(f)
    ensures Poll(s).Elapsed? && Poll(Poll(s).s) == Received(f, Hear(s, f, rest))
  {
    assert s.script[1..] == [Deliver] + rest;
    assert ([Deliver] + rest)[1..] == rest;
  }

  lemma AwaitAclHears(s: Sys, cid: Word, p: Data, buf: Data, rest: seq<Choice>)
    requires s.script == Says(Acl(s.conn, cid, p)) + rest && s.ctl.unread == [] && |p| <= |buf|
    ensures AwaitAcl(s, cid, buf) == Rx(0, p + buf[|p|..], |p|, Hear(s, Acl(s.conn, cid, p), rest))
  {
    PollTwice(s, Acl(s.conn, cid, p), rest);
    assert AwaitAcl(s, cid, buf) == AwaitAcl(Poll(s).s, cid, buf);
  }

  lemma AwaitValueHears(c: Config, s: Sys, opcode: Byte, v: Block, rest: seq<Choice>)
    requires s.script == Says(Acl(s.conn, SMP_CID, [opcode] + v)) + rest && s.ctl.unread == []
    ensures AwaitValue(c, s, opcode) == (Go(Hear(s, Acl(s.conn, SMP_CID, [opcode] + v), rest)), v)
  {
    var buf := Buffer(c, s, 32);
    AwaitAclHears(s, SMP_CID, [opcode] + v, buf, rest);
    assert ([opcode] + v + buf[17..])[1..17] == v;
  }

  /** What an honest peer with Random `r` says during pairing. */
  function HonestPairing(c: Config, h: Word, pres: PairingPdu, r: Block): seq<Choice> {
    Says(Acl(h, SMP_CID, pres))
    + (Says(Acl(h, SMP_CID, [SMP_CONFIRM] + PeerConfirm(c, pres, r))) + Says(Acl(h, SMP_CID, [SMP_RANDOM] + r)))
  }

  lemma NegotiateHears(c: Config, s: Sys, pres: PairingPdu, rest: seq<Choice>)
    requires !c.securityRequest && !c.fails(s.writes) && pres[0] == SMP_PAIRING_RSP
    requires s.script == Says(Acl(s.conn, SMP_CID, pres)) + rest && s.ctl.unread == []
    ensures Negotiate(c, s) ==
            Go(Hear(Write(c, s, SmpPdu(s.conn, PAIRING_REQUEST)).s, Acl(s.conn, SMP_CID, pres), rest).(pres := pres))
  {
    var s1 := Write(c, s, SmpPdu(s.conn, PAIRING_REQUEST)).s;
    AwaitAclHears(s1, SMP_CID, pres, Buffer(c, s1, 32), rest);
    assert (pres + Buffer(c, s1, 32)[7..])[..7] == pres;
  }

  // One SMP PDU written, one frame heard, and nothing else.
  predicate OneExchange(s: Sys, t: Sys, rest: seq<Choice>) {
    && t.script == rest && t.writes == s.writes + 1 && t.conn == s.conn
    && t.didCancel == s.didCancel && t.missed == s.missed && t.ctl.unread == [] && t.ctl.creating == s.ctl.creating
    && |t.ctl.unprocessed| == |s.ctl.unprocessed| + 1 && s.ctl.unprocessed <= t.ctl.unprocessed
    && t.ctl.unprocessed[|s.ctl.unprocessed|].SmpPdu?
  }

  lemma RequestHears(c: Config, s: Sys, pres: PairingPdu, rest: seq<Choice>) returns (t: Sys)
    requires !c.securityRequest && !c.fails(s.writes) && pres[0] == SMP_PAIRING_RSP
    requires s.script == Says(Acl(s.conn, SMP_CID, pres)) + rest && s.ctl.unread == []
    ensures Negotiate(c, s) == Go(t) && OneExchange(s, t, rest) && t.pres == pres
  {
    NegotiateHears(c, s, pres, rest);
    t := Negotiate(c, s).s;
  }

  lemma ExchangesAddUp(s: Sys, s1: Sys, s2: Sys, s3: Sys, rest1: seq<Choice>, rest2: seq<Choice>, rest3: seq<Choice>)
    requires OneExchange(s, s1, rest1) && OneExchange(s1, s2, rest2) && OneExchange(s2, s3, rest3)
    ensures ThreePdusLater(s, s3)
  {
  }

  lemma CommitHears(c: Config, n: nat, s: Sys, confirm: Block, rest: seq<Choice>) returns (t: Sys)
    requires !c.fails(s.writes) && s.ctl.unread == []
    requires s.script == Says(Acl(s.conn, SMP_CID, [SMP_CONFIRM] + confirm)) + rest
    ensures Commit(c, n, s) == Go(t) && OneExchange(s, t, rest)
    ensures t.pres == s.pres && t.mrand == c.nonce(n) && t.sconfirm == confirm
  {
    var s1 := s.(mrand := c.nonce(n));
    var s2 := Write(c, s1, SmpPdu(s1.conn, [SMP_CONFIRM] + OurConfirm(c, s1.pres, s1.mrand))).s;
    AwaitValueHears(c, s2, SMP_CONFIRM, confirm, rest);
    t := Commit(c, n, s).s;
  }

  lemma RevealHears(c: Config, s: Sys, r: Block, rest: seq<Choice>) returns (t: Sys)
    requires !c.fails(s.writes) && s.ctl.unread == [] && s.sconfirm == PeerConfirm(c, s.pres, r)
    requires s.script == Says(Acl(s.conn, SMP_CID, [SMP_RANDOM] + r)) + rest
    ensures Reveal(c, s) == Go(t) && OneExchange(s, t, rest) && t.stk == S1(c.e, TK, s.mrand, r)
  {
    var s1 := Write(c, s, SmpPdu(s.conn, [SMP_RANDOM] + s.mrand)).s;
    AwaitValueHears(c, s1, SMP_RANDOM, r, rest);
    t := Reveal(c, s).s;
  }

  // Three SMP PDUs more are waiting for the controller.
  predicate ThreePdusLater(s: Sys, t: Sys) {
    && s.ctl.unprocessed <= t.ctl.unprocessed && |t.ctl.unprocessed| == |s.ctl.unprocessed| + 3
    && forall i | |s.ctl.unprocessed| <= i < |t.ctl.unprocessed| :: t.ctl.unprocessed[i].SmpPdu?
  }

  /** A peer that computes its Confirm by the formula the host checks is always paired with, whatever the
      two randoms are, and the key is s1 of both. */
  lemma HonestPeerPairs(c: Config, n: nat, s: Sys, pres: PairingPdu, r: Block, rest: seq<Choice>)
    requires !c.securityRequest && pres[0] == SMP_PAIRING_RSP
    requires forall k | s.writes <= k < s.writes + 3 :: !c.fails(k)
    requires s.script == HonestPairing(c, s.conn, pres, r) + rest && s.ctl.unread == []
    ensures var flow := Pair(c, n, s);
            && flow.Go? && flow.s.stk == S1(c.e, TK, c.nonce(n), r)
            && flow.s.script == rest && flow.s.writes == s.writes + 3
            && flow.s.conn == s.conn && flow.s.didCancel == s.didCancel && flow.s.missed == s.missed
            && flow.s.ctl.unread == [] && flow.s.ctl.creating == s.ctl.creating
            && ThreePdusLater(s, flow.s)
  {
    var confirm, random := Says(Acl(s.conn, SMP_CID, [SMP_CONFIRM] + PeerConfirm(c, pres, r))),
                           Says(Acl(s.conn, SMP_CID, [SMP_RANDOM] + r));
    assert s.script == Says(Acl(s.conn, SMP_CID, pres)) + (confirm + (random + rest));
    var s1 := RequestHears(c, s, pres, confirm + (random + rest));
    var s2 := CommitHears(c, n, s1, PeerConfirm(c, pres, r), random + rest);
    var s3 := RevealHears(c, s2, r, rest);
    ExchangesAddUp(s, s1, s2, s3, confirm + (random + rest), random + rest, rest);
    assert Pair(c, n, s) == Reveal(c, s2);
  }

  /** A Security Request read before the Pairing Response is forgiven: the host waits once more and takes the
      response. */
  lemma EchoIsForgiven(c: Config, s: Sys, echo: Data, pres: PairingPdu, rest: seq<Choice>)
    requires 2 <= |echo| <= 32 && echo[0] == 0x0b && pres[0] == 0x02
    requires s.script == Says(Acl(s.conn, SMP_CID, echo)) + (Says(Acl(s.conn, SMP_CID, pres)) + rest)
    requires s.ctl.unread == []
    ensures var flow := AwaitPairingResponse(c, s); flow.Go? && flow.s.pres == pres && flow.s.script == rest
  {
    var buf := Buffer(c, s, 32);
    AwaitAclHears(s, SMP_CID, echo, buf, Says(Acl(s.conn, SMP_CID, pres)) + rest);
    var rx := AwaitAcl(s, SMP_CID, buf);
    assert rx.buf[0] == echo[0];
    AwaitAclHears(rx.s, SMP_CID, pres, rx.buf, rest);
    var again := AwaitAcl(rx.s, SMP_CID, rx.buf);
    assert again.buf[..7] == pres && again.buf[0] == pres[0];
  }

  // ---------- a cancel whose reply the drain does not see ----------

  /** All writes up to the first ATT PDU succeed, yet the drain gives up before the cancel's reply: the
      session then adopts the connection of the attempt before it, its own create stays pending behind
      a session that ends encrypted, and the one after that writes a create without cancelling. */
  lemma MissedReplyIsDisallowed(c: Config, h: Word, pres: PairingPdu, r: Block)
    requires !c.securityRequest && pres[0] == SMP_PAIRING_RSP
    requires forall k: nat :: c.fails(k) <==> k == 7
    ensures exists script :: Booted(Boot(script)) && !NeverDisallowed(Run(c, 0, 3, Boot(script)).1.ctl)
  {
    var turns := seq(7, _ => Turn(Process(true)));
    var encrypt := Says(EncryptionChange(SUCCESS, h));
    var pairing := HonestPairing(c, h, pres, r);
    var script1 := [Turn(Finish(SUCCESS, h, c.peerType, c.peer)), Quiet, Deliver] + (pairing + (encrypt + turns));
    var s := Boot([Turn(Process(true)), Deliver, Expire] + script1);
    var s1 := FirstTimesOut(c, s, script1);
    var s2 := SecondAdopts(c, s1, h, pres, r, turns);
    ThirdIsDisallowed(c, s2, h);
    assert Run(c, 2, 1, s2).1 == Session(c, 2, s2);
    assert Run(c, 1, 2, s1).1 == Run(c, 2, 1, s2).1;
    assert Run(c, 0, 3, s).1 == Run(c, 1, 2, s1).1;
  }

  lemma FirstTimesOut(c: Config, s: Sys, rest: seq<Choice>) returns (s': Sys)
    requires !c.fails(0) && s == Boot([Turn(Process(true)), Deliver, Expire] + rest)
    ensures s' == Session(c, 0, s)
    ensures s'.script == rest && s'.ctl.unprocessed == [] && s'.ctl.creating && s'.ctl.unread == []
    ensures s'.didCancel && s'.writes == 1
  {
    var a := Begin(c, s);
    var a1 := Write(c, a, CreateConnection(c.peerType, c.peer, c.localType)).s;
    var a2 := Poll(a1).s;
    assert a2.script == [Deliver, Expire] + rest;
    var a3 := Poll(a2).s;
    assert a3.script == [Expire] + rest;
    var a4 := Poll(a3).s;
    assert a4.script == rest;
    assert AwaitConnection(a1) == AwaitConnection(a2) == AwaitConnection(a3) == Reconnect(a4);
    assert Secure(c, 0, a) == Reconnect(a4);
    s' := a4;
  }

  lemma SecondAdopts(c: Config, s: Sys, h: Word, pres: PairingPdu, r: Block, rest: seq<Choice>) returns (s': Sys)
    requires !c.securityRequest && pres[0] == SMP_PAIRING_RSP
    requires forall k: nat :: c.fails(k) <==> k == 7
    requires s.script == [Turn(Finish(SUCCESS, h, c.peerType, c.peer)), Quiet, Deliver]
                         + (HonestPairing(c, h, pres, r) + (Says(EncryptionChange(SUCCESS, h)) + rest))
    requires s.ctl.unprocessed == [] && s.ctl.creating && s.ctl.unread == [] && s.didCancel && s.writes == 1
    ensures s' == Session(c, 1, s)
    ensures s'.script == rest && !s'.didCancel && s'.writes == 8 && !s'.ctl.creating
    ensures |s'.ctl.unprocessed| == 6 && s'.ctl.unprocessed[0] == CancelCreate
    ensures s'.ctl.unprocessed[1].CreateConnection?
    ensures forall i | 2 <= i < 6 :: s'.ctl.unprocessed[i].SmpPdu? || s'.ctl.unprocessed[i].StartEncryption?
  {
    var encrypt := Says(EncryptionChange(SUCCESS, h));
    var later := HonestPairing(c, h, pres, r) + (encrypt + rest);
    var s0 := s.(trace := [], conn := 0, mtu := 0, lastReason := 0);
    var b := AdoptStale(c, s0, h, later);
    var b1 := Connect(c, b).s;
    HonestPeerPairs(c, 1, b1, pres, r, encrypt + rest);
    var b2 := Pair(c, 1, b1).s;
    EncryptHears(c, b2, rest);
    var b3 := Encrypt(c, b2).s;
    assert Secure(c, 1, b) == Go(b3);
    var b4 := b3.(didCancel := false);
    AttributesFail(c, b4);
    s' := Attributes(c, b4).s;
    assert s' == Session(c, 1, s);
  }

  lemma EncryptHears(c: Config, s: Sys, rest: seq<Choice>)
    requires !c.fails(s.writes) && s.script == Says(EncryptionChange(SUCCESS, s.conn)) + rest && s.ctl.unread == []
    ensures Encrypt(c, s) ==
            Go(Hear(Write(c, s, StartEncryption(s.conn, s.stk)).s, EncryptionChange(SUCCESS, s.conn), rest))
  {
    var s1 := Write(c, s, StartEncryption(s.conn, s.stk)).s;
    PollTwice(s1, EncryptionChange(SUCCESS, s.conn), rest);
    assert AwaitEncryption(c, s1) == AwaitEncryption(c, Poll(s1).s);
  }

  lemma AttributesFail(c: Config, s: Sys)
    requires c.fails(s.writes)
    ensures Attributes(c, s) == Write(c, s, AttPdu(s.conn, [ATT_MTU_REQ, 0xFF, 0x00])) && Attributes(c, s).Reconnect?
  {
  }

  // The drain stops at a quiet slice, and the create's wait reads the connection made before the cancel.
  lemma AdoptStale(c: Config, s: Sys, h: Word, rest: seq<Choice>) returns (b: Sys)
    requires !c.fails(1) && !c.fails(2)
    requires s.script == [Turn(Finish(SUCCESS, h, c.peerType, c.peer)), Quiet, Deliver] + rest
    requires s.ctl.unprocessed == [] && s.ctl.creating && s.ctl.unread == [] && s.didCancel && s.writes == 1
    ensures b == Cancel(c, s).(didCancel := true) && b.didCancel
    ensures var flow := Connect(c, b);
            && flow.Go? && flow.s.conn == h && flow.s.script == rest && flow.s.writes == 3
            && !flow.s.ctl.creating && flow.s.ctl.unread == [] && flow.s.didCancel
            && |flow.s.ctl.unprocessed| == 2 && flow.s.ctl.unprocessed[0] == CancelCreate
            && flow.s.ctl.unprocessed[1].CreateConnection?
  {
    var a1 := Write(c, s, CancelCreate).s;
    var a2 := Poll(a1).s;
    assert a2.script == [Quiet, Deliver] + rest;
    var a3 := Poll(a2).s;
    assert a3.script == [Deliver] + rest;
    assert Drain(a1, 5) == Drain(a2, 5) == a3.(missed := true);
    b := Cancel(c, s).(didCancel := true);
    var b1 := Write(c, b, CreateConnection(c.peerType, c.peer, c.localType)).s;
    assert Poll(b1).s.script == rest;
    assert b1.ctl.unread == [ConnectionComplete(SUCCESS, h, c.peerType, c.peer)];
  }

  // A create behind k commands that raise nothing meets the pending one.
  lemma {:induction false} CreateMeetsPending(s: Sys, k: nat)
    requires s.ctl.creating && |s.script| == |s.ctl.unprocessed| == k + 1
    requires forall i | 0 <= i <= k :: s.script[i] == Turn(Process(true))
    requires forall i | 0 <= i < k :: s.ctl.unprocessed[i].SmpPdu? || s.ctl.unprocessed[i].StartEncryption?
    requires s.ctl.unprocessed[k].CreateConnection?
    ensures AwaitConnection(s).Reconnect? && !NeverDisallowed(AwaitConnection(s).s.ctl)
    decreases k
  {
    var next := Poll(s).s;
    assert AwaitConnection(s) == AwaitConnection(next);
    if k == 0 {
      assert next.ctl.log[|next.ctl.log| - 1] == CommandStatus(COMMAND_DISALLOWED, CREATE_OPCODE);
      assert AwaitConnection(next) == Reconnect(next);
    } else {
      assert next.ctl == s.ctl.(unprocessed := s.ctl.unprocessed[1..]);
      CreateMeetsPending(next, k - 1);
    }
  }

  // The stale cancel finds nothing, and the create behind it is accepted.
  lemma StaleCancelThenCreate(s: Sys, n: nat)
    requires !s.ctl.creating && |s.script| == |s.ctl.unprocessed| == n && n > 2
    requires s.script[0] == s.script[1] == Turn(Process(true))
    requires s.ctl.unprocessed[0] == CancelCreate && s.ctl.unprocessed[1].CreateConnection?
    ensures var t := Poll(Poll(s).s).s;
            AwaitConnection(s) == AwaitConnection(t) && t.ctl.creating &&
            t.script == s.script[2..] && t.ctl.unprocessed == s.ctl.unprocessed[2..]
  {
    var s1 := Poll(s).s;
    assert !s1.ctl.creating && s1.ctl.unprocessed == s.ctl.unprocessed[1..] && s1.script == s.script[1..];
    assert AwaitConnection(s) == AwaitConnection(s1);
  }

  lemma ThirdIsDisallowed(c: Config, s: Sys, h: Word)
    requires !c.fails(8) && s.script == seq(7, _ => Turn(Process(true))) && !s.didCancel && s.writes == 8
    requires !s.ctl.creating && |s.ctl.unprocessed| == 6
    requires s.ctl.unprocessed[0] == CancelCreate && s.ctl.unprocessed[1].CreateConnection?
    requires forall i | 2 <= i < 6 :: s.ctl.unprocessed[i].SmpPdu? || s.ctl.unprocessed[i].StartEncryption?
    ensures !NeverDisallowed(Session(c, 2, s).ctl)
  {
    var b := Begin(c, s);
    var b0 := Write(c, b, CreateConnection(c.peerType, c.peer, c.localType)).s;
    StaleCancelThenCreate(b0, 7);
    var b2 := Poll(Poll(b0).s).s;
    CreateMeetsPending(b2, 4);
    assert Connect(c, b) == AwaitConnection(b0);
    assert Secure(c, 2, b) == AwaitConnection(b0);
  }

  // ---------- a disconnection read by the drain ----------

  /** The drain reads the disconnection of an earlier link, the create is accepted, and pairing is asked for behind
      that disconnection. */
  lemma PairingAfterDrainedLoss(c: Config, n: nat, s: Sys, h: Word, reason: Byte)
    requires s.didCancel && s.ctl.unprocessed == [] && !s.ctl.creating && s.ctl.unread == []
    requires forall k | s.writes <= k < s.writes + 3 :: !c.fails(k)
    requires s.script == [Turn(Emit(Disconnection(reason))), Deliver, Turn(Process(true)), Deliver]
                         + [Turn(Process(true)), Turn(Finish(SUCCESS, h, c.peerType, c.peer)), Deliver, Deliver]
    ensures exists i, j :: TraceSafety.AfterLoss(Session(c, n, s).trace, i, j)
  {
    var b := DrainReadsLoss(c, s, reason);
    var s2 := ConnectAfterDrain(c, b, h);
    var t := Session(c, n, s).trace;
    assert Secure(c, n, b) == Pair(c, n, s2) by { AsksAndStops(c, n, s2); }
    AsksAndStops(c, n, s2);
    assert t[1] == Got(Disconnection(reason)) && t[|s2.trace|].packet.SmpPdu?;
    assert TraceSafety.AfterLoss(t, 1, |s2.trace|);
  }

  lemma DrainReadsLoss(c: Config, s: Sys, reason: Byte) returns (b: Sys)
    requires s.didCancel && s.ctl.unprocessed == [] && !s.ctl.creating && s.ctl.unread == [] && !c.fails(s.writes)
    requires |s.script| >= 4
    requires s.script[..4] == [Turn(Emit(Disconnection(reason))), Deliver, Turn(Process(true)), Deliver]
    ensures b == Begin(c, s) && b.script == s.script[4..] && b.writes == s.writes + 1 && b.ctl.unprocessed == []
    ensures !b.ctl.creating && b.ctl.unread == [] && |b.trace| == 3 && b.trace[1] == Got(Disconnection(reason))
  {
    var d := s.script[..4];
    assert s.script[0] == d[0] && s.script[1] == d[1] && s.script[2] == d[2] && s.script[3] == d[3];
    var a := s.(trace := [], conn := 0, mtu := 0, lastReason := 0);
    var a1 := Write(c, a, CancelCreate).s;
    var a2 := Poll(a1).s;
    var a3 := Poll(a2).s;
    assert a2.ctl.unread == [Disconnection(reason)];
    var a4 := Poll(a3).s;
    assert a4.ctl.unread == [CommandComplete(CANCEL_OPCODE, COMMAND_DISALLOWED)];
    var a5 := Poll(a4).s;
    assert Drain(a1, 5) == Drain(a2, 5) == Drain(a3, 4) == Drain(a4, 4) == a5;
    b := a5.(didCancel := true);
  }

  lemma ConnectAfterDrain(c: Config, s: Sys, h: Word) returns (t: Sys)
    requires !c.fails(s.writes) && s.ctl.unprocessed == [] && !s.ctl.creating && s.ctl.unread == []
    requires s.script == [Turn(Process(true)), Turn(Finish(SUCCESS, h, c.peerType, c.peer)), Deliver, Deliver]
    ensures Connect(c, s) == Go(t) && t.script == [] && t.writes == s.writes + 1 && s.trace <= t.trace
  {
    var s1 := Write(c, s, CreateConnection(c.peerType, c.peer, c.localType)).s;
    var s2 := Poll(s1).s;
    var s3 := Poll(s2).s;
    assert s3.ctl.unread == [CommandStatus(SUCCESS, CREATE_OPCODE), ConnectionComplete(SUCCESS, h, c.peerType, c.peer)];
    var s4 := Poll(s3).s;
    assert s4.ctl.unread == [ConnectionComplete(SUCCESS, h, c.peerType, c.peer)];
    var s5 := Poll(s4).s;
    assert AwaitConnection(s1) == AwaitConnection(s2) == AwaitConnection(s3) == AwaitConnection(s4);
    t := s5.(conn := h);
    assert AwaitConnection(s4) == Go(t);
  }

  // With nothing left to read, pairing ends behind its first request.
  lemma AsksAndStops(c: Config, n: nat, s: Sys)
    requires s.script == [] && !c.fails(s.writes)
    ensures Pair(c, n, s).Reconnect? && s.trace <= Pair(c, n, s).s.trace
    ensures var t := Pair(c, n, s).s.trace;
            |t| > |s.trace| && t[|s.trace|].Wrote? && t[|s.trace|].packet.SmpPdu?
  {
    var f := RequestSecurity(c, s);
    assert f.Go?;
    var g := Write(c, f.s, SmpPdu(f.s.conn, PAIRING_REQUEST));
    assert Negotiate(c, s).Reconnect? && Negotiate(c, s).s.trace == g.s.trace;
  }

  // The first create is refused, and the wait for its connection times out.
  lemma FirstIsRefused(c: Config, s: Sys, rest: seq<Choice>) returns (s': Sys)
    requires !c.fails(0) && s == Boot([Turn(Process(false)), Deliver, Expire] + rest)
    ensures s' == Session(c, 0, s)
    ensures s'.script == rest && s'.didCancel && s'.writes == 1
    ensures s'.ctl.unprocessed == [] && !s'.ctl.creating && s'.ctl.unread == []
  {
    var a := Begin(c, s);
    var a1 := Write(c, a, CreateConnection(c.peerType, c.peer, c.localType)).s;
    var a2 := Poll(a1).s;
    assert a2.script == [Deliver, Expire] + rest && a2.ctl.unread == [CommandStatus(CONNECTION_EXISTS, CREATE_OPCODE)];
    var a3 := Poll(a2).s;
    assert a3.script == [Expire] + rest;
    var a4 := Poll(a3).s;
    assert a4.script == rest;
    assert AwaitConnection(a1) == AwaitConnection(a2) == AwaitConnection(a3) == Reconnect(a4);
    assert Secure(c, 0, a) == Reconnect(a4);
    s' := a4;
  }

  lemma RunStep(c: Config, n: nat, k: nat, s: Sys)
    requires k > 0 && s.script != []
    ensures var s1 := Session(c, n, s); Run(c, n, k, s).0 == [s1.trace] + Run(c, n + 1, k - 1, s1).0
  {
  }

  // The second session of a run asks for pairing behind a disconnection it has read.
  ghost predicate SecondGoesOnBehindLoss(c: Config, s: Sys) {
    var traces := Run(c, 0, 2, s).0;
    |traces| == 2 && exists i, j :: TraceSafety.AfterLoss(traces[1], i, j)
  }

  /** So it happens in the second session of a run from the start of the process in which no write fails. */
  lemma PairingAfterDrainedLossFromBoot(c: Config, h: Word, reason: Byte)
    requires forall k | 0 <= k < 4 :: !c.fails(k)
    ensures exists script :: Booted(Boot(script)) && SecondGoesOnBehindLoss(c, Boot(script))
  {
    var rest := [Turn(Emit(Disconnection(reason))), Deliver, Turn(Process(true)), Deliver]
                + [Turn(Process(true)), Turn(Finish(SUCCESS, h, c.peerType, c.peer)), Deliver, Deliver];
    var s := Boot([Turn(Process(false)), Deliver, Expire] + rest);
    var s1 := FirstIsRefused(c, s, rest);
    PairingAfterDrainedLoss(c, 1, s1, h, reason);
    var s2 := Session(c, 1, s1);
    RunStep(c, 0, 2, s);
    RunStep(c, 1, 1, s1);
    assert Run(c, 2, 0, s2).0 == [];
    assert Run(c, 0, 2, s).0 == [s1.trace] + ([s2.trace] + []);
    var i: nat, j: nat :| TraceSafety.AfterLoss(s2.trace, i, j);
    assert TraceSafety.AfterLoss(Run(c, 0, 2, s).0[1], i, j);
    assert SecondGoesOnBehindLoss(c, s);
  }
}
