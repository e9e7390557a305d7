/** No create is ever written while an earlier one may still be pending, over any number of sessions. */
module CreateSafety {
  import opened Bytes
  import opened Transport
  import opened Controller
  import opened Exposure
  import opened Host

  /** From s to s' the host wrote no create and no cancel, and left the cancel flag alone. */
  ghost predicate Leaves(s: Sys, s': Sys) {
    && s'.didCancel == s.didCancel && s'.missed == s.missed
    && (AtMostOne(s.ctl) ==> AtMostOne(s'.ctl) && Load(s'.ctl) <= Load(s.ctl))
    && (Safe(s.ctl) ==> Safe(s'.ctl))
  }

  lemma PollKeepsSafe(s: Sys)
    ensures var i := Poll(s);
            !i.Stopped? ==> (Safe(s.ctl) ==> Safe(i.s.ctl)) && (MayPend(i.s.ctl) ==> MayPend(s.ctl))
  {
    if s.script != [] && s.script[0].Turn? { ActKeepsSafe(s.ctl, s.script[0].action); }
  }

  lemma PollLeaves(s: Sys)
    ensures var i := Poll(s); !i.Stopped? ==> Leaves(s, i.s)
  {
    PollKeepsSafe(s);
    if s.script != [] && AtMostOne(s.ctl) {
      match s.script[0]
      case Turn(a) => ActKeepsLoad(s.ctl, a);
      case Deliver => if s.ctl.unread != [] { ReadKeepsLoad(s.ctl); }
      case _ =>
    }
  }

  lemma WriteLeaves(c: Config, s: Sys, p: Packet)
    requires !p.CreateConnection? && !p.CancelCreate?
    ensures Leaves(s, Write(c, s, p).s)
  {
    WriteExposes(s.ctl.unprocessed, p, s.ctl.creating);
  }

  lemma {:induction false} AwaitAclLeaves(s: Sys, cid: Word, buf: Data)
    ensures Leaves(s, AwaitAcl(s, cid, buf).s)
    decreases |s.script|
  {
    PollLeaves(s);
    var i := Poll(s);
    if i.Elapsed? || i.Nothing? || i.Received? { AwaitAclLeaves(i.s, cid, buf); }
  }

  lemma {:induction false} AwaitEncryptionLeaves(c: Config, s: Sys)
    ensures Leaves(s, AwaitEncryption(c, s).s)
    decreases |s.script|
  {
    PollLeaves(s);
    var i := Poll(s);
    if i.Elapsed? || i.Nothing? || i.Received? { AwaitEncryptionLeaves(c, i.s); }
    if i.Received? && i.frame.LtkRequest? {
      var w := Write(c, i.s, LtkReply(i.frame.handle, s.stk)).s;
      WriteLeaves(c, i.s, LtkReply(i.frame.handle, s.stk));
      AwaitEncryptionLeaves(c, w);
    }
  }

  lemma {:induction false} CharacteristicsLeaves(c: Config, s: Sys)
    ensures Leaves(s, Characteristics(c, s).s)
    decreases |s.script|
  {
    var rx := AwaitAcl(s, ATT_CID, Buffer(c, s, 64));
    AwaitAclShrinks(s, ATT_CID, Buffer(c, s, 64));
    AwaitAclLeaves(s, ATT_CID, Buffer(c, s, 64));
    if rx.rc == 0 {
      CharacteristicsLeaves(c, Learn(rx.s, rx.buf, rx.len));
    }
  }

  lemma {:induction false} ReportsLeaves(s: Sys)
    ensures Leaves(s, Reports(s))
    decreases |s.script|
  {
    PollLeaves(s);
    var i := Poll(s);
    if !i.Stopped? { ReportsLeaves(i.s); }
  }

  lemma AwaitPairingResponseLeaves(c: Config, s: Sys)
    ensures Leaves(s, AwaitPairingResponse(c, s).s)
  {
    var buf := Buffer(c, s, 32);
    AwaitAclLeaves(s, SMP_CID, buf);
    var rx := AwaitAcl(s, SMP_CID, buf);
    AwaitAclLeaves(rx.s, SMP_CID, rx.buf);
  }

  lemma NegotiateLeaves(c: Config, s: Sys)
    ensures Leaves(s, Negotiate(c, s).s)
  {
    WriteLeaves(c, s, SmpPdu(s.conn, [SMP_SECURITY_REQUEST, 0x01]));
    var s1 := RequestSecurity(c, s).s;
    WriteLeaves(c, s1, SmpPdu(s1.conn, PAIRING_REQUEST));
    AwaitPairingResponseLeaves(c, Write(c, s1, SmpPdu(s1.conn, PAIRING_REQUEST)).s);
  }

  lemma AwaitValueLeaves(c: Config, s: Sys, opcode: Byte)
    ensures Leaves(s, AwaitValue(c, s, opcode).0.s)
  {
    AwaitAclLeaves(s, SMP_CID, Buffer(c, s, 32));
  }

  lemma CommitLeaves(c: Config, n: nat, s: Sys)
    ensures Leaves(s, Commit(c, n, s).s)
  {
    var s1 := s.(mrand := c.nonce(n));
    var p := SmpPdu(s1.conn, [SMP_CONFIRM] + OurConfirm(c, s1.pres, s1.mrand));
    WriteLeaves(c, s1, p);
    AwaitValueLeaves(c, Write(c, s1, p).s, SMP_CONFIRM);
  }

  lemma RevealLeaves(c: Config, s: Sys)
    ensures Leaves(s, Reveal(c, s).s)
  {
    var p := SmpPdu(s.conn, [SMP_RANDOM] + s.mrand);
    WriteLeaves(c, s, p);
    AwaitValueLeaves(c, Write(c, s, p).s, SMP_RANDOM);
  }

  lemma PairLeaves(c: Config, n: nat, s: Sys)
    ensures Leaves(s, Pair(c, n, s).s)
  {
    NegotiateLeaves(c, s);
    var s1 := Negotiate(c, s).s;
    CommitLeaves(c, n, s1);
    RevealLeaves(c, Commit(c, n, s1).s);
  }

  lemma EncryptLeaves(c: Config, s: Sys)
    ensures Leaves(s, Encrypt(c, s).s)
  {
    WriteLeaves(c, s, StartEncryption(s.conn, s.stk));
    AwaitEncryptionLeaves(c, Write(c, s, StartEncryption(s.conn, s.stk)).s);
  }

  lemma ExchangeMtuLeaves(c: Config, s: Sys)
    ensures Leaves(s, ExchangeMtu(c, s).s)
  {
    var p := AttPdu(s.conn, [ATT_MTU_REQ, 0xFF, 0x00]);
    WriteLeaves(c, s, p);
    var s1 := Write(c, s, p).s;
    AwaitAclLeaves(s1, ATT_CID, Buffer(c, s1, 32));
  }

  lemma DiscoverServiceLeaves(c: Config, s: Sys)
    ensures Leaves(s, DiscoverService(c, s).0.s)
  {
    var pdu := AttPdu(s.conn, [ATT_READ_BY_GROUP_REQ, 0x01, 0x00, 0xFF, 0xFF, 0x00, 0x28]);
    WriteLeaves(c, s, pdu);
    var flow := Write(c, s, pdu);
    if flow.Go? { AwaitAclLeaves(flow.s, ATT_CID, Buffer(c, flow.s, 64)); }
  }

  lemma DiscoverCharacteristicsLeaves(c: Config, s: Sys, start: Word, end: Word)
    ensures Leaves(s, DiscoverCharacteristics(c, s, start, end).s)
  {
    var pdu := [ATT_READ_BY_TYPE_REQ] + Put16(start) + Put16(end) + [0x03, 0x28];
    WriteLeaves(c, s, AttPdu(s.conn, pdu));
    CharacteristicsLeaves(c, Write(c, s, AttPdu(s.conn, pdu)).s);
  }

  lemma EnableNotificationsLeaves(c: Config, s: Sys)
    ensures Leaves(s, EnableNotifications(c, s).s)
  {
    var p := AttPdu(s.conn, [ATT_WRITE_REQ] + Put16(s.reportCccd) + [0x01, 0x00]);
    WriteLeaves(c, s, p);
    var s1 := Write(c, s, p).s;
    AwaitAclLeaves(s1, ATT_CID, Buffer(c, s1, 16));
  }

  lemma AttributesLeaves(c: Config, s: Sys)
    ensures Leaves(s, Attributes(c, s).s)
  {
    ExchangeMtuLeaves(c, s);
    var s1 := ExchangeMtu(c, s).s;
    DiscoverServiceLeaves(c, s1);
    var (flow, start, end) := DiscoverService(c, s1);
    DiscoverCharacteristicsLeaves(c, flow.s, start, end);
    var s2 := DiscoverCharacteristics(c, flow.s, start, end).s;
    EnableNotificationsLeaves(c, s2);
    ReportsLeaves(EnableNotifications(c, s2).s);
  }

  // ---------- connecting and cancelling ----------

  /** Reading a successful Connection Complete uses up the one connection that could come out. */
  lemma {:induction false} AwaitConnectionSettles(s: Sys)
    requires AtMostOne(s.ctl)
    ensures var flow := AwaitConnection(s);
            Leaves(s, flow.s) && (flow.Go? ==> Controller.Idle(flow.s.ctl))
    decreases |s.script|
  {
    PollLeaves(s);
    var i := Poll(s);
    if i.Elapsed? || i.Nothing? || i.Received? { AwaitConnectionSettles(i.s); }
    if i.Received? { ReadKeepsLoad(s.ctl); }
  }

  /** A drain that finds its reply leaves nothing pending. */
  lemma {:induction false} DrainSettles(s: Sys, frames: nat)
    requires Cancelling(s.ctl)
    ensures var s' := Drain(s, frames);
            && s'.didCancel == s.didCancel && (s.missed ==> s'.missed)
            && (!s'.missed ==> Controller.Idle(s'.ctl))
    decreases |s.script|
  {
    if frames > 0 && s.script != [] {
      var i := Poll(s);
      match s.script[0]
      case Turn(a) =>
        ActKeepsCancelling(s.ctl, a);
        DrainSettles(i.s, frames);
      case Deliver =>
        if s.ctl.unread != [] {
          ReadWhileCancelling(s.ctl);
          if !CancelReply(i.frame) { DrainSettles(i.s, frames - 1); }
        }
      case _ =>
    }
  }

  lemma {:induction false} DrainKeepsFlags(s: Sys, frames: nat)
    ensures var s' := Drain(s, frames); s'.didCancel == s.didCancel && (s.missed ==> s'.missed)
    decreases |s.script|
  {
    var i := Poll(s);
    if frames > 0 {
      if i.Elapsed? { DrainKeepsFlags(i.s, frames); }
      if i.Received? { DrainKeepsFlags(i.s, frames - 1); }
    }
  }

  lemma WriteCancel(c: State)
    requires AtMostOne(c)
    ensures Cancelling(c.Write(CancelCreate))
  {
    var d := c.Write(CancelCreate);
    assert d.unprocessed[..|d.unprocessed| - 1] == c.unprocessed;
  }

  /** What holds between sessions: one connection may be outstanding, and none when the flag is down. */
  ghost predicate Between(s: Sys) {
    AtMostOne(s.ctl) && (!s.didCancel ==> Controller.Idle(s.ctl))
  }

  lemma BeginSettles(c: Config, s: Sys)
    requires Between(s)
    ensures var s' := Begin(c, s);
            s'.didCancel && (s.missed ==> s'.missed) && (!s'.missed ==> Controller.Idle(s'.ctl))
  {
    var s0 := s.(trace := [], conn := 0, mtu := 0, lastReason := 0);
    if s.didCancel {
      WriteCancel(s.ctl);
      var flow := Write(c, s0, CancelCreate);
      if flow.Go? { DrainSettles(flow.s, 5); }
    }
  }

  lemma SecureSettles(c: Config, n: nat, s: Sys)
    requires Controller.Idle(s.ctl)
    ensures var flow := Secure(c, n, s);
            AtMostOne(flow.s.ctl) && (flow.Go? ==> Controller.Idle(flow.s.ctl))
  {
    var s1 := Write(c, s, CreateConnection(c.peerType, c.peer, c.localType)).s;
    assert AtMostOne(s1.ctl);
    AwaitConnectionSettles(s1);
    var s2 := Connect(c, s).s;
    PairLeaves(c, n, s2);
    EncryptLeaves(c, Pair(c, n, s2).s);
  }

  lemma SessionKeepsBetween(c: Config, n: nat, s: Sys)
    requires Between(s)
    ensures var s' := Session(c, n, s);
            (s.missed ==> s'.missed) && (!s'.missed ==> Between(s'))
  {
    BeginSettles(c, s);
    SessionKeepsMissed(c, n, s);
    var s0 := Begin(c, s);
    if !s0.missed {
      SecureSettles(c, n, s0);
      SecureKeepsFlags(c, n, s0);
      AttributesLeaves(c, Secure(c, n, s0).s.(didCancel := false));
    }
  }

  lemma {:induction false} AwaitConnectionKeepsFlags(s: Sys)
    ensures var s' := AwaitConnection(s).s; s'.didCancel == s.didCancel && s'.missed == s.missed
    decreases |s.script|
  {
    PollLeaves(s);
    var i := Poll(s);
    if !i.Stopped? { AwaitConnectionKeepsFlags(i.s); }
  }

  lemma SecureKeepsFlags(c: Config, n: nat, s: Sys)
    ensures var s' := Secure(c, n, s).s; s'.didCancel == s.didCancel && s'.missed == s.missed
  {
    AwaitConnectionKeepsFlags(Write(c, s, CreateConnection(c.peerType, c.peer, c.localType)).s);
    var s2 := Connect(c, s).s;
    PairLeaves(c, n, s2);
    EncryptLeaves(c, Pair(c, n, s2).s);
  }

  /** Only a cancellation can go unanswered. */
  lemma SessionKeepsMissed(c: Config, n: nat, s: Sys)
    ensures Session(c, n, s).missed == Begin(c, s).missed
    ensures s.missed ==> Begin(c, s).missed
  {
    var start := s.(trace := [], conn := 0, mtu := 0, lastReason := 0);
    DrainKeepsFlags(Write(c, start, CancelCreate).s, 5);
    var s0 := Begin(c, s);
    SecureKeepsFlags(c, n, s0);
    AttributesLeaves(c, Secure(c, n, s0).s.(didCancel := false));
  }

  lemma {:induction false} RunKeepsBetween(c: Config, n: nat, k: nat, s: Sys)
    requires Between(s) || s.missed
    ensures var s' := Run(c, n, k, s).1; (s.missed ==> s'.missed) && (!s'.missed ==> Between(s'))
    decreases k
  {
    if k > 0 && s.script != [] {
      SessionKeepsMissed(c, n, s);
      if !s.missed { SessionKeepsBetween(c, n, s); }
      RunKeepsBetween(c, n + 1, k - 1, Session(c, n, s));
    }
  }

  lemma {:induction false} NothingReserved(fs: seq<Frame>)
    requires forall f | f in fs :: !Reserved(f)
    ensures Successes(fs) == 0
  {
    if fs != [] {
      assert fs[|fs| - 1] in fs;
      NothingReserved(fs[..|fs| - 1]);
    }
  }

  /** Over any number of sessions, against any behaviour of controller and peer and any pattern of write
      failures: as long as every cancellation found its reply, the controller never turned a create
      down as disallowed, and no second connection can still come out of it. */
  lemma NoCreateIsDisallowed(c: Config, k: nat, s: Sys)
    requires Booted(s)
    requires !Run(c, 0, k, s).1.missed
    ensures NeverDisallowed(Run(c, 0, k, s).1.ctl)
    ensures Load(Run(c, 0, k, s).1.ctl) <= 1
  {
    NothingReserved(s.ctl.unread);
    RunKeepsBetween(c, 0, k, s);
  }

  // ---------- exactly when a session can have a create turned down ----------

  lemma {:induction false} AwaitConnectionLeaves(s: Sys)
    ensures Leaves(s, AwaitConnection(s).s)
    decreases |s.script|
  {
    PollLeaves(s);
    var i := Poll(s);
    if i.Elapsed? || i.Nothing? || i.Received? { AwaitConnectionLeaves(i.s); }
  }

  lemma {:induction false} DrainKeepsSafe(s: Sys, frames: nat)
    ensures Safe(s.ctl) ==> Safe(Drain(s, frames).ctl)
    ensures MayPend(Drain(s, frames).ctl) ==> MayPend(s.ctl)
    decreases |s.script|
  {
    PollKeepsSafe(s);
    var i := Poll(s);
    if frames > 0 {
      if i.Elapsed? { DrainKeepsSafe(i.s, frames); }
      if i.Received? { DrainKeepsSafe(i.s, frames - 1); }
    }
  }

  /** The session is about to write a create with no cancel written before it, while an attempt can still be pending:
      known from the flag, the two writes and the controller's queue before the session starts. */
  predicate Exposed(c: Config, s: Sys) {
    && !(s.didCancel && !c.fails(s.writes))
    && !c.fails(s.writes + if s.didCancel then 1 else 0)
    && MayPend(s.ctl)
  }

  // Behind the top of the loop body a create can be turned down only if the session was exposed.
  lemma BeginUnexposed(c: Config, s: Sys)
    requires Safe(s.ctl) && !Exposed(c, s)
    ensures var s0 := Begin(c, s); Safe(s0.ctl) && (c.fails(s0.writes) || !MayPend(s0.ctl))
  {
    var start := s.(trace := [], conn := 0, mtu := 0, lastReason := 0);
    if s.didCancel && !c.fails(s.writes) {
      WriteExposes(s.ctl.unprocessed, CancelCreate, s.ctl.creating);
      DrainKeepsSafe(Write(c, start, CancelCreate).s, 5);
    }
  }

  lemma UnexposedSessionIsSafe(c: Config, n: nat, s: Sys)
    requires Safe(s.ctl) && !Exposed(c, s)
    ensures Safe(Session(c, n, s).ctl)
  {
    BeginUnexposed(c, s);
    var s0 := Begin(c, s);
    var create := CreateConnection(c.peerType, c.peer, c.localType);
    WriteExposes(s0.ctl.unprocessed, create, s0.ctl.creating);
    var f := Write(c, s0, create);
    assert Safe(f.s.ctl);
    AwaitConnectionLeaves(f.s);
    var s1 := Connect(c, s0).s;
    PairLeaves(c, n, s1);
    EncryptLeaves(c, Pair(c, n, s1).s);
    AttributesLeaves(c, Secure(c, n, s0).s.(didCancel := false));
  }

  // The controller executes its queue while the host waits.
  function Turns(k: nat): (script: seq<Choice>)
    ensures |script| == k
  {
    if k == 0 then [] else [Turn(Process(true))] + Turns(k - 1)
  }

  lemma {:induction false} AwaitConnectionDuring(s: Sys, k: nat)
    requires s.script == Turns(k)
    ensures AwaitConnection(s).Reconnect? && AwaitConnection(s).s.ctl == ActAll(s.ctl, Execution(k))
    decreases k
  {
    if k > 0 {
      assert s.script[1..] == Turns(k - 1) && Execution(k)[1..] == Execution(k - 1);
      AwaitConnectionDuring(Poll(s).s, k - 1);
    }
  }

  lemma ExposedSessionCanDisallow(c: Config, n: nat, s: Sys)
    requires Exposed(c, s) && s.script == Turns(|s.ctl.unprocessed| + 1)
    ensures !NeverDisallowed(Session(c, n, s).ctl)
  {
    var s0 := Begin(c, s);
    assert s0.ctl == s.ctl && s0.script == s.script;
    var create := CreateConnection(c.peerType, c.peer, c.localType);
    WriteExposes(s.ctl.unprocessed, create, s.ctl.creating);
    var s1 := Write(c, s0, create).s;
    ExecutionDisallows(s1.ctl);
    AwaitConnectionDuring(s1, |s.ctl.unprocessed| + 1);
    assert Secure(c, n, s0) == AwaitConnection(s1);
  }

  // The script makes the session have a create turned down.
  ghost predicate Disallows(c: Config, n: nat, s: Sys, script: seq<Choice>) {
    !NeverDisallowed(Session(c, n, s.(script := script)).ctl)
  }

  /** Where no create was or can be turned down so far, a session can have one turned down exactly when it writes a
      create behind no written cancel while an attempt can still be pending. */
  lemma SessionCanDisallowExactly(c: Config, n: nat, s: Sys)
    requires Safe(s.ctl)
    ensures (exists script :: Disallows(c, n, s, script)) <==> Exposed(c, s)
  {
    if Exposed(c, s) {
      ExposedSessionCanDisallow(c, n, s.(script := Turns(|s.ctl.unprocessed| + 1)));
      assert Disallows(c, n, s, Turns(|s.ctl.unprocessed| + 1));
    } else {
      forall script ensures !Disallows(c, n, s, script) {
        UnexposedSessionIsSafe(c, n, s.(script := script));
      }
    }
  }

  // The state before session n + m of a run.
  function Before(c: Config, n: nat, m: nat, s: Sys): Sys {
    Run(c, n, m, s).1
  }

  predicate StartsUnexposed(c: Config, s: Sys) {
    s.script == [] || !Exposed(c, s)
  }

  /** A run none of whose sessions starts exposed has no create turned down, missed replies or not. */
  lemma {:induction false} UnexposedRunIsSafe(c: Config, n: nat, k: nat, s: Sys)
    requires Safe(s.ctl)
    requires forall m | 0 <= m < k :: StartsUnexposed(c, Before(c, n, m, s))
    ensures Safe(Run(c, n, k, s).1.ctl)
    decreases k
  {
    if k > 0 && s.script != [] {
      assert StartsUnexposed(c, Before(c, n, 0, s));
      UnexposedSessionIsSafe(c, n, s);
      var next, s1 := n + 1, Session(c, n, s);
      forall m | 0 <= m < k - 1 ensures StartsUnexposed(c, Before(c, next, m, s1)) {
        assert StartsUnexposed(c, Before(c, n, m + 1, s));
        assert Before(c, n, m + 1, s) == Before(c, next, m, s1);
      }
      UnexposedRunIsSafe(c, next, k - 1, s1);
    }
  }

  lemma BootedRunIsSafe(c: Config, k: nat, s: Sys)
    requires Booted(s)
    ensures (forall m | 0 <= m < k :: StartsUnexposed(c, Before(c, 0, m, s))) ==> NeverDisallowed(Run(c, 0, k, s).1.ctl)
  {
    if forall m | 0 <= m < k :: StartsUnexposed(c, Before(c, 0, m, s)) {
      UnexposedRunIsSafe(c, 0, k, s);
    }
  }

  // ---------- how far the drain reads ----------

  // Frames read between two states.
  function ReadsSince(s: Sys, s': Sys): int {
    |s'.trace| - |s.trace|
  }

  // The last choice consumed between s and s' ended a read without a frame, or none is left.
  predicate RanDry(s: Sys, s': Sys) {
    || s'.script == []
    || (|s'.script| < |s.script| &&
        var last := s.script[|s.script| - |s'.script| - 1];
        last.Quiet? || last.Expire? || (last.Deliver? && s'.ctl.unread == []))
  }

  predicate IsReply(e: Entry) {
    e.Got? && CancelReply(e.frame)
  }

  // What a drain of at most so many frames that began at s leaves behind.
  ghost predicate Drained(s: Sys, s': Sys, frames: nat) {
    var t := s'.trace;
    && s.trace <= t && ReadsSince(s, s') <= frames
    && |s'.script| <= |s.script| && s.script[|s.script| - |s'.script|..] == s'.script
    && (forall i | |s.trace| <= i < |t| :: t[i].Got?)
    && (forall i | |s.trace| <= i < |t| - 1 :: !IsReply(t[i]))
    && (s'.missed <==> !(|t| > |s.trace| && IsReply(t[|t| - 1])))
    && (s'.missed ==> ReadsSince(s, s') == frames || RanDry(s, s'))
  }

  // One poll that does not end it.
  lemma DrainedEarlier(s: Sys, s1: Sys, s': Sys, frames: nat, left: nat)
    requires s.script != [] && s1.script == s.script[1..] && Drained(s1, s', left)
    requires (s1.trace == s.trace && left == frames)
             || (left + 1 == frames && |s1.trace| == |s.trace| + 1 && s.trace <= s1.trace
                 && s1.trace[|s.trace|].Got? && !IsReply(s1.trace[|s.trace|]))
    ensures Drained(s, s', frames)
  {
    assert s.script[|s.script| - |s'.script|..] == s1.script[|s1.script| - |s'.script|..];
    if |s1.trace| > |s.trace| { assert s'.trace[|s.trace|] == s1.trace[|s.trace|]; }
  }

  lemma DrainStops(s: Sys, frames: nat)
    requires !s.missed
    requires var i := Poll(s);
             frames == 0 || !(i.Elapsed? || (i.Received? && !CancelReply(i.frame)))
    ensures Drained(s, Drain(s, frames), frames)
  {
  }

  /** The drain reads until it finds the reply to the cancel, until a read comes back without a frame, or as many frames
      as it may: it misses the reply exactly when none of those it read is one. */
  lemma {:induction false} DrainReadsUntilReply(s: Sys, frames: nat)
    requires !s.missed
    ensures Drained(s, Drain(s, frames), frames)
    decreases |s.script|
  {
    var i := Poll(s);
    if frames > 0 && (i.Elapsed? || (i.Received? && !CancelReply(i.frame))) {
      var left := if i.Received? then frames - 1 else frames;
      DrainReadsUntilReply(i.s, left);
      DrainedEarlier(s, i.s, Drain(i.s, left), frames, left);
      assert Drain(s, frames) == Drain(i.s, left);
    } else {
      DrainStops(s, frames);
    }
  }

  /** The cancel, once written, is drained so, over five frames. */
  lemma CancelReadsFiveFrames(c: Config, s: Sys)
    requires !s.missed && !c.fails(s.writes)
    ensures var w := Write(c, s, CancelCreate).s;
            w.trace == s.trace + [Wrote(CancelCreate, true)] && Drained(w, Cancel(c, s), 5)
  {
    DrainReadsUntilReply(Write(c, s, CancelCreate).s, 5);
  }
}
