/** Exactly when a session pairs or encrypts behind a disconnection it has read. */
module LossExactly {
  import opened Bytes
  import opened Transport
  import opened Controller
  import opened Host
  import opened TraceSafety
  import opened PairExactly

  // Pairing writes an SMP PDU before anything else.
  lemma NegotiateWritesFirst(c: Config, s: Sys)
    ensures var t := Negotiate(c, s).s.trace;
            s.trace <= t && |s.trace| < |t| && t[|s.trace|].Wrote? && t[|s.trace|].packet.SmpPdu?
  {
    var f := RequestSecurity(c, s);
    if f.Go? {
      var g := Write(c, f.s, SmpPdu(f.s.conn, PAIRING_REQUEST));
      if g.Go? { AwaitResponseAsks(c, g.s); }
    }
  }

  lemma PairWritesFirst(c: Config, n: nat, s: Sys)
    ensures var t := Pair(c, n, s).s.trace;
            s.trace <= t && |s.trace| < |t| && t[|s.trace|].Wrote? && t[|s.trace|].packet.SmpPdu?
  {
    NegotiateWritesFirst(c, s);
    if Negotiate(c, s).Go? { OneConfirm(c, n, s); }
  }

  lemma EncryptExtends(c: Config, s: Sys)
    ensures s.trace <= Encrypt(c, s).s.trace
  {
    var f := Write(c, s, StartEncryption(s.conn, s.stk));
    if f.Go? { AwaitEncryptionExtends(c, f.s); }
  }

  lemma SecureExtends(c: Config, n: nat, s: Sys)
    ensures var f := Connect(c, s);
            var t := Secure(c, n, s).s.trace;
            if f.Go? then Pair(c, n, f.s).s.trace <= t else t == f.s.trace
  {
    var f := Connect(c, s);
    if f.Go? {
      var g := Pair(c, n, f.s);
      if g.Go? { EncryptExtends(c, g.s); }
    }
  }

  // The trace of a session extends that of its securing, and is no longer if that failed.
  lemma SessionExtends(c: Config, n: nat, s: Sys)
    ensures var f := Secure(c, n, Begin(c, s));
            var t := Session(c, n, s).trace;
            if f.Go? then f.s.trace <= t else t == f.s.trace
  {
    var s0 := Begin(c, s);
    BeginTrace(c, n, s);
    SecureTrace(c, n, s0);
    var f := Secure(c, n, s0);
    if f.Go? {
      AttributesTrace(c, n, f.s.(didCancel := false));
    }
  }

  // Behind the wait for the connection comes an SMP PDU, or nothing.
  lemma SessionFollows(c: Config, n: nat, s: Sys)
    ensures var f := Connect(c, Begin(c, s));
            Follows(f, Session(c, n, s).trace)
  {
    var s0 := Begin(c, s);
    var f := Connect(c, s0);
    SessionExtends(c, n, s);
    SecureExtends(c, n, s0);
    if f.Go? {
      PairWritesFirst(c, n, f.s);
      FollowsFurther(f, Pair(c, n, f.s).s.trace, Secure(c, n, s0).s.trace);
      FollowsFurther(f, Secure(c, n, s0).s.trace, Session(c, n, s).trace);
    } else {
      assert Secure(c, n, s0) == f;
    }
  }

  predicate Follows(f: Flow, t: Trace) {
    if f.Go? then f.s.trace <= t && |f.s.trace| < |t| && t[|f.s.trace|].Wrote? && t[|f.s.trace|].packet.SmpPdu?
    else t == f.s.trace
  }

  lemma FollowsFurther(f: Flow, t: Trace, u: Trace)
    requires f.Go? && Follows(f, t) && t <= u
    ensures Follows(f, u)
  {
  }

  // The parts of a session's trace: what stood before the create, the create, and the wait for its connection.
  lemma SessionParts(c: Config, n: nat, s: Sys)
    ensures var s0, t := Begin(c, s), Session(c, n, s).trace;
            Parts(s0.trace, Connect(c, s0), t)
  {
    var s0 := Begin(c, s);
    BeginTrace(c, n, s);
    ConnectTrace(c, n, s0);
    SessionFollows(c, n, s);
    Joined(s0.trace, Connect(c, s0), Session(c, n, s).trace);
  }

  ghost predicate Parts(t0: Trace, f: Flow, t: Trace) {
    && t0 <= t && |t0| < |t| && IsCreate(t[|t0|]) && Follows(f, t) && |t0| < |f.s.trace|
    && (f.Reconnect? ==> forall i | |t0| <= i < |t| :: t[i].Wrote? ==> IsCreate(t[i]))
  }

  lemma Joined(t0: Trace, f: Flow, t: Trace)
    requires Follows(f, t) && t0 <= f.s.trace && |t0| < |f.s.trace| && IsCreate(f.s.trace[|t0|])
    requires forall i | |t0| <= i < |f.s.trace| :: f.s.trace[i].Wrote? ==> IsCreate(f.s.trace[i])
    ensures Parts(t0, f, t)
  {
    assert t[|t0|] == f.s.trace[|t0|];
  }

  // In a proper trace the create a later SMP PDU or start relies on is the only one.
  lemma OnlyCreate(c: Config, n: nat, t: Trace, at: nat, i: nat)
    requires Proper(c, n, t) && at < |t| && i < |t| && IsCreate(t[at]) && IsCreate(t[i]) && at <= i
    ensures i == at
  {
    assert AllowedAt(c, n, t, i);
    assert forall k | 0 <= k < i :: t[..i][k] in t[..i] && t[..i][k] == t[k];
    assert forall k | 0 <= k < i :: !IsCreate(t[k]);
  }

  // The drain read a disconnection.
  ghost predicate DrainedLoss(s: Sys) {
    exists i :: 0 <= i < |s.trace| && IsLoss(s.trace[i])
  }

  lemma LossWasDrained(c: Config, n: nat, s: Sys, i: nat, j: nat)
    requires AfterLoss(Session(c, n, s).trace, i, j)
    ensures DrainedLoss(Begin(c, s)) && Connect(c, Begin(c, s)).Go?
  {
    var t, s0 := Session(c, n, s).trace, Begin(c, s);
    SessionIsProper(c, n, s);
    SessionParts(c, n, s);
    LossBeforeCreate(c, n, t, i, j);
    var k :| i < k < j && IsCreate(t[k]);
    var b := |s0.trace|;
    if b <= k { OnlyCreate(c, n, t, b, k); } else { OnlyCreate(c, n, t, k, b); }
    assert t[i] == s0.trace[i];
  }

  /** A session pairs or encrypts behind a disconnection it has read exactly when the drain of its cancel read one and
      the connection then came about; both are known before the first SMP PDU is written. */
  lemma GoesOnBehindLossExactly(c: Config, n: nat, s: Sys)
    ensures (exists i: nat, j: nat :: AfterLoss(Session(c, n, s).trace, i, j))
            <==> DrainedLoss(Begin(c, s)) && Connect(c, Begin(c, s)).Go?
  {
    var t, s0 := Session(c, n, s).trace, Begin(c, s);
    SessionParts(c, n, s);
    forall i: nat, j: nat | AfterLoss(t, i, j) ensures DrainedLoss(s0) && Connect(c, s0).Go? {
      LossWasDrained(c, n, s, i, j);
    }
    if DrainedLoss(s0) && Connect(c, s0).Go? {
      var i :| 0 <= i < |s0.trace| && IsLoss(s0.trace[i]);
      assert t[i] == s0.trace[i];
      assert AfterLoss(t, i, |Connect(c, s0).s.trace|);
    }
  }
}
