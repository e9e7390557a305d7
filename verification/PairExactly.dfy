/** Against any peer and timing: pairing succeeds exactly when the exchange it is about took place. */
module PairExactly {
  import opened Bytes
  import opened Pairing
  import opened Transport
  import opened Controller
  import opened Host
  import opened TraceSafety

  predicate SmpRead(e: Entry, conn: Word) {
    e.Got? && e.frame.Acl? && e.frame.handle == conn && e.frame.cid == SMP_CID
  }

  predicate SmpWrite(e: Entry, opcode: Byte) {
    e.Wrote? && e.packet.SmpPdu? && e.packet.pdu != [] && e.packet.pdu[0] == opcode
  }

  // From `at` on the trace only holds reads, and only the last of them can be an SMP PDU on the connection.
  ghost predicate ReadsUpTo(t: Trace, at: nat, conn: Word) {
    && at <= |t|
    && (forall i | at <= i < |t| :: t[i].Got?)
    && (forall i | at <= i < |t| - 1 :: !SmpRead(t[i], conn))
  }

  // The wait for an SMP PDU is not decided by the next poll.
  predicate Passes(s: Sys) {
    var i := Poll(s);
    i.Elapsed? || i.Nothing? || (i.Received? && !i.frame.Disconnection? && !SmpRead(Got(i.frame), s.conn))
  }

  lemma OnePass(s: Sys, buf: Data)
    requires Passes(s)
    ensures var i := Poll(s);
            && AwaitAcl(s, SMP_CID, buf) == AwaitAcl(i.s, SMP_CID, buf)
            && SameRecord(s, i.s) && i.s.trace == s.trace + if i.Received? then [Got(i.frame)] else []
  {
  }

  // What a wait for an SMP PDU that began at s leaves behind.
  ghost predicate Scanned(s: Sys, rx: Rx, size: nat) {
    var t := rx.s.trace;
    && SameRecord(s, rx.s) && s.trace <= t && ReadsUpTo(t, |s.trace|, s.conn) && |rx.buf| == size
    && (|t| > |s.trace| && SmpRead(t[|t| - 1], s.conn) ==> rx.rc == 0)
    && (rx.rc == 0 ==> |t| > |s.trace| && Returns(rx, s.conn, SMP_CID))
  }

  lemma ScanEnds(s: Sys, buf: Data)
    requires !Passes(s)
    ensures Scanned(s, AwaitAcl(s, SMP_CID, buf), |buf|)
  {
  }

  lemma ScannedEarlier(s: Sys, s1: Sys, rx: Rx, size: nat)
    requires SameRecord(s, s1) && Scanned(s1, rx, size)
    requires s1.trace == s.trace
             || (|s1.trace| == |s.trace| + 1 && s.trace <= s1.trace && s1.trace[|s.trace|].Got?
                 && !SmpRead(s1.trace[|s.trace|], s.conn))
    ensures Scanned(s, rx, size)
  {
  }

  lemma {:induction false} AwaitSmpScans(s: Sys, buf: Data)
    ensures Scanned(s, AwaitAcl(s, SMP_CID, buf), |buf|)
    decreases |s.script|
  {
    if Passes(s) {
      var i := Poll(s);
      OnePass(s, buf);
      AwaitSmpScans(i.s, buf);
      ScannedEarlier(s, i.s, AwaitAcl(i.s, SMP_CID, buf), |buf|);
    } else {
      ScanEnds(s, buf);
    }
  }

  // A wait for a 17-byte PDU ends well exactly when it reads one; the value is the one read.
  lemma AwaitValueScans(c: Config, s: Sys, opcode: Byte)
    ensures var (flow, value) := AwaitValue(c, s, opcode);
            var t := flow.s.trace;
            && SameRecord(s, flow.s) && s.trace <= t && ReadsUpTo(t, |s.trace|, s.conn)
            && (flow.Go? ==> |t| > |s.trace| && t[|t| - 1] == Got(Acl(s.conn, SMP_CID, [opcode] + value)))
            && (forall i, v: Block | |s.trace| <= i < |t| && t[i] == Got(Acl(s.conn, SMP_CID, [opcode] + v)) ::
                  flow.Go? && value == v)
  {
    var buf := Buffer(c, s, 32);
    AwaitSmpScans(s, buf);
    var rx := AwaitAcl(s, SMP_CID, buf);
    var t := rx.s.trace;
    if rx.rc == 0 && rx.len == 17 && rx.buf[0] == opcode {
      assert rx.buf[..17] == [rx.buf[0]] + rx.buf[1..17];
    }
    forall i, v: Block | |s.trace| <= i < |t| && t[i] == Got(Acl(s.conn, SMP_CID, [opcode] + v))
      ensures rx.rc == 0 && rx.len == 17 && rx.buf[0] == opcode && rx.buf[1..17] == v
    {
      assert SmpRead(t[i], s.conn);
      assert i == |t| - 1;
      var p := [opcode] + v;
      assert rx.buf[..17] == p;
      assert rx.buf[0] == p[0] && rx.buf[1..17] == p[1..];
    }
  }

  // Up to the response only requests are written.
  ghost predicate OnlyAsks(s: Sys, s': Sys) {
    && s.trace <= s'.trace && s'.conn == s.conn
    && forall i | |s.trace| <= i < |s'.trace| ::
         !SmpWrite(s'.trace[i], SMP_CONFIRM) && !SmpWrite(s'.trace[i], SMP_RANDOM)
  }

  lemma AwaitResponseAsks(c: Config, s: Sys)
    ensures OnlyAsks(s, AwaitPairingResponse(c, s).s)
  {
    var buf := Buffer(c, s, 32);
    AwaitSmpScans(s, buf);
    var rx := AwaitAcl(s, SMP_CID, buf);
    AwaitSmpScans(rx.s, rx.buf);
  }

  lemma NegotiateAsks(c: Config, s: Sys)
    ensures OnlyAsks(s, Negotiate(c, s).s)
  {
    var f1 := RequestSecurity(c, s);
    assert OnlyAsks(s, f1.s);
    if f1.Go? {
      var f2 := Write(c, f1.s, SmpPdu(f1.s.conn, PAIRING_REQUEST));
      assert OnlyAsks(s, f2.s);
      if f2.Go? { AwaitResponseAsks(c, f2.s); }
    }
  }

  // The entries a step adds: one write, then its wait.
  ghost predicate OneWrite(s: Sys, s': Sys, pdu: Data) {
    && s.trace <= s'.trace && |s'.trace| > |s.trace| && s'.conn == s.conn
    && s'.trace[|s.trace|].Wrote? && s'.trace[|s.trace|].packet == SmpPdu(s.conn, pdu)
    && ReadsUpTo(s'.trace, |s.trace| + 1, s.conn)
    && (!s'.trace[|s.trace|].ok ==> |s'.trace| == |s.trace| + 1)
  }

  lemma CommitScans(c: Config, n: nat, s: Sys)
    ensures var flow := Commit(c, n, s);
            && OneWrite(s, flow.s, [SMP_CONFIRM] + OurConfirm(c, s.pres, c.nonce(n)))
            && flow.s.pres == s.pres && flow.s.mrand == c.nonce(n)
            && (flow.Go? ==>
                  && flow.s.trace[|flow.s.trace| - 1] == Got(Acl(s.conn, SMP_CID, [SMP_CONFIRM] + flow.s.sconfirm))
                  && |flow.s.trace| > |s.trace| + 1)
  {
    var s1 := s.(mrand := c.nonce(n));
    var f := Write(c, s1, SmpPdu(s1.conn, [SMP_CONFIRM] + OurConfirm(c, s1.pres, s1.mrand)));
    if f.Go? { AwaitValueScans(c, f.s, SMP_CONFIRM); }
  }

  lemma RevealScans(c: Config, s: Sys)
    ensures var flow := Reveal(c, s);
            var t := flow.s.trace;
            && OneWrite(s, flow.s, [SMP_RANDOM] + s.mrand)
            && forall i, v: Block | |s.trace| < i < |t| && t[i] == Got(Acl(s.conn, SMP_CID, [SMP_RANDOM] + v)) ::
                 flow.Go? <==> PeerConfirm(c, s.pres, v) == s.sconfirm
  {
    var f := Write(c, s, SmpPdu(s.conn, [SMP_RANDOM] + s.mrand));
    if f.Go? { AwaitValueScans(c, f.s, SMP_RANDOM); }
  }

  /** The whole exchange took place from position `since` on, on this connection. */
  ghost predicate ExchangedSince(c: Config, t: Trace, since: nat, conn: Word, w: Handshake) {
    Exchanged(c, t, w) && since <= w.request && w.handle == conn
  }

  // Behind our Confirm no other is written.
  lemma NoOtherConfirm(s: Sys, s1: Sys, s2: Sys, confirm: Data, random: Data)
    requires OneWrite(s, s1, confirm)
    requires s2 == s1 || (OneWrite(s1, s2, random) && random != [] && random[0] != SMP_CONFIRM)
    ensures s.trace <= s2.trace && forall i | |s.trace| < i < |s2.trace| :: !SmpWrite(s2.trace[i], SMP_CONFIRM)
  {
    forall i | |s.trace| < i < |s2.trace| ensures !SmpWrite(s2.trace[i], SMP_CONFIRM) {
      if i < |s1.trace| { assert s2.trace[i] == s1.trace[i]; }
    }
  }

  lemma OneConfirm(c: Config, n: nat, s: Sys)
    requires Negotiate(c, s).Go?
    ensures var t, k := Pair(c, n, s).s.trace, |Negotiate(c, s).s.trace|;
            Negotiate(c, s).s.trace <= t && forall i | k < i < |t| :: !SmpWrite(t[i], SMP_CONFIRM)
  {
    var s1 := Negotiate(c, s).s;
    CommitScans(c, n, s1);
    var f := Commit(c, n, s1);
    RevealScans(c, f.s);
    NoOtherConfirm(s1, f.s, if f.Go? then Reveal(c, f.s).s else f.s,
                   [SMP_CONFIRM] + OurConfirm(c, s1.pres, c.nonce(n)), [SMP_RANDOM] + f.s.mrand);
  }

  lemma OnlyConfirm(c: Config, n: nat, s: Sys)
    ensures var t, f := Pair(c, n, s).s.trace, Negotiate(c, s);
            s.trace <= t &&
            forall i | |s.trace| <= i < |t| && SmpWrite(t[i], SMP_CONFIRM) :: f.Go? && i == |f.s.trace|
  {
    var t := Pair(c, n, s).s.trace;
    NegotiateAsks(c, s);
    var f := Negotiate(c, s);
    if f.Go? { OneConfirm(c, n, s); }
    assert f.s.trace <= t;
    assert forall i | |s.trace| <= i < |f.s.trace| :: t[i] == f.s.trace[i];
  }

  // An exchange in the trace of a pairing got past the negotiation: its Confirm is the one written there.
  lemma ExchangeCommits(c: Config, n: nat, s: Sys, w: Handshake)
    requires ExchangedSince(c, Pair(c, n, s).s.trace, |s.trace|, s.conn, w)
    ensures var f := Negotiate(c, s);
            f.Go? && w.commit == |f.s.trace|
  {
    OnlyConfirm(c, n, s);
    assert SmpWrite(Pair(c, n, s).s.trace[w.commit], SMP_CONFIRM);
  }

  // And past the commitment: its Random is the one written there, its Confirm the one read last before that.
  lemma ExchangeReveals(c: Config, n: nat, s: Sys, w: Handshake)
    requires ExchangedSince(c, Pair(c, n, s).s.trace, |s.trace|, s.conn, w)
    ensures var f := Negotiate(c, s);
            var g := Commit(c, n, f.s);
            f.Go? && g.Go? && w.commit == |f.s.trace| && w.revealed == |g.s.trace| && w.confirm == |g.s.trace| - 1
  {
    ExchangeCommits(c, n, s, w);
    var t := Pair(c, n, s).s.trace;
    var f1 := Negotiate(c, s);
    CommitScans(c, n, f1.s);
    var f2 := Commit(c, n, f1.s);
    assert SmpWrite(t[w.revealed], SMP_RANDOM);
    if f2.Go? {
      RevealScans(c, f2.s);
      assert t[..|f2.s.trace|] == f2.s.trace;
      assert forall i | |f1.s.trace| < i < |f2.s.trace| :: t[i] == f2.s.trace[i] && t[i].Got?;
      assert forall i | |f2.s.trace| < i < |t| :: t[i].Got?;
      assert w.revealed == |f2.s.trace|;
      assert SmpRead(t[w.confirm], s.conn) && t[w.confirm] == f2.s.trace[w.confirm];
    }
  }

  /** Against any peer and timing, pairing succeeds exactly when request, response, our Confirm, the peer's, our Random
      and one of the peer that its Confirm commits to were written and read, in this order, since it began. */
  lemma PairsExactly(c: Config, n: nat, s: Sys)
    requires Injective(c.e) && Proper(c, n, s.trace) && Connected(s.trace, s.conn)
    ensures Pair(c, n, s).Go? <==> exists w :: ExchangedSince(c, Pair(c, n, s).s.trace, |s.trace|, s.conn, w)
  {
    var t := Pair(c, n, s).s.trace;
    if Pair(c, n, s).Go? {
      var w := PairTrace(c, n, s);
      assert ExchangedSince(c, t, |s.trace|, s.conn, w);
    }
    forall w | ExchangedSince(c, t, |s.trace|, s.conn, w) ensures Pair(c, n, s).Go? {
      ExchangeSucceeds(c, n, s, w);
    }
  }

  lemma ExchangeSucceeds(c: Config, n: nat, s: Sys, w: Handshake)
    requires Injective(c.e) && ExchangedSince(c, Pair(c, n, s).s.trace, |s.trace|, s.conn, w)
    ensures Pair(c, n, s).Go?
  {
    ExchangeReveals(c, n, s, w);
    NegotiateAsks(c, s);
    var f1 := Negotiate(c, s);
    var f2 := Commit(c, n, f1.s);
    assert Pair(c, n, s) == Reveal(c, f2.s);
    RevealDecides(c, n, f1.s, w);
  }

  lemma RevealDecides(c: Config, n: nat, s: Sys, w: Handshake)
    requires Injective(c.e) && Commit(c, n, s).Go?
    requires var g := Commit(c, n, s);
             Exchanged(c, Reveal(c, g.s).s.trace, w) && w.handle == s.conn
             && w.commit == |s.trace| && w.revealed == |g.s.trace| && w.confirm == |g.s.trace| - 1
    ensures Reveal(c, Commit(c, n, s).s).Go?
  {
    CommitScans(c, n, s);
    var g := Commit(c, n, s).s;
    RevealScans(c, g);
    var t := Reveal(c, g).s.trace;
    assert t[w.commit] == g.trace[w.commit] && t[w.confirm] == g.trace[w.confirm];
    SameValues(c, n, s, g, t, w);
    SameConfirms(c, g.pres, w.srand);
    MatchDecides(c, g, w.random, w.srand);
  }

  lemma MatchDecides(c: Config, s: Sys, i: nat, v: Block)
    requires var t := Reveal(c, s).s.trace;
             |s.trace| < i < |t| && t[i] == Got(Acl(s.conn, SMP_CID, [SMP_RANDOM] + v))
    requires PeerConfirm(c, s.pres, v) == s.sconfirm
    ensures Reveal(c, s).Go?
  {
    RevealScans(c, s);
  }

  // What the exchange holds is what the host stored.
  lemma SameValues(c: Config, n: nat, s1: Sys, s2: Sys, t: Trace, w: Handshake)
    requires Injective(c.e) && Exchanged(c, t, w) && w.handle == s1.conn == s2.conn
    requires s2.trace <= t && |s2.trace| < |t| && w.commit == |s1.trace| < |s2.trace| && w.revealed == |s2.trace|
    requires w.confirm == |s2.trace| - 1
    requires t[w.commit].Wrote?
    requires t[w.commit].packet == SmpPdu(s1.conn, [SMP_CONFIRM] + OurConfirm(c, s1.pres, s2.mrand))
    requires t[w.revealed].Wrote? && t[w.revealed].packet == SmpPdu(s2.conn, [SMP_RANDOM] + s2.mrand)
    requires t[w.confirm] == Got(Acl(s1.conn, SMP_CID, [SMP_CONFIRM] + s2.sconfirm))
    ensures w.mrand == s2.mrand && w.pres == s1.pres && w.sconfirm == s2.sconfirm
  {
    SameTail(SMP_RANDOM, w.mrand, s2.mrand);
    SameTail(SMP_CONFIRM, w.sconfirm, s2.sconfirm);
    SameTail(SMP_CONFIRM, OurConfirm(c, w.pres, w.mrand), OurConfirm(c, s1.pres, s2.mrand));
    C1InjectiveInPdus(c.e, TK, s2.mrand, PAIRING_REQUEST, w.pres, c.localType, c.peerType,
                      PAIRING_REQUEST, s1.pres, c.localType, c.peerType, c.local, c.peer);
  }

  lemma SameTail(opcode: Byte, a: Block, b: Block)
    requires [opcode] + a == [opcode] + b
    ensures a == b
  {
    assert a == ([opcode] + a)[1..] && b == ([opcode] + b)[1..];
  }
}
