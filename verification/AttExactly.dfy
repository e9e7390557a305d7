/** The bytes of every ATT PDU a session writes, from the bytes of the frames it has read. */
module AttExactly {
  import opened Bytes
  import opened Transport
  import opened Controller
  import opened Host
  import opened TraceSafety

  // ---------- what the host sees of the frames it reads ----------

  predicate AttRead(e: Entry, conn: Word) {
    e.Got? && e.frame.Acl? && e.frame.handle == conn && e.frame.cid == 0x0004
  }

  // The ATT payloads read on the connection from position `at` on.
  function Payloads(t: Trace, at: nat, conn: Word): seq<Data>
    decreases |t|
  {
    if |t| <= at then []
    else
      var last := t[|t| - 1];
      Payloads(t[..|t| - 1], at, conn) + if AttRead(last, conn) then [last.frame.payload] else []
  }

  // What a buffer of the given size shows of a payload: all of it, or, if it does not fit, its own earlier contents.
  predicate Shows(view: Data, payload: Data, size: nat) {
    if |payload| <= size then view == payload else |view| == size
  }

  ghost predicate AllShown(views: seq<Data>, payloads: seq<Data>, size: nat) {
    |views| == |payloads| && forall i | 0 <= i < |views| :: Shows(views[i], payloads[i], size)
  }

  lemma {:induction false} PayloadsLater(t: Trace, u: Trace, at: nat, conn: Word)
    requires t <= u && at <= |t|
    ensures Payloads(u, at, conn) == Payloads(t, at, conn) + Payloads(u, |t|, conn)
    decreases |u|
  {
    if |t| == |u| {
      assert t == u;
    } else {
      var v := u[..|u| - 1];
      assert t <= v;
      PayloadsLater(t, v, at, conn);
    }
  }

  // ---------- what the frames say ----------

  // A Read By Type Response whose first characteristic can notify.
  predicate Notifies(v: Data) {
    |v| >= 7 && v[0] == 0x09 && v[4] / 0x10 % 2 == 1
  }

  /** The handle that enables notifications: one more than the value handle of the last characteristic seen that can
      notify; without one what the session record held; and 0x000F if there the report handle is 0. */
  function Cccd(views: seq<Data>, reportHandle: Word, reportCccd: Word): Word {
    if views == [] then if reportHandle == 0 then 0x000F else reportCccd
    else
      var v := views[|views| - 1];
      if !Notifies(v) then Cccd(views[..|views| - 1], reportHandle, reportCccd)
      else if Le16(v[5], v[6]) == 0 then 0x000F
      else (Le16(v[5], v[6]) + 1) % 0x1_0000
  }

  // The range of the first service of a Read By Group Type Response, or all handles.
  function ServiceRange(views: seq<Data>): (Word, Word) {
    if |views| == 1 && |views[0]| >= 6 && views[0][0] == 0x11
    then (Le16(views[0][2], views[0][3]), Le16(views[0][4], views[0][5]))
    else (0x0001, 0xFFFF)
  }

  const MTU_REQUEST: Data := [0x02, 0xFF, 0x00]
  const GROUP_REQUEST: Data := [0x10, 0x01, 0x00, 0xFF, 0xFF, 0x00, 0x28]

  function TypeRequest(range: (Word, Word)): Data {
    [0x08] + Put16(range.0) + Put16(range.1) + [0x03, 0x28]
  }

  function NotifyRequest(cccd: Word): Data {
    [0x12] + Put16(cccd) + [0x01, 0x00]
  }

  // Behind a written PDU at m only reads up to i, and what they show.
  ghost predicate Behind(t: Trace, m: nat, i: nat, conn: Word, pdu: Data, views: seq<Data>, size: nat) {
    && m < i < |t| && t[m] == Wrote(AttPdu(conn, pdu), true) && (forall k | m < k < i :: t[k].Got?)
    && AllShown(views, Payloads(t[..i], m + 1, conn), size)
  }

  /** The PDU at i is one of the four of the attribute phase that begins at `base`, in its place: the MTU request first,
      the others each behind the one before and what was read since. */
  ghost predicate AttWrite(t: Trace, base: nat, i: nat, conn: Word, reportHandle: Word, reportCccd: Word) {
    && i < |t| && t[i].Wrote? && t[i].packet.AttPdu? && t[i].packet.handle == conn
    && var pdu := t[i].packet.pdu;
       || (i == base && pdu == MTU_REQUEST)
       || (exists views :: Behind(t, base, i, conn, MTU_REQUEST, views, 32) && pdu == GROUP_REQUEST)
       || (exists m: nat, views ::
             Behind(t, m, i, conn, GROUP_REQUEST, views, 64) && pdu == TypeRequest(ServiceRange(views)))
       || (exists m: nat, range: (Word, Word), views ::
             Behind(t, m, i, conn, TypeRequest(range), views, 64)
             && pdu == NotifyRequest(Cccd(views, reportHandle, reportCccd)))
  }

  lemma AttWriteKept(t: Trace, u: Trace, base: nat, i: nat, conn: Word, reportHandle: Word, reportCccd: Word)
    requires t <= u && AttWrite(t, base, i, conn, reportHandle, reportCccd)
    ensures AttWrite(u, base, i, conn, reportHandle, reportCccd)
  {
    assert u[..i] == t[..i];
    forall m: nat, pdu, views, size: nat | Behind(t, m, i, conn, pdu, views, size)
      ensures Behind(u, m, i, conn, pdu, views, size)
    {
    }
  }

  // ---------- one wait ----------

  // Reading leaves the session record alone.
  predicate SameReport(s: Sys, s': Sys) {
    s'.conn == s.conn && s'.reportHandle == s.reportHandle && s'.reportCccd == s.reportCccd
  }

  // The wait for an ATT frame that began at s read at most one, as its last entry.
  ghost predicate AttAwaited(s: Sys, rx: Rx, size: nat) {
    var t := rx.s.trace;
    && SameReport(s, rx.s) && s.trace <= t && |rx.buf| == size && rx.len <= size
    && (forall k | |s.trace| <= k < |t| :: t[k].Got?)
    && (rx.rc == 0 ==> |t| > |s.trace| && AttRead(t[|t| - 1], s.conn)
                       && Shows(rx.buf[..rx.len], t[|t| - 1].frame.payload, size)
                       && Payloads(t, |s.trace|, s.conn) == [t[|t| - 1].frame.payload])
    && (rx.rc != 0 ==> Payloads(t, |s.trace|, s.conn) == [])
  }

  // The wait for an ATT frame is not decided by the next poll.
  predicate Passes(s: Sys) {
    var i := Poll(s);
    i.Elapsed? || i.Nothing? || (i.Received? && !i.frame.Disconnection? && !AttRead(Got(i.frame), s.conn))
  }

  lemma OnePass(s: Sys, buf: Data)
    requires Passes(s)
    ensures var i := Poll(s);
            && AwaitAcl(s, ATT_CID, buf) == AwaitAcl(i.s, ATT_CID, buf)
            && SameReport(s, i.s) && |i.s.script| < |s.script|
            && i.s.trace == s.trace + if i.Received? then [Got(i.frame)] else []
  {
  }

  lemma PayloadsOfOne(t: Trace, e: Entry, conn: Word)
    ensures Payloads(t, |t|, conn) == []
    ensures Payloads(t + [e], |t|, conn) == if AttRead(e, conn) then [e.frame.payload] else []
  {
    assert (t + [e])[..|t|] == t;
  }

  lemma AttEnds(s: Sys, buf: Data)
    requires !Passes(s)
    ensures AttAwaited(s, AwaitAcl(s, ATT_CID, buf), |buf|)
  {
    var i := Poll(s);
    if i.Received? {
      PayloadsOfOne(s.trace, Got(i.frame), s.conn);
    }
  }

  lemma AwaitedEarlier(s: Sys, s1: Sys, rx: Rx, size: nat)
    requires SameReport(s, s1) && AttAwaited(s1, rx, size)
    requires s1.trace == s.trace
             || (|s1.trace| == |s.trace| + 1 && s.trace <= s1.trace && s1.trace[|s.trace|].Got?
                 && !AttRead(s1.trace[|s.trace|], s.conn))
    ensures AttAwaited(s, rx, size)
  {
    if s1.trace != s.trace {
      var e := s1.trace[|s.trace|];
      assert s1.trace == s.trace + [e];
      PayloadsOfOne(s.trace, e, s.conn);
      PayloadsLater(s1.trace, rx.s.trace, |s.trace|, s.conn);
    }
  }

  lemma {:induction false} AwaitAtt(s: Sys, buf: Data)
    ensures AttAwaited(s, AwaitAcl(s, ATT_CID, buf), |buf|)
    decreases |s.script|
  {
    if Passes(s) {
      var i := Poll(s);
      OnePass(s, buf);
      AwaitAtt(i.s, buf);
      AwaitedEarlier(s, i.s, AwaitAcl(i.s, ATT_CID, buf), |buf|);
    } else {
      AttEnds(s, buf);
    }
  }

  // ---------- the characteristic loop ----------

  lemma {:induction false} CccdFirst(v: Data, views: seq<Data>, reportHandle: Word, reportCccd: Word)
    ensures Cccd([v] + views, reportHandle, reportCccd)
            == if Notifies(v) then Cccd(views, Le16(v[5], v[6]), (Le16(v[5], v[6]) + 1) % 0x1_0000)
               else Cccd(views, reportHandle, reportCccd)
    decreases |views|
  {
    var all := [v] + views;
    if views == [] {
      assert all[..0] == [];
    } else {
      assert all[..|all| - 1] == [v] + views[..|views| - 1];
      CccdFirst(v, views[..|views| - 1], reportHandle, reportCccd);
    }
  }

  // What the record says once the default is put in.
  function Recorded(s: Sys): Word {
    if s.reportHandle == 0 then 0x000F else s.reportCccd
  }

  // The loop that began at s read the payloads shown by these views, and nothing was written.
  ghost predicate Noted(s: Sys, s': Sys, views: seq<Data>) {
    && s.trace <= s'.trace && s'.conn == s.conn
    && (forall k | |s.trace| <= k < |s'.trace| :: s'.trace[k].Got?)
    && AllShown(views, Payloads(s'.trace, |s.trace|, s.conn), 64)
    && Recorded(s') == Cccd(views, s.reportHandle, s.reportCccd)
  }

  lemma LearnNotes(s: Sys, buf: Data, len: nat)
    requires |buf| == 64 && len <= 64
    ensures var v, t := buf[..len], Learn(s, buf, len);
            && t.trace == s.trace && t.conn == s.conn && t.script == s.script
            && (if Notifies(v) then
                  t.reportHandle == Le16(v[5], v[6]) && t.reportCccd == (Le16(v[5], v[6]) + 1) % 0x1_0000
                else t.reportHandle == s.reportHandle && t.reportCccd == s.reportCccd)
  {
  }

  // One frame seen, and the rest of the loop.
  lemma NotedEarlier(s: Sys, rx: Rx, s1: Sys, s': Sys, views: seq<Data>)
    requires AttAwaited(s, rx, 64) && rx.rc == 0 && s1 == Learn(rx.s, rx.buf, rx.len) && Noted(s1, s', views)
    ensures Noted(s, s', [rx.buf[..rx.len]] + views)
  {
    LearnNotes(rx.s, rx.buf, rx.len);
    CccdFirst(rx.buf[..rx.len], views, s.reportHandle, s.reportCccd);
    PayloadsLater(s1.trace, s'.trace, |s.trace|, s.conn);
  }

  lemma {:induction false} CharacteristicsNote(c: Config, s: Sys) returns (views: seq<Data>)
    ensures var flow := Characteristics(c, s);
            && (flow.Go? ==> Noted(s, flow.s, views))
            && s.trace <= flow.s.trace && (forall k | |s.trace| <= k < |flow.s.trace| :: flow.s.trace[k].Got?)
    decreases |s.script|
  {
    var buf := Buffer(c, s, 64);
    var rx := AwaitAcl(s, ATT_CID, buf);
    AwaitAclShrinks(s, ATT_CID, buf);
    AwaitAtt(s, buf);
    views := [];
    if rx.rc == 0 {
      var s1 := Learn(rx.s, rx.buf, rx.len);
      LearnNotes(rx.s, rx.buf, rx.len);
      if rx.buf[0] == ATT_ERROR_RSP {
        PayloadsOfNone(s1);
        NotedEarlier(s, rx, s1, s1, []);
        views := [rx.buf[..rx.len]] + [];
      } else {
        views := CharacteristicsNote(c, s1);
        var flow := Characteristics(c, s1);
        if flow.Go? { NotedEarlier(s, rx, s1, flow.s, views); }
        views := [rx.buf[..rx.len]] + views;
      }
    }
  }

  lemma PayloadsOfNone(s: Sys)
    ensures Noted(s, s, [])
  {
  }

  // ---------- the four writes ----------

  // From s on every PDU written is one of the four of the phase that began at `base`.
  ghost predicate RightSince(s: Sys, t: Trace, base: nat, conn: Word, reportHandle: Word, reportCccd: Word) {
    && s.trace <= t
    && forall i | |s.trace| <= i < |t| && t[i].Wrote? :: AttWrite(t, base, i, conn, reportHandle, reportCccd)
  }

  lemma RightFurther(s: Sys, s1: Sys, t: Trace, base: nat, conn: Word, reportHandle: Word, reportCccd: Word)
    requires RightSince(s, s1.trace, base, conn, reportHandle, reportCccd)
    requires RightSince(s1, t, base, conn, reportHandle, reportCccd)
    ensures RightSince(s, t, base, conn, reportHandle, reportCccd)
  {
    forall i | |s.trace| <= i < |s1.trace| && t[i].Wrote?
      ensures AttWrite(t, base, i, conn, reportHandle, reportCccd)
    {
      AttWriteKept(s1.trace, t, base, i, conn, reportHandle, reportCccd);
    }
  }

  // A right write, and reads behind it.
  lemma RightWrite(c: Config, s: Sys, pdu: Data, t: Trace, base: nat, reportHandle: Word, reportCccd: Word)
    requires var u := Write(c, s, AttPdu(s.conn, pdu)).s.trace;
             && u <= t && (forall k | |u| <= k < |t| :: t[k].Got?)
             && AttWrite(u, base, |s.trace|, s.conn, reportHandle, reportCccd)
    ensures RightSince(s, t, base, s.conn, reportHandle, reportCccd)
  {
    AttWriteKept(Write(c, s, AttPdu(s.conn, pdu)).s.trace, t, base, |s.trace|, s.conn, reportHandle, reportCccd);
  }

  // Between two steps: the PDU of the last step was written at m, and these views show what was read since.
  ghost predicate Between(s: Sys, m: nat, pdu: Data, views: seq<Data>, size: nat) {
    && m < |s.trace| && s.trace[m] == Wrote(AttPdu(s.conn, pdu), true)
    && (forall k | m < k < |s.trace| :: s.trace[k].Got?)
    && AllShown(views, Payloads(s.trace, m + 1, s.conn), size)
  }

  // The views of one wait.
  function Views(rx: Rx): seq<Data>
    requires rx.len <= |rx.buf|
  {
    if rx.rc == 0 then [rx.buf[..rx.len]] else []
  }

  lemma BetweenAfterWait(c: Config, s: Sys, pdu: Data, s1: Sys, rx: Rx, s': Sys, size: nat)
    requires Write(c, s, AttPdu(s.conn, pdu)) == Go(s1) && AttAwaited(s1, rx, size)
    requires s'.trace == rx.s.trace && s'.conn == rx.s.conn
    ensures Between(s', |s.trace|, pdu, Views(rx), size)
  {
  }

  lemma NextIsBehind(c: Config, s: Sys, m: nat, pdu: Data, views: seq<Data>, size: nat, next: Data)
    requires Between(s, m, pdu, views, size)
    ensures Behind(Write(c, s, AttPdu(s.conn, next)).s.trace, m, |s.trace|, s.conn, pdu, views, size)
  {
    var t := Write(c, s, AttPdu(s.conn, next)).s.trace;
    assert t[..|s.trace|] == s.trace;
  }

  lemma MtuStep(c: Config, s: Sys) returns (views: seq<Data>)
    ensures var flow := ExchangeMtu(c, s);
            && RightSince(s, flow.s.trace, |s.trace|, s.conn, s.reportHandle, s.reportCccd)
            && (flow.Go? ==> SameReport(s, flow.s) && Between(flow.s, |s.trace|, MTU_REQUEST, views, 32)
                             && flow.s.mtu == MtuOf(views))
  {
    var f := Write(c, s, AttPdu(s.conn, MTU_REQUEST));
    views := [];
    if f.Go? {
      var rx := AwaitAcl(f.s, ATT_CID, Buffer(c, f.s, 32));
      AwaitAtt(f.s, Buffer(c, f.s, 32));
      BetweenAfterWait(c, s, MTU_REQUEST, f.s, rx, ExchangeMtu(c, s).s, 32);
      views := Views(rx);
    }
    RightWrite(c, s, MTU_REQUEST, ExchangeMtu(c, s).s.trace, |s.trace|, s.reportHandle, s.reportCccd);
  }

  // The MTU the peer answered with, or the least there is.
  function MtuOf(views: seq<Data>): Word {
    if |views| == 1 && |views[0]| >= 3 && views[0][0] == 0x03 then Le16(views[0][1], views[0][2]) else 23
  }

  lemma ServiceStep(c: Config, s: Sys, base: nat, seen: seq<Data>) returns (views: seq<Data>)
    requires Between(s, base, MTU_REQUEST, seen, 32)
    ensures var (flow, start, end) := DiscoverService(c, s);
            && RightSince(s, flow.s.trace, base, s.conn, s.reportHandle, s.reportCccd)
            && (flow.Go? ==> SameReport(s, flow.s) && Between(flow.s, |s.trace|, GROUP_REQUEST, views, 64)
                             && (start, end) == ServiceRange(views))
  {
    var f := Write(c, s, AttPdu(s.conn, GROUP_REQUEST));
    NextIsBehind(c, s, base, MTU_REQUEST, seen, 32, GROUP_REQUEST);
    views := [];
    if f.Go? {
      var rx := AwaitAcl(f.s, ATT_CID, Buffer(c, f.s, 64));
      AwaitAtt(f.s, Buffer(c, f.s, 64));
      BetweenAfterWait(c, s, GROUP_REQUEST, f.s, rx, DiscoverService(c, s).0.s, 64);
      views := Views(rx);
    }
    RightWrite(c, s, GROUP_REQUEST, DiscoverService(c, s).0.s.trace, base, s.reportHandle, s.reportCccd);
  }

  lemma CharacteristicsStep(c: Config, s: Sys, base: nat, m: nat, seen: seq<Data>, start: Word, end: Word)
    returns (views: seq<Data>)
    requires Between(s, m, GROUP_REQUEST, seen, 64) && (start, end) == ServiceRange(seen)
    ensures var flow := DiscoverCharacteristics(c, s, start, end);
            && RightSince(s, flow.s.trace, base, s.conn, s.reportHandle, s.reportCccd)
            && (flow.Go? ==> flow.s.conn == s.conn && Between(flow.s, |s.trace|, TypeRequest((start, end)), views, 64)
                             && flow.s.reportCccd == Cccd(views, s.reportHandle, s.reportCccd))
  {
    var pdu := TypeRequest(ServiceRange(seen));
    var f := Write(c, s, AttPdu(s.conn, pdu));
    views := [];
    if f.Go? {
      views := CharacteristicsNote(c, f.s);
      var g := Characteristics(c, f.s);
      if g.Go? { BetweenAfterLoop(c, s, pdu, f.s, g.s, DiscoverCharacteristics(c, s, start, end).s, views); }
    }
    TypeWriteIsRight(c, s, base, m, seen);
    RightWrite(c, s, pdu, DiscoverCharacteristics(c, s, start, end).s.trace, base, s.reportHandle, s.reportCccd);
  }

  lemma TypeWriteIsRight(c: Config, s: Sys, base: nat, m: nat, seen: seq<Data>)
    requires Between(s, m, GROUP_REQUEST, seen, 64)
    ensures AttWrite(Write(c, s, AttPdu(s.conn, TypeRequest(ServiceRange(seen)))).s.trace, base, |s.trace|, s.conn,
                     s.reportHandle, s.reportCccd)
  {
    NextIsBehind(c, s, m, GROUP_REQUEST, seen, 64, TypeRequest(ServiceRange(seen)));
  }

  lemma BetweenAfterLoop(c: Config, s: Sys, pdu: Data, s1: Sys, s2: Sys, s': Sys, views: seq<Data>)
    requires Write(c, s, AttPdu(s.conn, pdu)) == Go(s1) && Noted(s1, s2, views)
    requires s'.trace == s2.trace && s'.conn == s2.conn && s'.reportCccd == Recorded(s2)
    ensures Between(s', |s.trace|, pdu, views, 64) && s'.reportCccd == Cccd(views, s.reportHandle, s.reportCccd)
  {
  }

  lemma NotifyStep(c: Config, s: Sys, base: nat, m: nat, range: (Word, Word), seen: seq<Data>,
                   reportHandle: Word, reportCccd: Word)
    requires Between(s, m, TypeRequest(range), seen, 64) && s.reportCccd == Cccd(seen, reportHandle, reportCccd)
    ensures var flow := EnableNotifications(c, s);
            && RightSince(s, flow.s.trace, base, s.conn, reportHandle, reportCccd)
            && (flow.Go? ==> |s.trace| < |flow.s.trace| &&
                             flow.s.trace[|s.trace|] == Wrote(AttPdu(s.conn, NotifyRequest(s.reportCccd)), true))
  {
    var pdu := NotifyRequest(s.reportCccd);
    var f := Write(c, s, AttPdu(s.conn, pdu));
    NextIsBehind(c, s, m, TypeRequest(range), seen, 64, pdu);
    if f.Go? { AwaitAtt(f.s, Buffer(c, f.s, 16)); }
    RightWrite(c, s, pdu, EnableNotifications(c, s).s.trace, base, reportHandle, reportCccd);
  }

  // ---------- the attribute phase ----------

  lemma {:induction false} ReportsOnlyReads(s: Sys)
    ensures var s' := Reports(s);
            s.trace <= s'.trace && forall k | |s.trace| <= k < |s'.trace| :: s'.trace[k].Got?
    decreases |s.script|
  {
    var i := Poll(s);
    if i.Elapsed? || i.Nothing? || i.TimeUp? || (i.Received? && !i.frame.Disconnection?) { ReportsOnlyReads(i.s); }
  }

  // The write that enables notifications was made.
  ghost predicate Enabled(t: Trace, conn: Word) {
    exists i: nat, cccd: Word :: i < |t| && t[i] == Wrote(AttPdu(conn, NotifyRequest(cccd)), true)
  }

  lemma EnabledLater(t: Trace, u: Trace, conn: Word)
    requires t <= u && Enabled(t, conn)
    ensures Enabled(u, conn)
  {
    var i: nat, cccd: Word :| i < |t| && t[i] == Wrote(AttPdu(conn, NotifyRequest(cccd)), true);
    assert u[i] == t[i];
  }

  /** The phase writes only these four PDUs, each in its place; if it is not cut short, the last of them too. */
  lemma AttributesWrite(c: Config, s: Sys)
    ensures var flow := Attributes(c, s);
            && RightSince(s, flow.s.trace, |s.trace|, s.conn, s.reportHandle, s.reportCccd)
            && (flow.Go? ==> Enabled(flow.s.trace, s.conn))
  {
    var base, h, d := |s.trace|, s.reportHandle, s.reportCccd;
    var views := MtuStep(c, s);
    var f1 := ExchangeMtu(c, s);
    if f1.Reconnect? { return; }
    views := ServiceStep(c, f1.s, base, views);
    var (f2, start, end) := DiscoverService(c, f1.s);
    RightFurther(s, f1.s, f2.s.trace, base, s.conn, h, d);
    if f2.Reconnect? { return; }
    var m := |f1.s.trace|;
    var range := ServiceRange(views);
    views := CharacteristicsStep(c, f2.s, base, m, views, start, end);
    var f3 := DiscoverCharacteristics(c, f2.s, start, end);
    RightFurther(s, f2.s, f3.s.trace, base, s.conn, h, d);
    if f3.Reconnect? { return; }
    NotifyStep(c, f3.s, base, |f2.s.trace|, range, views, h, d);
    var f4 := EnableNotifications(c, f3.s);
    RightFurther(s, f3.s, f4.s.trace, base, s.conn, h, d);
    if f4.Reconnect? { return; }
    ReportsOnlyReads(f4.s);
    var u := Reports(f4.s).trace;
    RightFurther(s, f4.s, u, base, s.conn, h, d);
    EnabledLater(f4.s.trace, u, s.conn);
    assert Attributes(c, s) == Go(Reports(f4.s));
  }

  // ---------- the session ----------

  lemma {:induction false} AwaitAclKeepsReport(s: Sys, cid: Word, buf: Data)
    ensures SameReport(s, AwaitAcl(s, cid, buf).s)
    decreases |s.script|
  {
    var i := Poll(s);
    if i.Elapsed? || i.Nothing? || i.Received? { AwaitAclKeepsReport(i.s, cid, buf); }
  }

  // The session record of the report survives from one session to the next.
  predicate KeepsReport(s: Sys, s': Sys) {
    s'.reportHandle == s.reportHandle && s'.reportCccd == s.reportCccd
  }

  lemma {:induction false} DrainKeepsReport(s: Sys, frames: nat)
    ensures KeepsReport(s, Drain(s, frames))
    decreases |s.script|
  {
    var i := Poll(s);
    if frames > 0 {
      if i.Elapsed? { DrainKeepsReport(i.s, frames); }
      if i.Received? { DrainKeepsReport(i.s, frames - 1); }
    }
  }

  lemma BeginKeepsReport(c: Config, s: Sys)
    ensures KeepsReport(s, Begin(c, s))
  {
    var start := s.(trace := [], conn := 0, mtu := 0, lastReason := 0);
    DrainKeepsReport(Write(c, start, CancelCreate).s, 5);
  }

  lemma {:induction false} AwaitConnectionKeepsReport(s: Sys)
    ensures KeepsReport(s, AwaitConnection(s).s)
    decreases |s.script|
  {
    var i := Poll(s);
    if !i.Stopped? { AwaitConnectionKeepsReport(i.s); }
  }

  lemma {:induction false} AwaitEncryptionKeepsReport(c: Config, s: Sys)
    ensures KeepsReport(s, AwaitEncryption(c, s).s)
    decreases |s.script|
  {
    if GoesOn(s) {
      WaitsOneStep(c, s);
      AwaitEncryptionKeepsReport(c, Onward(c, s));
    }
  }

  lemma NegotiateKeepsReport(c: Config, s: Sys)
    ensures KeepsReport(s, Negotiate(c, s).s)
  {
    var f := RequestSecurity(c, s);
    if f.Reconnect? { return; }
    var g := Write(c, f.s, SmpPdu(f.s.conn, PAIRING_REQUEST));
    if g.Reconnect? { return; }
    AwaitAclKeepsReport(g.s, SMP_CID, Buffer(c, g.s, 32));
    var rx := AwaitAcl(g.s, SMP_CID, Buffer(c, g.s, 32));
    AwaitAclKeepsReport(rx.s, SMP_CID, rx.buf);
  }

  lemma PairKeepsReport(c: Config, n: nat, s: Sys)
    ensures KeepsReport(s, Pair(c, n, s).s)
  {
    NegotiateKeepsReport(c, s);
    var f := Negotiate(c, s);
    if f.Reconnect? { return; }
    var s1 := f.s.(mrand := c.nonce(n));
    var s2 := Write(c, s1, SmpPdu(s1.conn, [SMP_CONFIRM] + OurConfirm(c, s1.pres, s1.mrand))).s;
    AwaitAclKeepsReport(s2, SMP_CID, Buffer(c, s2, 32));
    var g := Commit(c, n, f.s);
    if g.Reconnect? { return; }
    var s3 := Write(c, g.s, SmpPdu(g.s.conn, [SMP_RANDOM] + g.s.mrand)).s;
    AwaitAclKeepsReport(s3, SMP_CID, Buffer(c, s3, 32));
  }

  lemma SecureKeepsReport(c: Config, n: nat, s: Sys)
    ensures KeepsReport(s, Secure(c, n, s).s)
  {
    AwaitConnectionKeepsReport(Write(c, s, CreateConnection(c.peerType, c.peer, c.localType)).s);
    var f := Connect(c, s);
    if f.Reconnect? { return; }
    PairKeepsReport(c, n, f.s);
    var g := Pair(c, n, f.s);
    if g.Reconnect? { return; }
    AwaitEncryptionKeepsReport(c, Write(c, g.s, StartEncryption(g.s.conn, g.s.stk)).s);
  }

  ghost predicate NoAtt(t: Trace) {
    forall i | 0 <= i < |t| && t[i].Wrote? :: !t[i].packet.AttPdu?
  }

  lemma EncryptWritesNoAtt(c: Config, s: Sys)
    requires NoAtt(s.trace)
    ensures NoAtt(Encrypt(c, s).s.trace)
  {
    var f := Write(c, s, StartEncryption(s.conn, s.stk));
    assert NoAtt(f.s.trace);
    if f.Go? {
      KeyRequestsAnswered(c, f.s);
      AwaitEncryptionExtends(c, f.s);
      AnswersAreNoAtt(f.s.trace, AwaitEncryption(c, f.s).s.trace, f.s.stk);
    }
  }

  lemma AnswersAreNoAtt(t: Trace, u: Trace, key: Block)
    requires NoAtt(t) && t <= u && AllAnswered(u, |t|, key)
    ensures NoAtt(u)
  {
    forall i | 0 <= i < |u| && u[i].Wrote? ensures !u[i].packet.AttPdu? {
      if i < |t| { assert u[i] == t[i]; } else { assert Answers(u, i - 1, key); }
    }
  }

  lemma TalkIsNoAtt(s: Sys, s': Sys)
    requires NoAtt(s.trace) && Talks(s, s')
    ensures NoAtt(s'.trace)
  {
    assert forall i | 0 <= i < |s.trace| :: s'.trace[i] == s.trace[i];
  }

  lemma ConnectWritesNoAtt(c: Config, n: nat, s: Sys)
    requires Proper(c, n, s.trace) && NoAtt(s.trace) && forall x | x in s.trace :: !IsCreate(x)
    ensures NoAtt(Connect(c, s).s.trace)
  {
    ConnectTrace(c, n, s);
    var t := Connect(c, s).s.trace;
    assert forall i | 0 <= i < |s.trace| :: t[i] == s.trace[i];
  }

  // Before encryption no ATT PDU is written.
  lemma SecureWritesNoAtt(c: Config, n: nat, s: Sys)
    requires Proper(c, n, s.trace) && NoAtt(s.trace) && forall x | x in s.trace :: !IsCreate(x)
    ensures NoAtt(Secure(c, n, s).s.trace)
  {
    ConnectTrace(c, n, s);
    ConnectWritesNoAtt(c, n, s);
    var f := Connect(c, s);
    if f.Reconnect? { return; }
    var w := PairTrace(c, n, f.s);
    var g := Pair(c, n, f.s);
    TalkIsNoAtt(f.s, g.s);
    if g.Reconnect? { return; }
    EncryptWritesNoAtt(c, g.s);
  }

  // From `base` on, and only there, ATT PDUs are written, all of them right.
  ghost predicate AllRight(t: Trace, base: nat, conn: Word, reportHandle: Word, reportCccd: Word) {
    forall i | 0 <= i < |t| && t[i].Wrote? && t[i].packet.AttPdu? ::
      i >= base && AttWrite(t, base, i, conn, reportHandle, reportCccd)
  }

  lemma RightFromBase(s: Sys, t: Trace, reportHandle: Word, reportCccd: Word)
    requires NoAtt(s.trace) && RightSince(s, t, |s.trace|, s.conn, reportHandle, reportCccd)
    ensures AllRight(t, |s.trace|, s.conn, reportHandle, reportCccd)
  {
    assert forall i | 0 <= i < |s.trace| :: t[i] == s.trace[i];
  }

  /** In every session, against any peer, each ATT PDU written is one of the four, with the bytes the frames read before
      it demand; the record the session started with stands in where no characteristic can notify. */
  lemma SessionAttWrites(c: Config, n: nat, s: Sys) returns (base: nat, conn: Word)
    ensures AllRight(Session(c, n, s).trace, base, conn, s.reportHandle, s.reportCccd)
  {
    var s0 := Begin(c, s);
    BeginTrace(c, n, s);
    BeginKeepsReport(c, s);
    SecureWritesNoAtt(c, n, s0);
    SecureKeepsReport(c, n, s0);
    var f := Secure(c, n, s0);
    base, conn := |f.s.trace|, f.s.conn;
    if f.Go? {
      var s1 := f.s.(didCancel := false);
      AttributesWrite(c, s1);
      RightFromBase(s1, Attributes(c, s1).s.trace, s.reportHandle, s.reportCccd);
    }
  }
}
