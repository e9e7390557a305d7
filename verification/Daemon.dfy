/** sw2d_final.c in its own form: a session record updated in place by nested read loops. Each method
    is proved to compute the function of the same purpose in Host, so the results of CreateSafety and
    TraceSafety hold of these loops. */
module Daemon {
  import opened Bytes
  import opened Pairing
  import opened Transport
  import opened Controller
  import opened Host
  import CreateSafety
  import TraceSafety

  /** What one call of hci_user_read_frame yields, as its callers see it. */
  datatype Event = Stop | Tick | None | Timeout | Some(frame: Frame)

  class Daemon {
    const c: Config
    // the socket, the world behind it, and what passed through it
    var script: seq<Choice>
    var ctl: State
    var writes: nat
    var missed: bool
    var trace: seq<Entry>
    // session_t
    var didCancel: bool
    var lastReason: Byte
    var conn: Word
    var pres: PairingPdu
    var mrand: Block
    var sconfirm: Block
    var srand: Block
    var stk: Block
    var mtu: Word
    var reportHandle: Word
    var reportCccd: Word

    function Abs(): Sys
      reads this
    {
      Sys(script, ctl, writes, missed, trace, didCancel, lastReason, conn,
          pres, mrand, sconfirm, srand, stk, mtu, reportHandle, reportCccd)
    }

    constructor (c: Config, s: Sys)
      ensures Abs() == s && this.c == c
    {
      this.c := c;
      script, ctl, writes, missed, trace := s.script, s.ctl, s.writes, s.missed, s.trace;
      didCancel, lastReason, conn := s.didCancel, s.lastReason, s.conn;
      pres, mrand, sconfirm, srand, stk := s.pres, s.mrand, s.sconfirm, s.srand, s.stk;
      mtu, reportHandle, reportCccd := s.mtu, s.reportHandle, s.reportCccd;
    }

    // hci_user_send_cmd and hci_user_acl_send: -1 when the write fails.
    method Send(p: Packet) returns (rc: int)
      modifies this
      ensures Abs() == Write(c, old(Abs()), p).s
      ensures rc == if Write(c, old(Abs()), p).Go? then 0 else -1
    {
      rc := if c.fails(writes) then -1 else 0;
      trace := trace + [Wrote(p, rc == 0)];
      writes := writes + 1;
      if rc == 0 { ctl := ctl.Write(p); }
    }

    method ReadFrame() returns (e: Event)
      modifies this
      ensures var i := Poll(old(Abs()));
              match e
              case Stop => i.Stopped? && Abs() == old(Abs())
              case Tick => i == Elapsed(Abs())
              case None => i == Nothing(Abs())
              case Timeout => i == TimeUp(Abs())
              case Some(f) => i == Received(f, Abs())
    {
      if script == [] { return Stop; }
      var choice := script[0];
      script := script[1..];
      match choice
      case Turn(a) =>
        ctl := Act(ctl, a);
        e := Tick;
      case Quiet => e := None;
      case Expire => e := Timeout;
      case Deliver =>
        if ctl.unread == [] {
          e := None;
        } else {
          e := Some(ctl.unread[0]);
          trace := trace + [Got(ctl.unread[0])];
          ctl := Read(ctl);
        }
    }

    method CancelConnect() returns (rc: int)
      modifies this
      ensures Abs() == Cancel(c, old(Abs()))
      ensures rc == if Write(c, old(Abs()), CancelCreate).Go? then 0 else -1
    {
      rc := Send(CancelCreate);
      if rc < 0 {
        missed := true;
      } else {
        DrainReply(5);
      }
    }

    // At most so many frames are read in search of the reply.
    method DrainReply(frames: nat)
      modifies this
      ensures Abs() == Drain(old(Abs()), frames)
    {
      var i, drained := 0, 0;
      ghost var goal := Drain(Abs(), frames);
      while i < frames && drained < 1
        invariant 0 <= i <= frames && 0 <= drained <= 1
        invariant goal == if drained == 1 then Abs() else Drain(Abs(), frames - i)
        decreases 1 - drained, |script|
      {
        var e := ReadFrame();
        match e
        case Tick =>
        case Some(f) =>
          i := i + 1;
          if CancelReply(f) { drained := drained + 1; }
        case _ =>
          missed := true;
          return;
      }
      if drained == 0 { missed := true; }
    }

    // rx_await(EVT_LE_META, EVT_LE_CONN_COMPLETE): -2 exactly when it ended by reading a disconnection
    method AwaitConnectionComplete() returns (rc: int)
      modifies this
      ensures Abs() == AwaitConnection(old(Abs())).s
      ensures rc in {0, -1, -2} && (rc == 0 <==> AwaitConnection(old(Abs())).Go?)
      ensures rc == -2 <==> |trace| > |old(trace)| && TraceSafety.IsLoss(trace[|trace| - 1])
    {
      ghost var start := Abs();
      while true
        invariant AwaitConnection(start) == AwaitConnection(Abs())
        invariant |trace| >= |old(trace)| && forall i | |old(trace)| <= i < |trace| :: !TraceSafety.IsLoss(trace[i])
        decreases |script|
      {
        ghost var before := trace;
        var e := ReadFrame();
        match e
        case Stop => return -1;
        case Timeout => return -1;
        case Some(f) =>
          assert trace == before + [Got(f)];
          if f.Disconnection? {
            lastReason := f.reason;
            return -2;
          }
          if f.ConnectionComplete? {
            if f.status != SUCCESS { return -1; }
            conn := f.handle;
            return 0;
          }
        case _ =>
      }
    }

    // rx_await_acl; the buffer keeps its contents unless a payload that fits is copied over them.
    method AwaitAclData(cid: Word, buf: array<Byte>) returns (rc: int, len: nat)
      modifies this, buf
      ensures AwaitAcl(old(Abs()), cid, old(buf[..])) == Rx(rc, buf[..], len, Abs())
    {
      len := buf.Length;
      ghost var start := Abs();
      while true
        invariant len == buf.Length && buf[..] == old(buf[..])
        invariant AwaitAcl(start, cid, buf[..]) == AwaitAcl(Abs(), cid, buf[..]) && conn == start.conn
        decreases |script|
      {
        var e := ReadFrame();
        match e
        case Stop => return -1, len;
        case Timeout => return -1, len;
        case Some(f) =>
          if f.Disconnection? {
            lastReason := f.reason;
            return -2, len;
          }
          if f.Acl? && f.handle == conn && f.cid == cid {
            if |f.payload| <= len {
              forall k | 0 <= k < |f.payload| { buf[k] := f.payload[k]; }
              len := |f.payload|;
              assert buf[..] == f.payload + old(buf[..])[len..];
            }
            return 0, len;
          }
        case _ =>
      }
    }

    method NewBuffer(size: nat) returns (buf: array<Byte>)
      ensures fresh(buf) && buf[..] == Buffer(c, Abs(), size)
    {
      var b := Buffer(c, Abs(), size);
      buf := new Byte[size](i requires 0 <= i < size => b[i]);
    }

    method AwaitResponse() returns (ok: bool)
      modifies this
      ensures Abs() == AwaitPairingResponse(c, old(Abs())).s
      ensures ok == AwaitPairingResponse(c, old(Abs())).Go?
    {
      var buf := NewBuffer(32);
      var rc, len := AwaitAclData(SMP_CID, buf);
      if rc == -2 { return false; }
      if rc != 0 || len < 7 || buf[0] != SMP_PAIRING_RSP {
        if len >= 2 && buf[0] == SMP_PAIRING_FAILED { return false; }
        if len >= 2 && buf[0] == SMP_SECURITY_REQUEST {
          rc, len := AwaitAclData(SMP_CID, buf);
          if rc != 0 || len < 7 || buf[0] != SMP_PAIRING_RSP { return false; }
        } else {
          return false;
        }
      }
      pres := buf[..7];
      return true;
    }

    // The two waits for a 17-byte PDU.
    method Await17(opcode: Byte) returns (ok: bool, value: Block)
      modifies this
      ensures (if ok then Go(Abs()) else Reconnect(Abs()), value) == AwaitValue(c, old(Abs()), opcode)
    {
      var buf := NewBuffer(32);
      var rc, len := AwaitAclData(SMP_CID, buf);
      if rc == -2 { return false, TK; }
      if rc != 0 || len != 17 || buf[0] != opcode { return false, TK; }
      return true, buf[1..17];
    }

    method AskForPairing() returns (ok: bool)
      modifies this
      ensures Abs() == Negotiate(c, old(Abs())).s
      ensures ok == Negotiate(c, old(Abs())).Go?
    {
      if c.securityRequest {
        var rc := Send(SmpPdu(conn, [SMP_SECURITY_REQUEST, 0x01]));
        if rc < 0 { return false; }
      }
      var rc := Send(SmpPdu(conn, PAIRING_REQUEST));
      if rc < 0 { return false; }
      ok := AwaitResponse();
    }

    method SendConfirm(n: nat) returns (ok: bool)
      modifies this
      ensures Abs() == Commit(c, n, old(Abs())).s
      ensures ok == Commit(c, n, old(Abs())).Go?
    {
      mrand := c.nonce(n);
      var rc := Send(SmpPdu(conn, [SMP_CONFIRM] + OurConfirm(c, pres, mrand)));
      if rc < 0 { return false; }
      var value;
      ok, value := Await17(SMP_CONFIRM);
      if !ok { return; }
      sconfirm := value;
    }

    method SendRandom() returns (ok: bool)
      modifies this
      ensures Abs() == Reveal(c, old(Abs())).s
      ensures ok == Reveal(c, old(Abs())).Go?
    {
      var rc := Send(SmpPdu(conn, [SMP_RANDOM] + mrand));
      if rc < 0 { return false; }
      var value;
      ok, value := Await17(SMP_RANDOM);
      if !ok { return; }
      srand := value;
      if PeerConfirm(c, pres, srand) != sconfirm { return false; }
      stk := S1(c.e, TK, mrand, srand);
    }

    method PairWithPeer(n: nat) returns (ok: bool)
      modifies this
      ensures Abs() == Pair(c, n, old(Abs())).s
      ensures ok == Pair(c, n, old(Abs())).Go?
    {
      ok := AskForPairing();
      if !ok { return; }
      ok := SendConfirm(n);
      if !ok { return; }
      ok := SendRandom();
    }

    method StartAndAwaitEncryption() returns (encrypted: bool)
      modifies this
      ensures Abs() == Encrypt(c, old(Abs())).s
      ensures encrypted == Encrypt(c, old(Abs())).Go?
    {
      var rc := Send(StartEncryption(conn, stk));
      if rc < 0 { return false; }
      encrypted := false;
      ghost var start := Abs();
      while !encrypted
        invariant if encrypted then AwaitEncryption(c, start) == Go(Abs())
                  else AwaitEncryption(c, start) == AwaitEncryption(c, Abs())
        decreases !encrypted, |script|
      {
        var e := ReadFrame();
        match e
        case Stop => return false;
        case Timeout => return false;
        case Some(f) =>
          if f.Disconnection? { return false; }
          if f.EncryptionChange? && f.status == SUCCESS && f.handle == conn {
            encrypted := true;
          }
          if f.LtkRequest? {
            var ignored := Send(LtkReply(f.handle, stk));
          }
        case _ =>
      }
    }

    method LearnFrom(buf: array<Byte>, len: nat)
      requires buf.Length == 64
      modifies this
      ensures Abs() == Learn(old(Abs()), buf[..], len)
    {
      if buf[0] == ATT_READ_BY_TYPE_RSP && len >= 7 {
        var props := buf[4];
        if (props / 0x10) % 2 == 1 {
          var value: int := Le16(buf[5], buf[6]);
          reportHandle := value;
          reportCccd := (value + 1) % 0x1_0000;
        }
      }
    }

    // The characteristic loop ends with an error response, its deadline or the connection.
    method DiscoverReport() returns (ok: bool)
      modifies this
      ensures Abs() == Characteristics(c, old(Abs())).s
      ensures ok == Characteristics(c, old(Abs())).Go?
    {
      ghost var start := Abs();
      while true
        invariant Characteristics(c, start) == Characteristics(c, Abs())
        decreases |script|
      {
        ghost var s := Abs();
        var buf := NewBuffer(64);
        AwaitAclShrinks(s, ATT_CID, buf[..]);
        var rc, len := AwaitAclData(ATT_CID, buf);
        ghost var rx := AwaitAcl(s, ATT_CID, Buffer(c, s, 64));
        assert rx == Rx(rc, buf[..], len, Abs());
        if rc == -2 { return false; }
        if rc != 0 { return true; }
        LearnFrom(buf, len);
        assert Abs() == Learn(rx.s, rx.buf, rx.len);
        if buf[0] == ATT_ERROR_RSP { return true; }
      }
    }

    method NegotiateMtu() returns (ok: bool)
      modifies this
      ensures Abs() == ExchangeMtu(c, old(Abs())).s
      ensures ok == ExchangeMtu(c, old(Abs())).Go?
    {
      var rc := Send(AttPdu(conn, [ATT_MTU_REQ, 0xFF, 0x00]));
      if rc < 0 { return false; }
      var buf := NewBuffer(32);
      var len;
      rc, len := AwaitAclData(ATT_CID, buf);
      mtu := if rc == 0 && len >= 3 && buf[0] == ATT_MTU_RSP then Le16(buf[1], buf[2]) else 23;
      return true;
    }

    method FindService() returns (ok: bool, start: Word, end: Word)
      modifies this
      ensures (if ok then Go(Abs()) else Reconnect(Abs()), start, end) == DiscoverService(c, old(Abs()))
    {
      var rc := Send(AttPdu(conn, [ATT_READ_BY_GROUP_REQ, 0x01, 0x00, 0xFF, 0xFF, 0x00, 0x28]));
      if rc < 0 { return false, 0, 0; }
      var buf := NewBuffer(64);
      var len;
      rc, len := AwaitAclData(ATT_CID, buf);
      start, end := 0x0001, 0xFFFF;
      if rc == 0 && len >= 6 && buf[0] == ATT_READ_BY_GROUP_RSP {
        start, end := Le16(buf[2], buf[3]), Le16(buf[4], buf[5]);
      }
      return true, start, end;
    }

    method FindReport(start: Word, end: Word) returns (ok: bool)
      modifies this
      ensures Abs() == DiscoverCharacteristics(c, old(Abs()), start, end).s
      ensures ok == DiscoverCharacteristics(c, old(Abs()), start, end).Go?
    {
      var rc := Send(AttPdu(conn, [ATT_READ_BY_TYPE_REQ] + Put16(start) + Put16(end) + [0x03, 0x28]));
      if rc < 0 { return false; }
      ok := DiscoverReport();
      if ok && reportHandle == 0 {
        reportHandle, reportCccd := 0x000E, 0x000F;
      }
    }

    method Subscribe() returns (ok: bool)
      modifies this
      ensures Abs() == EnableNotifications(c, old(Abs())).s
      ensures ok == EnableNotifications(c, old(Abs())).Go?
    {
      var rc := Send(AttPdu(conn, [ATT_WRITE_REQ] + Put16(reportCccd) + [0x01, 0x00]));
      if rc < 0 { return false; }
      var buf := NewBuffer(16);
      var len;
      rc, len := AwaitAclData(ATT_CID, buf);
      return true;
    }

    method ReceiveReports()
      modifies this
      ensures Abs() == Reports(old(Abs()))
    {
      ghost var start := Abs();
      while true
        invariant Reports(start) == Reports(Abs())
        decreases |script|
      {
        var e := ReadFrame();
        match e
        case Stop => return;
        case Some(f) =>
          if f.Disconnection? {
            lastReason := f.reason;
            return;
          }
        case _ =>
      }
    }

    method UseAttributes() returns (ok: bool)
      modifies this
      ensures Abs() == Attributes(c, old(Abs())).s
      ensures ok == Attributes(c, old(Abs())).Go?
    {
      ok := NegotiateMtu();
      if !ok { return; }
      var start, end;
      ok, start, end := FindService();
      if !ok { return; }
      ok := FindReport(start, end);
      if !ok { return; }
      ok := Subscribe();
      if !ok { return; }
      ReceiveReports();
    }

    method ConnectAndSecure(n: nat) returns (ok: bool)
      modifies this
      ensures Abs() == Secure(c, n, old(Abs())).s
      ensures ok == Secure(c, n, old(Abs())).Go?
    {
      ghost var s := Abs();
      var rc := Send(CreateConnection(c.peerType, c.peer, c.localType));
      if rc < 0 { return false; }
      rc := AwaitConnectionComplete();
      if rc != 0 { return false; }
      assert Connect(c, s) == Go(Abs());
      ok := PairWithPeer(n);
      if !ok { return; }
      ok := StartAndAwaitEncryption();
    }

    method StartSession()
      modifies this
      ensures Abs() == Begin(c, old(Abs()))
    {
      trace := [];
      conn, mtu, lastReason := 0, 0, 0;
      if didCancel || lastReason != 0 {
        var ignored := CancelConnect();
      }
      didCancel := true;
    }

    /** One iteration of the reconnect loop, up to the label `reconnect`. */
    method RunSession(n: nat)
      modifies this
      ensures Abs() == Session(c, n, old(Abs()))
    {
      StartSession();
      var ok := ConnectAndSecure(n);
      if !ok { return; }
      didCancel := false;
      ok := UseAttributes();
      if !ok { return; }
      didCancel := false;
    }

    // One turn of the reconnect loop.
    method NextSession(n: nat, k: nat, traces: seq<seq<Entry>>) returns (more: seq<seq<Entry>>)
      requires k > 0 && script != []
      modifies this
      ensures Continued(traces, Run(c, n, k, old(Abs()))) == Continued(more, Run(c, n + 1, k - 1, Abs()))
      ensures |more| == |traces| + 1
    {
      SessionAdds(c, n, k, Abs(), traces);
      RunSession(n);
      more := traces + [trace];
    }

    method Loop(k: nat) returns (traces: seq<seq<Entry>>)
      modifies this
      ensures (traces, Abs()) == Run(c, 0, k, old(Abs()))
    {
      ghost var goal := Run(c, 0, k, Abs());
      traces := [];
      var n := 0;
      assert [] + goal.0 == goal.0;
      while n < k && script != []
        invariant n == |traces| <= k
        invariant goal == Continued(traces, Run(c, n, k - n, Abs()))
        decreases k - n
      {
        traces := NextSession(n, k - n, traces);
        n := n + 1;
      }
      assert traces + [] == traces;
    }

    /** The reconnect loop. However long it runs, its sessions are proper, each cancels exactly when the
        one before it ended unencrypted, and if no cancellation went unanswered, or no session started
        exposed, no create was ever turned down as disallowed. */
    method RunSessions(k: nat) returns (traces: seq<seq<Entry>>)
      requires Booted(Abs())
      modifies this
      ensures (traces, Abs()) == Run(c, 0, k, old(Abs()))
      ensures !missed ==> NeverDisallowed(ctl)
      ensures (forall m | 0 <= m < k :: CreateSafety.StartsUnexposed(c, CreateSafety.Before(c, 0, m, old(Abs()))))
              ==> NeverDisallowed(ctl)
      ensures forall i | 0 <= i < |traces| :: TraceSafety.Proper(c, i, traces[i])
      ensures forall i | 0 <= i < |traces| ::
                TraceSafety.Cancels(traces[i]) <==> i > 0 && !TraceSafety.Encrypted(traces[i - 1])
    {
      TraceSafety.EverySessionIsProper(c, 0, k, Abs());
      CreateSafety.BootedRunIsSafe(c, k, Abs());
      if !Run(c, 0, k, Abs()).1.missed { CreateSafety.NoCreateIsDisallowed(c, k, Abs()); }
      traces := Loop(k);
    }
  }

  // The runs of sessions made before others.
  function Continued(traces: seq<seq<Entry>>, r: (seq<seq<Entry>>, Sys)): (seq<seq<Entry>>, Sys) {
    (traces + r.0, r.1)
  }

  lemma SessionAdds(c: Config, n: nat, k: nat, s: Sys, traces: seq<seq<Entry>>)
    requires k > 0 && s.script != []
    ensures var s1 := Session(c, n, s);
            Continued(traces, Run(c, n, k, s)) == Continued(traces + [s1.trace], Run(c, n + 1, k - 1, s1))
  {
    var s1 := Session(c, n, s);
    var rest := Run(c, n + 1, k - 1, s1).0;
    assert (traces + [s1.trace]) + rest == traces + ([s1.trace] + rest);
  }
}
