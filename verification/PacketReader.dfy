/** sw2d.c's readers and writers in their own form: loops over short reads and writes of a file
    descriptor, filling packet buffers in place. What they return depends on the stream alone, not on
    how it was cut. */
module PacketReader {
  import opened Bytes
  import opened PacketStream
  import T = Transport

  /** How one read or write system call ends: interrupted, failed, or with at most n bytes. */
  datatype Io = Interrupted | Broken | Upto(n: nat)

  // A buffer with a piece copied in at a position.
  function Placed(buf: Data, at: nat, piece: Data): Data
    requires at + |piece| <= |buf|
  {
    buf[..at] + piece + buf[at + |piece|..]
  }

  /** A connected descriptor. `plan` and `polls` are finite; once they are used up calls do all they are asked. */
  class Descriptor {
    var input: Data
    var output: Data
    var plan: seq<Io>
    var polls: seq<Ready>

    constructor (input: Data, plan: seq<Io>, polls: seq<Ready>)
      ensures this.input == input && this.output == [] && this.plan == plan && this.polls == polls
    {
      this.input, this.output, this.plan, this.polls := input, [], plan, polls;
    }

    /** No call fails outright. */
    predicate Sound()
      reads this
    {
      Broken !in plan
    }

    // read(2): -1 and EINTR, -1 and another error, 0 at the end of the stream, or some bytes.
    method Read(buf: array<Byte>, at: nat, len: nat) returns (n: int, eintr: bool)
      requires 0 < len && at + len <= buf.Length
      modifies this`input, this`plan, buf
      ensures n < 0 ==> input == old(input) && buf[..] == old(buf[..])
      ensures n < 0 ==> |plan| < |old(plan)|
      ensures n < 0 && old(Sound()) ==> eintr
      ensures n >= 0 ==> n <= len && n <= |old(input)| && (n == 0 ==> old(input) == [])
      ensures n >= 0 ==> input == old(input)[n..]
      ensures n >= 0 ==> buf[..] == Placed(old(buf[..]), at, old(input)[..n])
      ensures old(Sound()) ==> Sound()
    {
      var most := len;
      if plan != [] {
        var io := plan[0];
        plan := plan[1..];
        if io.Interrupted? { return -1, true; }
        if io.Broken? { return -1, false; }
        if io.n < most { most := if io.n == 0 then 1 else io.n; }
      }
      var m := if |input| < most then |input| else most;
      forall i | 0 <= i < m { buf[at + i] := input[i]; }
      input := input[m..];
      n, eintr := m, false;
    }

    // write(2): may write nothing at all.
    method Write(data: Data) returns (n: int, eintr: bool)
      requires data != []
      modifies this`output, this`plan
      ensures n < 0 ==> output == old(output) && (old(Sound()) ==> eintr)
      ensures n >= 0 ==> n <= |data| && output == old(output) + data[..n]
      ensures n <= 0 ==> |plan| < |old(plan)|
      ensures old(Sound()) ==> Sound()
    {
      var most := |data|;
      if plan != [] {
        var io := plan[0];
        plan := plan[1..];
        if io.Interrupted? { return -1, true; }
        if io.Broken? { return -1, false; }
        if io.n < most { most := io.n; }
      }
      output := output + data[..most];
      n, eintr := most, false;
    }

    method Poll() returns (r: Ready)
      modifies this`polls
      ensures r == Head(old(polls)) && polls == Tail(old(polls))
    {
      r := Head(polls);
      polls := Tail(polls);
    }
  }

  // One read of read_full, after `got` bytes of the stream: -1 unless interrupted, 0 at its end.
  method ReadMore(fd: Descriptor, buf: array<Byte>, at: nat, got: nat, len: nat, ghost start: Data, ghost stream: Data)
    returns (n: int, eintr: bool)
    requires got < len && at + len <= buf.Length == |start| && got <= |stream|
    requires fd.input == stream[got..] && buf[..] == Placed(start, at, stream[..got])
    modifies fd`input, fd`plan, buf
    ensures n < 0 ==> fd.input == stream[got..] && buf[..] == Placed(start, at, stream[..got])
    ensures n < 0 ==> |fd.plan| < |old(fd.plan)|
    ensures n < 0 && old(fd.Sound()) ==> eintr
    ensures n >= 0 ==> got + n <= len && got + n <= |stream| && (n == 0 ==> got == |stream|)
    ensures n >= 0 ==> fd.input == stream[got + n..] && buf[..] == Placed(start, at, stream[..got + n])
    ensures old(fd.Sound()) ==> fd.Sound()
  {
    ghost var before := buf[..];
    n, eintr := fd.Read(buf, at + got, len - got);
    if n >= 0 {
      AppendPiece(before, start, stream, at, got, n);
      assert stream[got..][n..] == stream[got + n..];
    }
  }

  /** read_full: short reads and interruptions do not show. */
  method ReadFull(fd: Descriptor, buf: array<Byte>, at: nat, len: nat) returns (done: int)
    requires at + len <= buf.Length
    modifies fd`input, fd`plan, buf
    ensures old(fd.Sound()) ==> done >= 0 && fd.Sound()
    ensures done >= 0 ==> done == if |old(fd.input)| < len then |old(fd.input)| else len
    ensures done >= 0 ==> fd.input == old(fd.input)[done..]
    ensures done >= 0 ==> buf[..] == Placed(old(buf[..]), at, old(fd.input)[..done])
  {
    ghost var start, stream := buf[..], fd.input;
    var got: nat := 0;
    assert start == Placed(start, at, stream[..0]);
    while got < len
      invariant got <= len && got <= |stream|
      invariant fd.input == stream[got..] && buf[..] == Placed(start, at, stream[..got])
      invariant old(fd.Sound()) ==> fd.Sound()
      decreases len - got, |fd.plan|
    {
      var n, eintr := ReadMore(fd, buf, at, got, len, start, stream);
      if n < 0 {
        if eintr { continue; }
        return -1;
      }
      if n == 0 { break; }
      got := got + n;
    }
    return got;
  }

  // Copying the next n bytes of a stream behind the first `got` copies the first got + n.
  lemma AppendPiece(before: Data, start: Data, stream: Data, at: nat, got: nat, n: nat)
    requires at + got + n <= |start| && got + n <= |stream|
    requires before == Placed(start, at, stream[..got])
    ensures Placed(before, at + got, stream[got..][..n]) == Placed(start, at, stream[..got + n])
  {
    assert stream[..got + n] == stream[..got] + stream[got..][..n];
    assert before[..at + got] == start[..at] + stream[..got];
    assert before[at + got + n..] == start[at + got + n..];
  }

  /** write_full: everything is written, in order, however the writes are cut. */
  method WriteFull(fd: Descriptor, buf: array<Byte>, len: nat) returns (done: int)
    requires len <= buf.Length
    modifies fd`output, fd`plan
    ensures old(fd.Sound()) ==> done == len && fd.Sound()
    ensures done >= 0 ==> done == len && fd.output == old(fd.output) + buf[..len]
    ensures old(fd.output) <= fd.output <= old(fd.output) + buf[..len]
  {
    var sent: nat := 0;
    while sent < len
      invariant sent <= len
      invariant fd.output == old(fd.output) + buf[..sent]
      invariant old(fd.Sound()) ==> fd.Sound()
      decreases len - sent, |fd.plan|
    {
      var piece := buf[sent..len];
      var n, eintr := fd.Write(piece);
      if n < 0 {
        if eintr { continue; }
        return -1;
      }
      assert piece[..n] == buf[sent..sent + n];
      assert buf[..sent + n] == buf[..sent] + buf[sent..sent + n];
      sent := sent + n;
    }
    return sent;
  }

  /** hci_read_packet: -1 if a read fails outright; otherwise the packet, the return value and what is left of the
      stream are those of the stream alone. */
  method HciReadPacket(fd: Descriptor, buf: array<Byte>) returns (n: int)
    modifies fd`input, fd`plan, fd`polls, buf
    ensures fd.polls == Tail(old(fd.polls))
    ensures Head(old(fd.polls)) != HasData ==>
              fd.input == old(fd.input) && n == if Head(old(fd.polls)).TimedOut? then 0 else -1
    ensures old(fd.Sound()) ==> fd.Sound()
    ensures (old(fd.Sound()) || n != -1) && Head(old(fd.polls)).HasData? ==>
              var (m, p, rest) := Packet(old(fd.input), buf.Length);
              && n == m && fd.input == rest && (n > 0 ==> n <= buf.Length && buf[..n] == p)
  {
    var pr := fd.Poll();
    if pr.TimedOut? { return 0; }
    if pr.Failed? { return -1; }
    if buf.Length < 1 { return -1; }
    ghost var stream := fd.input;
    var got := ReadFull(fd, buf, 0, 1);
    if got != 1 { return -1; }
    if buf[0] == T.EVENT_PKT {
      if buf.Length < 3 { return -1; }
      n := ReadHeaderAndBody(fd, buf, 3, stream);
      return;
    }
    if buf[0] == T.ACLDATA_PKT {
      if buf.Length < 5 { return -1; }
      n := ReadHeaderAndBody(fd, buf, 5, stream);
      return;
    }
    return 1;
  }

  // The two arms of hci_read_packet after the packet type: the rest of a header of 3 or 5 bytes, then as
  // many bytes as it announces.
  method ReadHeaderAndBody(fd: Descriptor, buf: array<Byte>, header: nat, ghost stream: Data) returns (n: int)
    requires header in {3, 5} && header <= buf.Length
    requires |stream| >= 1 && fd.input == stream[1..] && buf[0] == stream[0]
    modifies fd`input, fd`plan, buf
    ensures old(fd.Sound()) ==> fd.Sound()
    ensures old(fd.Sound()) || n != -1 ==>
              if |stream| < header then n == -1 && fd.input == []
              else
                var length := if header == 3 then stream[2] else Le16(stream[3], stream[4]);
                var (m, p, rest) := Body(stream, header, length, buf.Length);
                n == m && fd.input == rest && (n > 0 ==> n <= buf.Length && buf[..n] == p)
  {
    ghost var first := buf[..];
    var got := ReadFull(fd, buf, 1, header - 1);
    if got != header - 1 { return -1; }
    assert buf[..header] == [stream[0]] + stream[1..][..header - 1] == stream[..header];
    assert forall i | 0 <= i < header :: buf[i] == buf[..header][i];
    assert fd.input == stream[header..];
    var length := if header == 3 then buf[2] else Le16(buf[3], buf[4]);
    if header + length > buf.Length { return -1; }
    ghost var second := buf[..];
    got := ReadFull(fd, buf, header, length);
    if got != length { return -1; }
    assert buf[..header + length] == stream[..header] + stream[header..][..length] == stream[..header + length];
    assert fd.input == stream[header..][length..];
    return header + length;
  }

  lemma NextPacket(packets: seq<Data>, input: Data, size: nat)
    requires Packet(input, size).0 > 0
    ensures var (n, p, rest) := Packet(input, size);
            packets + ReadAll(input, size) == packets + [p] + ReadAll(rest, size)
  {
    var (n, p, rest) := Packet(input, size);
    assert packets + ([p] + ReadAll(rest, size)) == (packets + [p]) + ReadAll(rest, size);
  }

  /** Successive calls until one fails, with time-outs in between: however the stream of packets that fit the buffer is
      cut into short reads and interrupted, they return exactly those packets in order. */
  method ReadPackets(fd: Descriptor, buf: array<Byte>, ghost ps: seq<Data>) returns (packets: seq<Data>)
    requires fd.Sound() && Failed !in fd.polls
    requires fd.input == Concat(ps) && forall p | p in ps :: IsPacket(p, buf.Length)
    modifies fd`input, fd`plan, fd`polls, buf
    ensures packets == ps
  {
    packets := [];
    ReadAllOfConcat(ps, buf.Length);
    while true
      invariant fd.Sound() && Failed !in fd.polls
      invariant ps == packets + ReadAll(fd.input, buf.Length)
      decreases |fd.input|, |fd.polls|
    {
      ghost var input, polls := fd.input, fd.polls;
      var n := HciReadPacket(fd, buf);
      if n < 0 { return; }
      if n > 0 {
        NextPacket(packets, input, buf.Length);
        packets := packets + [buf[..n]];
      }
    }
  }

  /** acl_send_att */
  method AclSendAtt(fd: Descriptor, handle: Word, att: array<Byte>, len: nat) returns (rc: int)
    requires len <= att.Length
    modifies fd`output, fd`plan
    ensures len > 1024 ==> rc == -1 && fd.output == old(fd.output)
    ensures rc == 0 ==> len <= 1024 && fd.output == old(fd.output) + AclFrame(handle, att[..len])
    ensures len <= 1024 ==> old(fd.output) <= fd.output <= old(fd.output) + AclFrame(handle, att[..len])
    ensures rc in {0, -1} && (len <= 1024 && old(fd.Sound()) ==> rc == 0)
    ensures old(fd.Sound()) ==> fd.Sound()
  {
    if len > 1024 { return -1; }
    var pkt := new Byte[5 + 4 + 1024](_ => 0);
    T.FillDatagram(pkt, handle, ATT_CID, att, len);
    var done := WriteFull(fd, pkt, 9 + len);
    return if done < 0 then -1 else 0;
  }

  /** read_acl_att: -1 if a read fails outright; otherwise what the stream and the polls decide. */
  method ReadAclAtt(fd: Descriptor, handle: Word, att: array<Byte>) returns (n: int)
    modifies fd`input, fd`plan, fd`polls, att
    ensures old(fd.Sound()) ==> fd.Sound()
    ensures old(fd.Sound()) || n != -1 ==>
            var a := ReadAtt(old(fd.input), old(fd.polls), handle, att.Length);
            && n == a.n && fd.input == a.input && fd.polls == a.polls
            && (n > 0 ==> n <= att.Length && att[..n] == a.att)
  {
    var pkt := new Byte[PACKET_BUFFER](_ => 0);
    while true
      invariant old(fd.Sound()) ==> fd.Sound()
      invariant ReadAtt(old(fd.input), old(fd.polls), handle, att.Length)
             == ReadAtt(fd.input, fd.polls, handle, att.Length)
      decreases |fd.input|
    {
      ghost var input, polls := fd.input, fd.polls;
      n := HciReadPacket(fd, pkt);
      if n <= 0 { return; }
      ghost var (m, p, rest) := Packet(input, PACKET_BUFFER);
      assert p == pkt[..n] && |p| == n && fd.input == rest;
      assert forall i | 0 <= i < n :: p[i] == pkt[i];
      ghost var verdict := Judge(p, handle, att.Length);
      if pkt[0] == T.EVENT_PKT && n >= 3 {
        if pkt[1] == T.EVT_DISCONN_COMPLETE && n >= 7 { return -2; }
        assert verdict == Skip;
        continue;
      }
      if pkt[0] != T.ACLDATA_PKT || n < 9 {
        assert verdict == Skip;
        continue;
      }
      var h := Handle12(Le16(pkt[1], pkt[2]));
      var acl, l2, cid := Le16(pkt[3], pkt[4]), Le16(pkt[5], pkt[6]), Le16(pkt[7], pkt[8]);
      if h != handle || cid != ATT_CID || acl + 5 > n || l2 + 4 > acl || l2 > att.Length {
        assert verdict == Skip;
        continue;
      }
      forall i | 0 <= i < l2 { att[i] := pkt[9 + i]; }
      assert att[..l2] == p[9..9 + l2] && verdict == Payload(p[9..9 + l2]);
      return l2;
    }
  }

  /** att_request_response: sends the request, then skips notifications; -1 if a write or a read fails outright. What
      the caller expects only matters for what is logged. */
  method AttRequestResponse(fd: Descriptor, handle: Word, req: array<Byte>, len: nat, rsp: array<Byte>) returns (n: int)
    requires len <= req.Length
    modifies fd, rsp
    ensures old(fd.Sound()) ==> fd.Sound()
    ensures len > 1024 ==> n == -1 && fd.output == old(fd.output)
    ensures len <= 1024 ==> old(fd.output) <= fd.output <= old(fd.output) + AclFrame(handle, old(req[..len]))
    ensures len <= 1024 && (old(fd.Sound()) || n != -1) ==>
              var a := Response(old(fd.input), old(fd.polls), handle, rsp.Length);
              && fd.output == old(fd.output) + AclFrame(handle, old(req[..len]))
              && n == a.n && fd.input == a.input && fd.polls == a.polls
              && (n > 0 ==> n <= rsp.Length && rsp[..n] == a.att)
  {
    var rc := AclSendAtt(fd, handle, req, len);
    if rc < 0 { return -1; }
    while true
      invariant (old(fd.Sound()) ==> fd.Sound()) && fd.output == old(fd.output) + AclFrame(handle, old(req[..len]))
      invariant Response(old(fd.input), old(fd.polls), handle, rsp.Length)
             == Response(fd.input, fd.polls, handle, rsp.Length)
      decreases |fd.input|
    {
      ReadAttShrinks(fd.input, fd.polls, handle, rsp.Length);
      n := ReadAclAtt(fd, handle, rsp);
      if n <= 0 { return if n == 0 then -1 else n; }
      assert rsp[0] == rsp[..n][0];
      if rsp[0] == ATT_HANDLE_NOTIFY { continue; }
      return;
    }
  }
}
