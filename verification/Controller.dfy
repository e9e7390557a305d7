/** The Bluetooth controller behind the user channel, as far as connection creation goes:
    a queue of unprocessed commands, a "create pending" flag and a queue of unread events. */
module Controller {
  import opened Bytes
  import opened Transport

  const CREATE_OPCODE: Word := 0x200d
  const CANCEL_OPCODE: Word := 0x200e
  const SUCCESS: Byte := 0x00
  const UNKNOWN_CONNECTION: Byte := 0x02
  const CONNECTION_EXISTS: Byte := 0x0b
  const COMMAND_DISALLOWED: Byte := 0x0c

  /** What the host writes. */
  datatype Packet =
    | CreateConnection(peerType: Byte, peer: Address, ownType: Byte)
    | CancelCreate
    | StartEncryption(handle: Word, key: Block)
    | LtkReply(handle: Word, key: Block)
    | SmpPdu(handle: Word, pdu: Data)
    | AttPdu(handle: Word, pdu: Data)

  /** `log` keeps every event ever raised, read or not. */
  datatype State = State(unprocessed: seq<Packet>, creating: bool, unread: seq<Frame>, log: seq<Frame>)
  {
    function Raise(f: Frame, creating: bool): State {
      State(unprocessed, creating, unread + [f], log + [f])
    }

    function Write(p: Packet): State {
      this.(unprocessed := unprocessed + [p])
    }
  }

  datatype Action =
    | Process(accept: bool)                                             // execute the oldest command
    | Finish(status: Byte, handle: Word, peerType: Byte, peer: Address) // end a pending create
    | Emit(frame: Frame)                                                // anything else, from the peer or the radio

  // Frames only connection creation and its cancellation give rise to.
  predicate Reserved(f: Frame) {
    || f.ConnectionComplete?
    || (f.CommandComplete? && f.opcode == CANCEL_OPCODE)
    || (f.CommandStatus? && f.opcode == CREATE_OPCODE)
  }

  const Cancelled := ConnectionComplete(UNKNOWN_CONNECTION, 0, 0, [0, 0, 0, 0, 0, 0])

  function Execute(c: State, p: Packet, accept: bool): State {
    match p
    case CreateConnection(_, _, _) =>
      if c.creating then c.Raise(CommandStatus(COMMAND_DISALLOWED, CREATE_OPCODE), true)
      else if accept then c.Raise(CommandStatus(SUCCESS, CREATE_OPCODE), true)
      else c.Raise(CommandStatus(CONNECTION_EXISTS, CREATE_OPCODE), false)
    case CancelCreate =>
      if c.creating then c.Raise(CommandComplete(CANCEL_OPCODE, SUCCESS), true).Raise(Cancelled, false)
      else c.Raise(CommandComplete(CANCEL_OPCODE, COMMAND_DISALLOWED), false)
    case _ => c
  }

  // An action that is not possible now changes nothing.
  function Act(c: State, a: Action): State {
    match a
    case Process(accept) =>
      if c.unprocessed == [] then c
      else Execute(c.(unprocessed := c.unprocessed[1..]), c.unprocessed[0], accept)
    case Finish(status, handle, peerType, peer) =>
      if c.creating then c.Raise(ConnectionComplete(status, handle, peerType, peer), false) else c
    case Emit(f) => if Reserved(f) then c else c.Raise(f, c.creating)
  }

  function Read(c: State): State
    requires c.unread != []
  {
    c.(unread := c.unread[1..])
  }

  // ---------- the invariants of connection creation ----------

  function Creates(ps: seq<Packet>): nat {
    if ps == [] then 0 else Creates(ps[..|ps| - 1]) + if ps[|ps| - 1].CreateConnection? then 1 else 0
  }

  predicate Success(f: Frame) {
    f.ConnectionComplete? && f.status == SUCCESS
  }

  predicate CancelReply(f: Frame) {
    f.CommandComplete? && f.opcode == CANCEL_OPCODE
  }

  function Successes(fs: seq<Frame>): nat {
    if fs == [] then 0 else Successes(fs[..|fs| - 1]) + if Success(fs[|fs| - 1]) then 1 else 0
  }

  lemma {:induction false} CreatesHead(ps: seq<Packet>)
    requires ps != []
    ensures Creates(ps) == Creates(ps[1..]) + if ps[0].CreateConnection? then 1 else 0
  {
    if |ps| > 1 {
      CreatesHead(ps[..|ps| - 1]);
      assert ps[..|ps| - 1][1..] == ps[1..][..|ps| - 2];
    }
  }

  lemma {:induction false} SuccessesHead(fs: seq<Frame>)
    requires fs != []
    ensures Successes(fs) == Successes(fs[1..]) + if Success(fs[0]) then 1 else 0
  {
    if |fs| > 1 {
      SuccessesHead(fs[..|fs| - 1]);
      assert fs[..|fs| - 1][1..] == fs[1..][..|fs| - 2];
    }
  }

  // How many connections may still come out of what was written and what is unread.
  function Load(c: State): nat {
    Creates(c.unprocessed) + (if c.creating then 1 else 0) + Successes(c.unread)
  }

  ghost predicate NoCancel(c: State) {
    CancelCreate !in c.unprocessed && forall f | f in c.unread :: !CancelReply(f)
  }

  /** The promise of the user-channel transport: no create is ever turned down as disallowed. */
  ghost predicate NeverDisallowed(c: State) {
    CommandStatus(COMMAND_DISALLOWED, CREATE_OPCODE) !in c.log
  }

  /** At most one connection can still come out, and no cancellation is under way. */
  ghost predicate AtMostOne(c: State) {
    NeverDisallowed(c) && NoCancel(c) && Load(c) <= 1
  }

  /** Nothing is pending: a create may be written. */
  ghost predicate Idle(c: State) {
    NeverDisallowed(c) && NoCancel(c) && Load(c) == 0
  }

  /** A cancellation is under way: either it is the last unprocessed command, or its reply is unread
      at position `at` and no connection can come out of anything behind that reply. */
  ghost predicate Cancelling(c: State) {
    && NeverDisallowed(c)
    && ((&& c.unprocessed != [] && c.unprocessed[|c.unprocessed| - 1] == CancelCreate
         && CancelCreate !in c.unprocessed[..|c.unprocessed| - 1]
         && Load(c) <= 1
         && forall f | f in c.unread :: !CancelReply(f))
        || (exists at: nat :: CancelledAt(c, at)))
  }

  ghost predicate CancelledAt(c: State, at: nat) {
    && at < |c.unread|
    && CancelReply(c.unread[at])
    && c.unprocessed == [] && !c.creating
    && (forall i | 0 <= i < |c.unread| && i != at :: !CancelReply(c.unread[i]))
    && (forall i | at < i < |c.unread| :: !Success(c.unread[i]))
  }

  // Executing a command other than a cancel moves its connection from the queue to the controller, or drops it.
  lemma ExecuteKeepsLoad(c: State, accept: bool)
    requires c.unprocessed != [] && c.unprocessed[0] != CancelCreate && NeverDisallowed(c) && Load(c) <= 1
    ensures var d := Act(c, Process(accept));
            && d.unprocessed == c.unprocessed[1..] && NeverDisallowed(d) && Load(d) <= Load(c)
            && forall f | f in d.unread :: f in c.unread || !CancelReply(f)
  {
    CreatesHead(c.unprocessed);
  }

  lemma ActKeepsLoad(c: State, a: Action)
    requires AtMostOne(c)
    ensures AtMostOne(Act(c, a)) && Load(Act(c, a)) <= Load(c)
  {
    if a.Process? && c.unprocessed != [] {
      assert c.unprocessed[0] in c.unprocessed;
      ExecuteKeepsLoad(c, a.accept);
    }
  }

  lemma ReadKeepsLoad(c: State)
    requires AtMostOne(c) && c.unread != []
    ensures AtMostOne(Read(c))
    ensures Load(Read(c)) == Load(c) - if Success(c.unread[0]) then 1 else 0
  {
    SuccessesHead(c.unread);
  }

  lemma {:induction false} NoSuccess(fs: seq<Frame>)
    requires forall i | 0 <= i < |fs| :: !Success(fs[i])
    ensures Successes(fs) == 0
  {
    if fs != [] {
      NoSuccess(fs[..|fs| - 1]);
    }
  }

  // Behind its reply nothing is left that could be turned down or succeed.
  lemma ActAfterReply(c: State, a: Action, at: nat)
    requires NeverDisallowed(c) && CancelledAt(c, at)
    ensures NeverDisallowed(Act(c, a)) && CancelledAt(Act(c, a), at)
  {
  }

  lemma CancelReplies(c: State, accept: bool)
    requires c.unprocessed == [CancelCreate] && forall f | f in c.unread :: !CancelReply(f)
    ensures CancelledAt(Act(c, Process(accept)), |c.unread|)
  {
    var d := Act(c, Process(accept));
    var reply := CommandComplete(CANCEL_OPCODE, if c.creating then SUCCESS else COMMAND_DISALLOWED);
    assert d.unprocessed == [] && !d.creating;
    assert d.unread == c.unread + [reply] + if c.creating then [Cancelled] else [];
    forall i | 0 <= i < |d.unread| && i != |c.unread| ensures !CancelReply(d.unread[i]) {
      if i < |c.unread| { assert d.unread[i] in c.unread; }
    }
  }

  lemma ProcessKeepsCancelling(c: State, accept: bool)
    requires Cancelling(c) && c.unprocessed != []
    ensures Cancelling(Act(c, Process(accept)))
  {
    var ps, n := c.unprocessed, |c.unprocessed| - 1;
    if n == 0 {
      assert ps == [CancelCreate];
      CancelReplies(c, accept);
      assert NeverDisallowed(Act(c, Process(accept)));
    } else {
      assert ps[0] == ps[..n][0] && ps[..n][0] in ps[..n];
      ExecuteKeepsLoad(c, accept);
      assert ps[1..][..n - 1] == ps[..n][1..];
    }
  }

  lemma ActKeepsCancelling(c: State, a: Action)
    requires Cancelling(c)
    ensures Cancelling(Act(c, a))
  {
    if at: nat :| CancelledAt(c, at) {
      ActAfterReply(c, a, at);
    } else if a.Process? {
      ProcessKeepsCancelling(c, a.accept);
    }
  }

  /** Reading the reply to a cancellation leaves nothing pending; reading anything else leaves it under way. */
  lemma ReadWhileCancelling(c: State)
    requires Cancelling(c) && c.unread != []
    ensures if CancelReply(c.unread[0]) then Idle(Read(c)) else Cancelling(Read(c))
  {
    if at: nat :| CancelledAt(c, at) {
      if at == 0 {
        NoSuccess(c.unread[1..]);
      } else {
        assert CancelledAt(Read(c), at - 1);
      }
    } else {
      SuccessesHead(c.unread);
    }
  }
}
