/** When the controller can come to turn a create down. */
module Exposure {
  import opened Bytes
  import opened Transport
  import opened Controller

  // Whether an attempt can be pending once a command is executed.
  function Then(p: Packet, pending: bool): bool {
    if p.CreateConnection? then true else if p.CancelCreate? then false else pending
  }

  function PendingAfter(ps: seq<Packet>, pending: bool): bool {
    if ps == [] then pending else PendingAfter(ps[1..], Then(ps[0], pending))
  }

  // Some create stands where an attempt can be pending: a pending one or an earlier create, with no cancel between.
  function MayClash(ps: seq<Packet>, pending: bool): bool {
    ps != [] && ((ps[0].CreateConnection? && pending) || MayClash(ps[1..], Then(ps[0], pending)))
  }

  predicate MayPend(c: State) {
    PendingAfter(c.unprocessed, c.creating)
  }

  /** No create was turned down, and none of those written can be. */
  ghost predicate Safe(c: State) {
    NeverDisallowed(c) && !MayClash(c.unprocessed, c.creating)
  }

  lemma {:induction false} PendingGrows(ps: seq<Packet>)
    ensures PendingAfter(ps, false) ==> PendingAfter(ps, true)
    ensures MayClash(ps, false) ==> MayClash(ps, true)
  {
    if ps != [] { PendingGrows(ps[1..]); }
  }

  lemma {:induction false} WriteExposes(ps: seq<Packet>, p: Packet, pending: bool)
    ensures MayClash(ps + [p], pending) <==> MayClash(ps, pending) || (p.CreateConnection? && PendingAfter(ps, pending))
    ensures PendingAfter(ps + [p], pending) == Then(p, PendingAfter(ps, pending))
  {
    if ps == [] {
      assert [p][1..] == [];
    } else {
      WriteExposes(ps[1..], p, Then(ps[0], pending));
      assert (ps + [p])[1..] == ps[1..] + [p];
    }
  }

  lemma ActKeepsSafe(c: State, a: Action)
    ensures Safe(c) ==> Safe(Act(c, a))
    ensures MayPend(Act(c, a)) ==> MayPend(c)
  {
    PendingGrows(c.unprocessed);
    if c.unprocessed != [] { PendingGrows(c.unprocessed[1..]); }
  }

  function ActAll(c: State, actions: seq<Action>): State
    decreases |actions|
  {
    if actions == [] then c else ActAll(Act(c, actions[0]), actions[1..])
  }

  lemma {:induction false} ActAllKeepsSafe(c: State, actions: seq<Action>)
    requires Safe(c)
    ensures Safe(ActAll(c, actions))
    decreases |actions|
  {
    if actions != [] {
      ActKeepsSafe(c, actions[0]);
      ActAllKeepsSafe(Act(c, actions[0]), actions[1..]);
    }
  }

  lemma {:induction false} DisallowedStays(c: State, actions: seq<Action>)
    requires !NeverDisallowed(c)
    ensures !NeverDisallowed(ActAll(c, actions))
    decreases |actions|
  {
    if actions != [] { DisallowedStays(Act(c, actions[0]), actions[1..]); }
  }

  // Executing every command, and accepting every create that can be.
  function Execution(n: nat): (actions: seq<Action>)
    ensures |actions| == n && forall i | 0 <= i < n :: actions[i] == Process(true)
  {
    if n == 0 then [] else [Process(true)] + Execution(n - 1)
  }

  lemma {:induction false} ExecutionDisallows(c: State)
    requires MayClash(c.unprocessed, c.creating)
    ensures !NeverDisallowed(ActAll(c, Execution(|c.unprocessed|)))
    decreases |c.unprocessed|
  {
    var d := Act(c, Process(true));
    var n := |c.unprocessed|;
    assert Execution(n) == [Process(true)] + Execution(n - 1) && Execution(n)[1..] == Execution(n - 1);
    if c.unprocessed[0].CreateConnection? && c.creating {
      assert d.log[|d.log| - 1] == CommandStatus(COMMAND_DISALLOWED, CREATE_OPCODE);
      DisallowedStays(d, Execution(n - 1));
    } else {
      assert d.unprocessed == c.unprocessed[1..] && d.creating == Then(c.unprocessed[0], c.creating);
      ExecutionDisallows(d);
    }
  }

  /** The controller can come to turn a create down exactly when one of those written stands where an attempt can be
      pending. */
  lemma CanDisallowExactly(c: State)
    requires NeverDisallowed(c)
    ensures (exists actions :: !NeverDisallowed(ActAll(c, actions))) <==> MayClash(c.unprocessed, c.creating)
  {
    if MayClash(c.unprocessed, c.creating) {
      ExecutionDisallows(c);
    } else {
      forall actions ensures NeverDisallowed(ActAll(c, actions)) { ActAllKeepsSafe(c, actions); }
    }
  }
}
