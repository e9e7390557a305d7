/** The bridge with a well-behaved GATT client and security manager under it. */
module BridgeWorld {
  import opened Bytes
  import opened Wrappers
  import opened Bridge

  /** What the layers below know: whether there is a link, whether Just Works was requested on it and
      encryption or pairing then reported, the request not yet completed and whether it was answered.
      `starts` counts the discoveries started on this link, `clash` tells that a request was ever made
      while another was outstanding. */
  datatype World = World(link: bool, justWorks: bool, released: bool, outstanding: Option<Request>, answered: bool,
                         starts: nat, clash: bool)

  const QUIET := World(false, false, false, None, false, 0, false)

  datatype Joint = Joint(g: Globals, w: World)

  /** One link at a time; one Just Works request per link; a completion only for an outstanding request;
      one characteristic at most per discovery, of the UUID asked for. For the direct build, besides, the stack
      reports its state only while there is no link. */
  predicate Possible(variant: Variant, w: World, e: Event) {
    match e
    case BtstackState(_) => variant.WithSmp? || !w.link
    case LeConnectionComplete(_, _) => !w.link
    case DisconnectionComplete => w.link
    case JustWorks => w.link && !w.justWorks
    case QueryComplete(_) => w.outstanding.Some?
    case CharacteristicResult(c) =>
      w.outstanding.Some? && w.outstanding.value.Discover? && !w.answered
      && c.uuid == w.outstanding.value.uuid && c.valueHandle != 0
    case _ => true
  }

  // What the event itself changes below: requests die with the link.
  function Below(w: World, e: Event): World {
    match e
    case LeConnectionComplete(_, status) =>
      if status == SUCCESS then World(true, false, false, None, false, 0, w.clash) else w
    case DisconnectionComplete => World(false, false, false, None, false, 0, w.clash)
    case JustWorks => w.(justWorks := true)
    case EncryptionChange(_) => w.(released := w.released || w.justWorks)
    case PairingComplete(_) => w.(released := w.released || w.justWorks)
    case CharacteristicResult(_) => w.(answered := true)
    case QueryComplete(_) => w.(outstanding := None)
    case _ => w
  }

  function Accept(w: World, r: Request, start: bool): World {
    w.(outstanding := Some(r), answered := false, clash := w.clash || w.outstanding.Some?,
       starts := w.starts + if start then 1 else 0)
  }

  function StepBoth(variant: Variant, j: Joint, e: Event): Joint {
    if !Possible(variant, j.w, e) then j
    else
      var g, w := Step(variant, j.g, e), Below(j.w, e);
      if |g.requests| <= |j.g.requests| then Joint(g, w)
      else
        var r := g.requests[|g.requests| - 1];
        Joint(g, Accept(w, r, r.Discover? && !e.QueryComplete?))
  }

  function RunBoth(variant: Variant, events: seq<Event>): Joint {
    if events == [] then Joint(INITIAL, QUIET)
    else StepBoth(variant, RunBoth(variant, events[..|events| - 1]), events[|events| - 1])
  }

  // ---------- the invariant ----------

  predicate OwnUuids(g: Globals) {
    && (g.input.valueHandle != 0 ==> g.input.uuid == UUID_INPUT_REPORT)
    && (g.command.valueHandle != 0 ==> g.command.uuid == UUID_COMMAND_WRITE)
  }

  // The request that can be outstanding in each state of an undisturbed attribute phase.
  predicate Working(g: Globals, w: World) {
    OwnUuids(g) &&
    match g.appState
    case CharDiscovering =>
      (w.outstanding.Some? ==>
         || (&& w.outstanding.value == Discover(g.conn, UUID_INPUT_REPORT)
             && (w.answered <==> g.input.valueHandle != 0) && g.command.valueHandle == 0)
         || (&& w.outstanding.value == Discover(g.conn, UUID_COMMAND_WRITE)
             && g.input.valueHandle != 0 && (w.answered <==> g.command.valueHandle != 0)))
    case Pairing =>
      && 0 <= g.pairStep < 4 && g.input.valueHandle != 0 && g.command.valueHandle != 0
      && (w.outstanding.Some? ==>
            w.outstanding.value == Bridge.Write(g.conn, g.command.valueHandle, PairPayload(g.pairStep)))
    case Notifying =>
      && g.input.valueHandle != 0 && g.command.valueHandle != 0
      && (w.outstanding.Some? ==> w.outstanding.value == Configure(g.conn, g.input))
    case Ready => w.outstanding.None?
    case _ => false
  }

  // While the security manager is waited for, or the state was thrown back, a discovery may still be under way.
  predicate Paused(g: Globals, w: World) {
    OwnUuids(g) &&
    (w.outstanding.Some? && w.outstanding.value.Discover? ==>
       || (w.outstanding.value.uuid == UUID_INPUT_REPORT
           && (w.answered <==> g.input.valueHandle != 0) && g.command.valueHandle == 0)
       || (w.outstanding.value.uuid == UUID_COMMAND_WRITE
           && g.input.valueHandle != 0 && (w.answered <==> g.command.valueHandle != 0)))
  }

  predicate Untouched(g: Globals, w: World) {
    g.input == EMPTY && g.command == EMPTY && w.outstanding.None?
  }

  /** Discovery has started as often as the build and the events seen on this link say; with the security manager a
      report of the stack's state in between can keep it from starting. */
  predicate StartsCounted(variant: Variant, w: World) {
    w.link ==> if variant.Direct? then w.starts == 1 + (if w.released then 1 else 0)
               else w.starts <= if w.released then 1 else 0
  }

  // Thrown back to scanning on a link, by a report of the stack's state.
  predicate ThrownBack(variant: Variant, g: Globals) {
    variant.WithSmp? && g.appState in {Scanning, Connecting}
  }

  predicate Orderly(variant: Variant, j: Joint) {
    var g, w := j.g, j.w;
    && (w.released ==> w.justWorks)
    && (!w.link ==> g.appState in {Scanning, Connecting} && Untouched(g, w) && !w.justWorks)
    && StartsCounted(variant, w)
    && (w.link && w.justWorks && !w.released ==> g.appState == WaitEncryption || ThrownBack(variant, g))
    && (w.link && variant.WithSmp? && !w.released ==>
          Untouched(g, w) && (!w.justWorks ==> g.appState == Connected || ThrownBack(variant, g)))
    && (w.link && w.released ==>
          g.appState in {CharDiscovering, Pairing, Notifying, Ready} || ThrownBack(variant, g))
    && (variant.Direct? && w.link && !w.justWorks ==> Working(g, w))
    && (variant.WithSmp? ==> !w.clash)
    && (!w.clash ==> OwnUuids(g))
    && (w.link && w.released && !w.clash && !ThrownBack(variant, g) ==> Working(g, w))
    && (w.link && w.justWorks && !w.clash ==> Paused(g, w))
  }

  // Events of the GATT client, and the others.
  lemma CompletionKeepsOrder(variant: Variant, j: Joint, e: Event)
    requires Orderly(variant, j) && e.QueryComplete?
    ensures Orderly(variant, StepBoth(variant, j, e))
  {
    if j.w.outstanding.Some? && j.g.appState in {CharDiscovering, Pairing, Notifying} {
      assert j.w.link;
    }
  }

  lemma ResultKeepsOrder(variant: Variant, j: Joint, e: Event)
    requires Orderly(variant, j) && e.CharacteristicResult?
    ensures Orderly(variant, StepBoth(variant, j, e))
  {
  }

  lemma LinkKeepsOrder(variant: Variant, j: Joint, e: Event)
    requires Orderly(variant, j) && !e.QueryComplete? && !e.CharacteristicResult?
    ensures Orderly(variant, StepBoth(variant, j, e))
  {
  }

  lemma StepKeepsOrder(variant: Variant, j: Joint, e: Event)
    requires Orderly(variant, j)
    ensures Orderly(variant, StepBoth(variant, j, e))
  {
    if e.QueryComplete? {
      CompletionKeepsOrder(variant, j, e);
    } else if e.CharacteristicResult? {
      ResultKeepsOrder(variant, j, e);
    } else {
      LinkKeepsOrder(variant, j, e);
    }
  }

  lemma {:induction false} RunKeepsOrder(variant: Variant, events: seq<Event>)
    ensures Orderly(variant, RunBoth(variant, events))
  {
    if events != [] {
      RunKeepsOrder(variant, events[..|events| - 1]);
      StepKeepsOrder(variant, RunBoth(variant, events[..|events| - 1]), events[|events| - 1]);
    }
  }

  /** With the security manager: discovery starts at most once per link though two events can start it, at
      most one request is ever outstanding. In both builds the slots hold the characteristics of their own UUIDs
      as long as no request was made over another. */
  lemma OneRequestAtATime(variant: Variant, events: seq<Event>)
    ensures var j := RunBoth(variant, events);
            && (variant.WithSmp? ==> !j.w.clash && (j.w.link ==> j.w.starts <= 1))
            && (!j.w.clash ==> OwnUuids(j.g))
  {
    RunKeepsOrder(variant, events);
  }

  // Discovery is about to start over an outstanding request.
  predicate ClashPoint(variant: Variant, j: Joint, e: Event) {
    && variant.Direct? && (e.EncryptionChange? || e.PairingComplete?)
    && j.w.link && j.w.justWorks && !j.w.released && j.w.outstanding.Some?
  }

  lemma StepClashesExactly(variant: Variant, j: Joint, e: Event)
    requires Orderly(variant, j) && !j.w.clash
    ensures StepBoth(variant, j, e).w.clash <==> ClashPoint(variant, j, e)
  {
  }

  lemma ClashStays(variant: Variant, j: Joint, e: Event)
    requires j.w.clash
    ensures StepBoth(variant, j, e).w.clash
  {
  }

  predicate ClashAt(variant: Variant, events: seq<Event>, i: nat) {
    i < |events| && ClashPoint(variant, RunBoth(variant, events[..i]), events[i])
  }

  lemma ClashAtPrefix(variant: Variant, events: seq<Event>, n: nat, i: nat)
    requires i < n <= |events|
    ensures ClashAt(variant, events[..n], i) == ClashAt(variant, events, i)
  {
    assert events[..n][..i] == events[..i];
  }

  // One event more: a clash before it, or one at it.
  lemma LastClash(variant: Variant, events: seq<Event>)
    requires events != []
    ensures RunBoth(variant, events).w.clash
            <==> RunBoth(variant, events[..|events| - 1]).w.clash || ClashAt(variant, events, |events| - 1)
  {
    var j, e := RunBoth(variant, events[..|events| - 1]), events[|events| - 1];
    RunKeepsOrder(variant, events[..|events| - 1]);
    assert RunBoth(variant, events) == StepBoth(variant, j, e);
    if j.w.clash { ClashStays(variant, j, e); } else { StepClashesExactly(variant, j, e); }
  }

  /** A request is made over an outstanding one exactly when, in the direct build, encryption or pairing is reported
      for the first time after a Just Works request while a request is outstanding. */
  lemma {:induction false} ClashesExactly(variant: Variant, events: seq<Event>)
    ensures RunBoth(variant, events).w.clash <==> exists i: nat :: ClashAt(variant, events, i)
  {
    if events != [] {
      var n := |events| - 1;
      ClashesExactly(variant, events[..n]);
      LastClash(variant, events);
      forall i: nat | i < n ensures ClashAt(variant, events[..n], i) == ClashAt(variant, events, i) {
        ClashAtPrefix(variant, events, n, i);
      }
      if i: nat :| ClashAt(variant, events[..n], i) {
        assert ClashAt(variant, events, i);
      } else {
        assert forall i: nat :: i < n ==> !ClashAt(variant, events, i);
      }
    }
  }

  /** In either build discovery has started at most once on the link exactly when the build waits for the
      security manager, or no report of encryption or pairing has followed a Just Works request. */
  lemma DiscoveryStartsOnce(variant: Variant, events: seq<Event>)
    ensures var w := RunBoth(variant, events).w;
            w.link ==> (w.starts <= 1 <==> variant.WithSmp? || !w.released)
  {
    RunKeepsOrder(variant, events);
  }

  /** Each further write of the pair sequence answers the successful completion of the write before it, in both
      builds, as long as no request was made over another. */
  lemma PairWriteFollowsCompletion(variant: Variant, events: seq<Event>, e: Event)
    ensures var j := RunBoth(variant, events);
            !j.w.clash ==> WriteFollows(j, StepBoth(variant, j, e), e)
  {
    RunKeepsOrder(variant, events);
    var j := RunBoth(variant, events);
    if !j.w.clash { StepWriteFollows(variant, j, e); }
  }

  predicate WriteFollows(j: Joint, h: Joint, e: Event) {
    j.g.appState == Pairing && |h.g.requests| > |j.g.requests| ==>
      && e == QueryComplete(SUCCESS) && 0 <= j.g.pairStep < 4
      && j.w.outstanding == Some(Bridge.Write(j.g.conn, j.g.command.valueHandle, PairPayload(j.g.pairStep)))
      && h.w.outstanding ==
         Some(if j.g.pairStep < 3
              then Bridge.Write(j.g.conn, j.g.command.valueHandle, PairPayload(j.g.pairStep + 1))
              else Configure(j.g.conn, j.g.input))
  }

  lemma StepWriteFollows(variant: Variant, j: Joint, e: Event)
    requires Orderly(variant, j) && !j.w.clash
    ensures WriteFollows(j, StepBoth(variant, j, e), e)
  {
  }

  /** The build that goes straight to discovery clashes as soon as the controller asks for Just Works
      while discovery is under way and encryption is then reported. */
  lemma DirectBuildClashes(handle: Word)
    ensures var w := RunBoth(Direct, [LeConnectionComplete(handle, SUCCESS), JustWorks, EncryptionChange(0)]).w;
            w.clash && w.starts == 2
  {
    var e0, e1, e2 := LeConnectionComplete(handle, SUCCESS), JustWorks, EncryptionChange(0);
    assert [e0][..0] == [] && [e0, e1][..1] == [e0] && [e0, e1, e2][..2] == [e0, e1];
    var j0 := RunBoth(Direct, []);
    var j1 := StepBoth(Direct, j0, e0);
    assert RunBoth(Direct, [e0]) == j1;
    var j2 := StepBoth(Direct, j1, e1);
    assert RunBoth(Direct, [e0, e1]) == j2;
    assert j2.g.appState == WaitEncryption && j2.w.outstanding.Some?;
    assert RunBoth(Direct, [e0, e1, e2]) == StepBoth(Direct, j2, e2);
  }
}
