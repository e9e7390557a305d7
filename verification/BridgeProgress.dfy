/** What the bridge achieves with a client that answers: it reaches READY, by exactly the seven requests it is made
    for. */
module BridgeProgress {
  import opened Bytes
  import opened Wrappers
  import opened Bridge
  import opened BridgeWorld

  // ---------- every successful completion leads on ----------

  lemma {:induction false} JointInSequence(variant: Variant, events: seq<Event>)
    ensures InSequence(RunBoth(variant, events).g)
  {
    if events != [] {
      var j, e := RunBoth(variant, events[..|events| - 1]), events[|events| - 1];
      JointInSequence(variant, events[..|events| - 1]);
      if Possible(variant, j.w, e) { StepKeepsSequence(variant, j.g, e); }
    }
  }

  /** After any events, a successful completion while characteristics are searched, the pair sequence runs or
      notifications are configured leaves a request outstanding, or the bridge READY. */
  lemma CompletionLeadsOn(variant: Variant, events: seq<Event>)
    ensures var j := RunBoth(variant, events);
            var k := StepBoth(variant, j, QueryComplete(0x00));
            j.w.outstanding.Some? && j.g.appState in {CharDiscovering, Pairing, Notifying} ==>
              k.w.outstanding.Some? || k.g.appState == Ready
  {
    JointInSequence(variant, events);
  }

  // ---------- an answered run ----------

  // Opening of a link: what each build waits for before it starts discovery.
  function Opening(variant: Variant, handle: Word, release: Event): seq<Event> {
    if variant.WithSmp? then [LeConnectionComplete(handle, 0x00), JustWorks, release]
    else [LeConnectionComplete(handle, 0x00)]
  }

  // The client's answers: one characteristic for each search, and success for all seven requests.
  function Answers(input: Word, command: Word): seq<Event> {
    [CharacteristicResult(Characteristic(input, UUID_INPUT_REPORT)), QueryComplete(0x00),
     CharacteristicResult(Characteristic(command, UUID_COMMAND_WRITE)), QueryComplete(0x00),
     QueryComplete(0x00), QueryComplete(0x00), QueryComplete(0x00), QueryComplete(0x00), QueryComplete(0x00)]
  }

  /** The seven requests, byte by byte. */
  function Seven(handle: Word, input: Word, command: Word): seq<Request> {
    [Discover(handle, UUID_INPUT_REPORT), Discover(handle, UUID_COMMAND_WRITE),
     Bridge.Write(handle, command, Command(0x15, 0x01, [0x00, 0x02] + HOST_MAC + HOST_MAC)),
     Bridge.Write(handle, command, Command(0x15, 0x04, PAIR_KEY_1)),
     Bridge.Write(handle, command, Command(0x15, 0x02, PAIR_KEY_2)),
     Bridge.Write(handle, command, Command(0x15, 0x03, [0x00])),
     Configure(handle, Characteristic(input, UUID_INPUT_REPORT))]
  }

  // Events from a joint state on.
  function From(variant: Variant, j: Joint, events: seq<Event>): Joint
    decreases |events|
  {
    if events == [] then j else From(variant, StepBoth(variant, j, events[0]), events[1..])
  }

  lemma {:induction false} FromConcat(variant: Variant, j: Joint, a: seq<Event>, b: seq<Event>)
    ensures From(variant, j, a + b) == From(variant, From(variant, j, a), b)
    decreases |a|
  {
    if a == [] {
      assert a + b == b;
    } else {
      assert (a + b)[1..] == a[1..] + b;
      FromConcat(variant, StepBoth(variant, j, a[0]), a[1..], b);
    }
  }

  lemma {:induction false} RunFrom(variant: Variant, a: seq<Event>, b: seq<Event>)
    ensures RunBoth(variant, a + b) == From(variant, RunBoth(variant, a), b)
    decreases |b|
  {
    if b == [] {
      assert a + b == a;
    } else {
      var n := |b| - 1;
      RunFrom(variant, a, b[..n]);
      assert (a + b)[..|a + b| - 1] == a + b[..n];
      assert b == b[..n] + [b[n]];
      FromConcat(variant, RunBoth(variant, a), b[..n], [b[n]]);
      var j := From(variant, RunBoth(variant, a), b[..n]);
      assert From(variant, j, [b[n]]) == From(variant, StepBoth(variant, j, b[n]), []);
    }
  }

  // Discovery has just started on the link: the search for the input characteristic is outstanding.
  predicate Started(j: Joint, handle: Word, before: seq<Request>) {
    && j.g.appState == CharDiscovering && j.g.conn == handle && j.g.input == EMPTY && j.g.command == EMPTY
    && j.w.link && !j.w.answered && j.w.outstanding == Some(Discover(handle, UUID_INPUT_REPORT))
    && j.g.requests == before + [Discover(handle, UUID_INPUT_REPORT)]
  }

  // Step k of the pair sequence is outstanding.
  predicate Writing(j: Joint, handle: Word, input: Word, command: Word, k: nat, before: seq<Request>) {
    && k < 4 && j.g.appState == Pairing && j.g.pairStep == k && j.g.conn == handle && j.w.link
    && j.g.input == Characteristic(input, UUID_INPUT_REPORT)
    && j.g.command == Characteristic(command, UUID_COMMAND_WRITE)
    && j.w.outstanding.Some? && j.g.requests == before + Seven(handle, input, command)[..k + 3]
  }

  lemma OpeningStarts(variant: Variant, j: Joint, handle: Word, release: Event)
    requires !j.w.link && (release.EncryptionChange? || release.PairingComplete?)
    ensures Started(From(variant, j, Opening(variant, handle, release)), handle, j.g.requests)
  {
    var o := Opening(variant, handle, release);
    var j1 := StepBoth(variant, j, o[0]);
    if variant.WithSmp? {
      var j2 := StepBoth(variant, j1, JustWorks);
      var j3 := StepBoth(variant, j2, release);
      assert o[1..] == [JustWorks, release] && o[1..][1..] == [release] && o[1..][1..][1..] == [];
      assert From(variant, j2, [release]) == From(variant, j3, []) == j3;
      assert From(variant, j1, [JustWorks, release]) == j3;
    } else {
      assert o[1..] == [];
    }
  }

  // The two searches are answered.
  lemma SearchesLeadToPairing(variant: Variant, j: Joint, handle: Word, input: Word, command: Word,
                              before: seq<Request>)
    requires Started(j, handle, before) && input != 0 && command != 0
    ensures Writing(From(variant, j, Answers(input, command)[..4]), handle, input, command, 0, before)
  {
    var a := Answers(input, command)[..4];
    var j1 := StepBoth(variant, j, a[0]);
    var j2 := StepBoth(variant, j1, a[1]);
    assert j2.g.requests == before + Seven(handle, input, command)[..2];
    assert j2.w.outstanding == Some(Discover(handle, UUID_COMMAND_WRITE));
    var j3 := StepBoth(variant, j2, a[2]);
    var j4 := StepBoth(variant, j3, a[3]);
    assert j4.g.requests == j2.g.requests + [Seven(handle, input, command)[2]];
    assert a[1..][1..][1..][1..] == [] && a[1..][0] == a[1] && a[1..][1..][0] == a[2] && a[1..][1..][1..][0] == a[3];
    assert From(variant, j3, a[1..][1..][1..]) == From(variant, j4, []) == j4;
    assert From(variant, j2, a[1..][1..]) == j4;
    assert From(variant, j1, a[1..]) == j4;
  }

  lemma WriteLeadsOn(variant: Variant, j: Joint, handle: Word, input: Word, command: Word, k: nat,
                     before: seq<Request>)
    requires Writing(j, handle, input, command, k, before) && k < 3
    ensures Writing(StepBoth(variant, j, QueryComplete(0x00)), handle, input, command, k + 1, before)
  {
    var seven := Seven(handle, input, command);
    assert seven[..k + 4] == seven[..k + 3] + [seven[k + 3]];
  }

  // The last write and the configuration are answered.
  lemma LastWriteLeadsToReady(variant: Variant, j: Joint, handle: Word, input: Word, command: Word,
                              before: seq<Request>)
    requires Writing(j, handle, input, command, 3, before)
    ensures var k := StepBoth(variant, StepBoth(variant, j, QueryComplete(0x00)), QueryComplete(0x00));
            k.g.appState == Ready && k.g.requests == before + Seven(handle, input, command) && k.w.outstanding.None?
  {
    var seven := Seven(handle, input, command);
    assert seven == seven[..6] + [seven[6]];
  }

  lemma FiveCompletions(variant: Variant, j: Joint)
    ensures From(variant, j, seq(5, _ => QueryComplete(0x00)))
            == StepBoth(variant, StepBoth(variant, StepBoth(variant, StepBoth(variant, StepBoth(variant, j,
                 QueryComplete(0x00)), QueryComplete(0x00)), QueryComplete(0x00)), QueryComplete(0x00)),
                 QueryComplete(0x00))
  {
    var q := QueryComplete(0x00);
    var five := seq(5, _ => q);
    assert five == [q, q, q, q, q];
    var j1 := StepBoth(variant, j, q);
    var j2 := StepBoth(variant, j1, q);
    var j3 := StepBoth(variant, j2, q);
    var j4 := StepBoth(variant, j3, q);
    assert From(variant, j4, [q]) == From(variant, StepBoth(variant, j4, q), []);
    assert [q, q][1..] == [q] && [q, q, q][1..] == [q, q];
    assert [q, q, q, q][1..] == [q, q, q] && five[1..] == [q, q, q, q];
    assert From(variant, j3, [q, q]) == From(variant, j4, [q]);
    assert From(variant, j2, [q, q, q]) == From(variant, j3, [q, q]);
    assert From(variant, j1, [q, q, q, q]) == From(variant, j2, [q, q, q]);
  }

  /** In both builds, after any events that leave no link, on a new link whose requests are all answered the bridge
      makes exactly the seven requests, in order, and is READY. */
  lemma AnsweredLinkIsReady(variant: Variant, events: seq<Event>, handle: Word, release: Event, input: Word,
                            command: Word)
    requires !RunBoth(variant, events).w.link && (release.EncryptionChange? || release.PairingComplete?)
    requires input != 0 && command != 0
    ensures var before := RunBoth(variant, events).g.requests;
            var j := RunBoth(variant, events + Opening(variant, handle, release) + Answers(input, command));
            j.g.appState == Ready && j.g.requests == before + Seven(handle, input, command) && j.w.outstanding.None?
  {
    var j0 := RunBoth(variant, events);
    var opening, answers := Opening(variant, handle, release), Answers(input, command);
    assert events + opening + answers == events + (opening + answers);
    RunFrom(variant, events, opening + answers);
    FromConcat(variant, j0, opening, answers);
    OpeningStarts(variant, j0, handle, release);
    var j1 := From(variant, j0, opening);
    SearchesLeadToPairing(variant, j1, handle, input, command, j0.g.requests);
    assert answers == answers[..4] + seq(5, _ => QueryComplete(0x00));
    FromConcat(variant, j1, answers[..4], seq(5, _ => QueryComplete(0x00)));
    PairingLeadsToReady(variant, From(variant, j1, answers[..4]), handle, input, command, j0.g.requests);
  }

  lemma PairingLeadsToReady(variant: Variant, j: Joint, handle: Word, input: Word, command: Word,
                            before: seq<Request>)
    requires Writing(j, handle, input, command, 0, before)
    ensures var k := From(variant, j, seq(5, _ => QueryComplete(0x00)));
            k.g.appState == Ready && k.g.requests == before + Seven(handle, input, command) && k.w.outstanding.None?
  {
    var q := QueryComplete(0x00);
    WriteLeadsOn(variant, j, handle, input, command, 0, before);
    var j1 := StepBoth(variant, j, q);
    WriteLeadsOn(variant, j1, handle, input, command, 1, before);
    var j2 := StepBoth(variant, j1, q);
    WriteLeadsOn(variant, j2, handle, input, command, 2, before);
    var j3 := StepBoth(variant, j2, q);
    LastWriteLeadsToReady(variant, j3, handle, input, command, before);
    FiveCompletions(variant, j);
  }
}
