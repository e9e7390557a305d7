/** When the stages of a session succeed and what they find, told from the turns of the world alone. */
module RunnerStages {
  import opened Bytes
  import opened Wrappers
  import opened Runner

  // Turn k from now on; behind the last there is silence.
  function TurnAt(s: Sys, k: nat): Turn {
    if k < |s.script| then s.script[k] else SILENT
  }

  // ---------- retries ----------

  predicate SomeOk(s: Sys, n: nat) {
    exists k :: 0 <= k < n && TurnAt(s, k).ok
  }

  // The turns of t are those of s but the first.
  ghost predicate TurnBehind(s: Sys, t: Sys) {
    forall k: nat :: TurnAt(t, k) == TurnAt(s, k + 1)
  }

  lemma SomeOkLater(s: Sys, t: Sys, n: nat)
    requires n > 0 && TurnBehind(s, t)
    ensures SomeOk(s, n) <==> TurnAt(s, 0).ok || SomeOk(t, n - 1)
  {
    if k: nat :| k < n && TurnAt(s, k).ok {
      if k > 0 { assert TurnAt(t, k - 1) == TurnAt(s, k); }
    }
    if k: nat :| k < n - 1 && TurnAt(t, k).ok { assert TurnAt(s, k + 1).ok; }
    if TurnAt(s, 0).ok { assert SomeOk(s, n); }
  }

  /** The connection is tried again until it is made: the stage succeeds exactly if one of as many turns does. */
  lemma {:induction false} ConnectsExactly(c: Config, p: Profile, s: Sys, attempts: nat)
    ensures Connect(c, p, s, attempts).1 <==> SomeOk(s, attempts)
    decreases attempts
  {
    if attempts > 0 {
      var t := Waited(p, s);
      assert TurnBehind(s, t);
      SomeOkLater(s, t, attempts);
      ConnectsExactly(c, p, t, attempts - 1);
    }
  }

  /** The subscription to the matched characteristic likewise. */
  lemma {:induction false} SubscribesExactly(p: Profile, s: Sys, attempts: nat)
    ensures SubscribeSelected(p, s, attempts).1 <==> SomeOk(s, attempts)
    decreases attempts
  {
    if attempts > 0 {
      var t := StartNotify(p, s);
      assert TurnBehind(s, t);
      SomeOkLater(s, t, attempts);
      SubscribesExactly(p, t, attempts - 1);
    }
  }

  predicate Lists(t: Turn) {
    t.ok && t.services != []
  }

  /** The services are those of the first of as many turns that lists any, and none if none does. */
  lemma {:induction false} FirstListing(p: Profile, s: Sys, attempts: nat)
    ensures var found := GetServices(p, s, attempts).services;
            || (found == [] && forall k | 0 <= k < attempts :: !Lists(TurnAt(s, k)))
            || (exists k :: 0 <= k < attempts && Lists(TurnAt(s, k)) && found == TurnAt(s, k).services
                            && forall j | 0 <= j < k :: !Lists(TurnAt(s, j)))
    decreases attempts
  {
    if attempts > 0 && !Lists(TurnAt(s, 0)) {
      var t := Waited(p, s);
      FirstListing(p, t, attempts - 1);
      assert TurnBehind(s, t);
      var found := GetServices(p, t, attempts - 1).services;
      if k :| 0 <= k < attempts - 1 && Lists(TurnAt(t, k)) && found == TurnAt(t, k).services
              && forall j | 0 <= j < k :: !Lists(TurnAt(t, j)) {
        assert Lists(TurnAt(s, k + 1));
        forall j | 0 <= j < k + 1 ensures !Lists(TurnAt(s, j)) {
          if j > 0 { assert !Lists(TurnAt(t, j - 1)); }
        }
      } else {
        forall k | 0 <= k < attempts ensures !Lists(TurnAt(s, k)) {
          if k > 0 { assert !Lists(TurnAt(t, k - 1)); }
        }
      }
    }
  }

  // ---------- matching ----------

  // The handle of the last characteristic with the UUID.
  function LastHandle(chars: seq<Characteristic>, uuid: string): nat {
    if chars == [] then 0
    else if chars[|chars| - 1].uuid == uuid then chars[|chars| - 1].handle
    else LastHandle(chars[..|chars| - 1], uuid)
  }

  /** The command handle is that of the last characteristic with the command UUID, the response handle likewise. */
  lemma {:induction false} LastHandlesMatch(p: Profile, chars: seq<Characteristic>)
    ensures Match(p, chars).command == if p.commandUuid.Some? then LastHandle(chars, p.commandUuid.value) else 0
    ensures Match(p, chars).response == LastHandle(chars, COMMAND_RESPONSE)
  {
    if chars != [] { LastHandlesMatch(p, chars[..|chars| - 1]); }
  }

  predicate Candidate(p: Profile, ch: Characteristic) {
    p.strategy.Selected? && ch.uuid in p.inputUuids && ch.handle != 0
  }

  // The first characteristic that can be the input stands at i.
  predicate FirstInput(p: Profile, chars: seq<Characteristic>, i: nat) {
    i < |chars| && Candidate(p, chars[i]) && forall j | 0 <= j < i :: !Candidate(p, chars[j])
  }

  /** The input is the first characteristic with an input UUID and a handle other than 0; there is none exactly if the
      input handle is 0. */
  lemma {:induction false} FirstInputMatches(p: Profile, chars: seq<Characteristic>)
    ensures var h := Match(p, chars);
            if h.input == 0 then forall i | 0 <= i < |chars| :: !Candidate(p, chars[i])
            else exists i: nat :: FirstInput(p, chars, i) && h.input == chars[i].handle && h.uuid == Some(chars[i].uuid)
  {
    if chars != [] {
      var n := |chars| - 1;
      var before := chars[..n];
      FirstInputMatches(p, before);
      var g, h := Match(p, before), Match(p, chars);
      assert forall j | 0 <= j < n :: chars[j] == before[j];
      if g.input != 0 {
        var i: nat :| FirstInput(p, before, i) && g.input == before[i].handle && g.uuid == Some(before[i].uuid);
        assert FirstInput(p, chars, i) && h.input == g.input && h.uuid == g.uuid;
      } else if Candidate(p, chars[n]) {
        assert FirstInput(p, chars, n);
      }
    }
  }

  // ---------- reports ----------

  /** The Windows profile counts the reports of handle 45 and those without a sender, the others count all. */
  lemma WhatCounts(sender: Option<nat>)
    ensures Accepts(SPRO2WIN, sender) <==> sender == None || sender == Some(45)
    ensures Accepts(MACOS, sender) && Accepts(JOYCON2CPP, sender)
  {
  }

  // How many of the senders are none or handle 45.
  function Counted(senders: seq<Option<nat>>): nat {
    if senders == [] then 0
    else Counted(senders[1..]) + if senders[0] == None || senders[0] == Some(45) then 1 else 0
  }

  lemma {:induction false} CountedSnoc(senders: seq<Option<nat>>)
    requires senders != []
    ensures var n, last := |senders| - 1, senders[|senders| - 1];
            Counted(senders) == Counted(senders[..n]) + if last == None || last == Some(45) then 1 else 0
  {
    if |senders| > 1 {
      CountedSnoc(senders[1..]);
      assert senders[1..][..|senders| - 2] == senders[..|senders| - 1][1..];
    }
  }

  lemma {:induction false} AcceptedCounts(senders: seq<Option<nat>>)
    ensures Accepted(SPRO2WIN, senders) == Counted(senders)
    ensures Accepted(MACOS, senders) == Accepted(JOYCON2CPP, senders) == |senders|
  {
    if senders != [] {
      AcceptedCounts(senders[..|senders| - 1]);
      CountedSnoc(senders);
      WhatCounts(senders[|senders| - 1]);
    }
  }

  // Every turn delivers one report without a sender.
  predicate Steady(s: Sys) {
    s.listening && !s.shutdown && forall k | 0 <= k < |s.script| :: s.script[k] == Turn(true, false, [], [None])
  }

  /** Of a steady stream a session takes exactly as many reports as are wanted, or all if it is not told. */
  lemma {:induction false} TakesTheWantedNumber(c: Config, p: Profile, s: Sys)
    requires Steady(s) && (c.maxReports == 0 || s.reports < c.maxReports)
    ensures var wanted := if c.maxReports == 0 || s.reports + |s.script| <= c.maxReports then |s.script|
                          else c.maxReports - s.reports;
            var t := Receive(c, p, s);
            t.reports == s.reports + wanted && |t.script| == |s.script| - wanted
    decreases |s.script|
  {
    if s.script != [] {
      var one: seq<Option<nat>> := [None];
      assert one[..0] == [] && Accepted(p, one) == Accepted(p, []) + 1;
      var t := Waited(p, s);
      assert t.reports == s.reports + 1;
      if c.maxReports == 0 || t.reports < c.maxReports { TakesTheWantedNumber(c, p, t); }
    }
  }
}
