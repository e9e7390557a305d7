/** The runner of switch2d.py in its own form: one state object that the stages, the report handler and the profile
    search update. Each method computes the function of the same purpose in Runner, so the results of RunnerSafety
    hold of it. */
module RunnerDaemon {
  import Bytes
  import opened Wrappers
  import opened Runner
  import opened RunnerSafety

  type Searched = (Sys, seq<Attempt>, Option<string>)

  function Prepended(attempts: seq<Attempt>, r: Searched): Searched {
    (r.0, attempts + r.1, r.2)
  }

  // The search from position i on, with the attempts made before it.
  function Continued(c: Config, order: seq<Profile>, i: nat, attempts: seq<Attempt>, s: Sys): Searched
    requires i <= |order|
  {
    Prepended(attempts, Search(c, s, order[i..]))
  }

  lemma FromTheStart(c: Config, order: seq<Profile>, s: Sys)
    ensures Continued(c, order, 0, [], s) == Search(c, s, order)
  {
    assert order[0..] == order;
    assert [] + Search(c, s, order).1 == Search(c, s, order).1;
  }

  lemma NoMoreProfiles(c: Config, order: seq<Profile>, i: nat, attempts: seq<Attempt>, s: Sys)
    requires i <= |order| && (i == |order| || s.shutdown)
    ensures Continued(c, order, i, attempts, s) == (s, attempts, None)
  {
    assert attempts + [] == attempts;
  }

  lemma NextProfile(c: Config, order: seq<Profile>, i: nat, attempts: seq<Attempt>, s: Sys, t: Sys, a: Attempt,
                    ok: bool)
    requires i < |order| && !s.shutdown && Session(c, order[i], s) == (t, ok)
    requires a == Attempt(order[i].name, ok && t.reports > 0, t.reports, t.log)
    ensures Continued(c, order, i, attempts, s) ==
            if a.success then (t, attempts + [a], Some(order[i].name))
            else Continued(c, order, i + 1, attempts + [a], if i + 1 < |order| then Reset(t) else t)
  {
    assert order[i..][1..] == order[i + 1..];
    if !a.success {
      var rest := Search(c, if i + 1 < |order| then Reset(t) else t, order[i + 1..]).1;
      assert attempts + ([a] + rest) == (attempts + [a]) + rest;
    }
  }

  // The writes from position n on, counted with those before.
  function WritesFrom(p: Profile, s: Sys, frames: seq<Bytes.Data>, n: nat): (Sys, nat)
    requires n <= |frames|
  {
    var r := Writes(p, s, frames[n..]);
    (r.0, n + r.1)
  }

  lemma WritesFromStart(p: Profile, s: Sys, frames: seq<Bytes.Data>)
    ensures WritesFrom(p, s, frames, 0) == Writes(p, s, frames)
  {
    assert frames[0..] == frames;
  }

  lemma NextWrite(p: Profile, s: Sys, frames: seq<Bytes.Data>, n: nat)
    requires n < |frames|
    ensures WritesFrom(p, s, frames, n) ==
            if Next(s).ok then WritesFrom(p, Logged(Waited(p, s), Wrote(frames[n])), frames, n + 1)
            else (Logged(Waited(p, s), NotWritten(frames[n])), n)
  {
    assert frames[n..][1..] == frames[n + 1..];
  }

  class DaemonState {
    const c: Config
    var script: seq<Turn>
    var shutdown: bool
    var services: seq<Characteristic>
    var handles: Handles
    var listening: bool
    var reports: nat
    var total: nat
    var pairOk: bool
    var failure: Option<string>
    var log: seq<Entry>
    var attempted: seq<Attempt>
    var winner: Option<string>

    ghost function Abs(): Sys
      reads this
    {
      Sys(script, shutdown, services, handles, listening, reports, total, pairOk, failure, log)
    }

    constructor (c: Config, script: seq<Turn>)
      ensures this.c == c && Abs() == Sys(script, false, [], NO_HANDLES, false, 0, 0, false, None, [])
      ensures attempted == [] && winner == None
    {
      this.c, this.script, shutdown, services, handles := c, script, false, [], NO_HANDLES;
      listening, reports, total, pairOk, failure, log := false, 0, 0, false, None, [];
      attempted, winner := [], None;
    }

    // handle_report
    method HandleReport(p: Profile, sender: Option<nat>)
      modifies this`reports, this`total
      ensures reports == old(reports) + if Accepts(p, sender) then 1 else 0
      ensures total == old(total) + if Accepts(p, sender) then 1 else 0
    {
      if p.handleFilter.Some? {
        if sender.Some? && sender != p.handleFilter { return; }
      }
      reports := reports + 1;
      total := total + 1;
    }

    // One awaited call, with what happens meanwhile.
    method Await(p: Profile) returns (t: Turn)
      modifies this`script, this`shutdown, this`reports, this`total
      ensures t == Next(old(Abs())) && Abs() == Waited(p, old(Abs()))
    {
      t := SILENT;
      if script != [] {
        t := script[0];
        script := script[1..];
      }
      if t.shutdown { shutdown := true; }
      if listening {
        for i := 0 to |t.reports|
          modifies this`reports, this`total
          invariant reports == old(reports) + Accepted(p, t.reports[..i])
          invariant total == old(total) + Accepted(p, t.reports[..i])
        {
          assert t.reports[..i + 1][..i] == t.reports[..i];
          HandleReport(p, t.reports[i]);
        }
        assert t.reports[..|t.reports|] == t.reports;
        assert reports == old(reports) + Heard(p, old(Abs()));
      }
    }

    method ResetSession()
      modifies this
      ensures Abs() == Reset(old(Abs())) && attempted == old(attempted) && winner == old(winner)
    {
      services, handles, listening, reports, pairOk, failure, log := [], NO_HANDLES, false, 0, false, None, [];
    }

    method StageScan(p: Profile) returns (ok: bool)
      modifies this`script, this`shutdown, this`reports, this`total
      ensures (Abs(), ok) == RunStage(c, p, old(Abs()), SCAN)
    {
      var t := Await(p);
      ok := t.ok;
    }

    method StageConnect(p: Profile) returns (ok: bool)
      modifies this`script, this`shutdown, this`reports, this`total
      ensures (Abs(), ok) == RunStage(c, p, old(Abs()), CONNECT)
    {
      for attempt := 0 to c.connectRetries
        invariant Connect(c, p, old(Abs()), c.connectRetries) == Connect(c, p, Abs(), c.connectRetries - attempt)
        invariant services == old(services) && handles == old(handles) && listening == old(listening)
        invariant pairOk == old(pairOk) && failure == old(failure) && log == old(log)
      {
        var t := Await(p);
        if t.ok { return true; }
      }
      return false;
    }

    method StageDiscover(p: Profile) returns (ok: bool)
      modifies this`script, this`shutdown, this`reports, this`total, this`services, this`handles
      ensures (Abs(), ok) == RunStage(c, p, old(Abs()), DISCOVER)
    {
      FindServices(p);
      if services == [] { return false; }
      MatchCharacteristics(p);
      if p.strategy.Selected? && handles.input == 0 { return false; }
      if p.commandUuid.Some? && handles.command == 0 { return false; }
      if Pairs(p) && handles.response != 0 {
        var t := Await(p);
        return t.ok;
      }
      return true;
    }

    method FindServices(p: Profile)
      modifies this`script, this`shutdown, this`reports, this`total, this`services
      ensures Abs() == GetServices(p, old(Abs()), c.gattRetries)
    {
      for attempt := 0 to c.gattRetries
        invariant GetServices(p, old(Abs()), c.gattRetries) == GetServices(p, Abs(), c.gattRetries - attempt)
        invariant services == old(services)
      {
        var t := Await(p);
        if t.ok && t.services != [] {
          services := t.services;
          return;
        }
      }
      services := [];
    }

    method MatchCharacteristics(p: Profile)
      modifies this`handles
      ensures handles == Match(p, services)
    {
      handles := NO_HANDLES;
      for i := 0 to |services|
        invariant handles == Match(p, services[..i])
      {
        var last := services[i];
        assert services[..i + 1][..i] == services[..i];
        if p.strategy.Selected? && handles.input == 0 && last.uuid in p.inputUuids {
          handles := handles.(input := last.handle, uuid := Some(last.uuid));
        }
        if p.commandUuid == Some(last.uuid) { handles := handles.(command := last.handle); }
        if last.uuid == COMMAND_RESPONSE { handles := handles.(response := last.handle); }
      }
      assert services[..|services|] == services;
    }

    // write_gatt_char
    method WriteCommand(p: Profile, frame: Bytes.Data) returns (ok: bool)
      modifies this`script, this`shutdown, this`reports, this`total, this`log
      ensures ok == Next(old(Abs())).ok
      ensures Abs() == Logged(Waited(p, old(Abs())), if ok then Wrote(frame) else NotWritten(frame))
    {
      var t := Await(p);
      ok := t.ok;
      log := log + [if ok then Wrote(frame) else NotWritten(frame)];
    }

    method WriteCommands(p: Profile, frames: seq<Bytes.Data>) returns (n: nat)
      modifies this`script, this`shutdown, this`reports, this`total, this`log
      ensures (Abs(), n) == Writes(p, old(Abs()), frames)
    {
      n := 0;
      WritesFromStart(p, Abs(), frames);
      ghost var goal := WritesFrom(p, Abs(), frames, 0);
      while n < |frames|
        invariant n <= |frames|
        invariant goal == WritesFrom(p, Abs(), frames, n)
      {
        NextWrite(p, Abs(), frames, n);
        var ok := WriteCommand(p, frames[n]);
        if !ok { return; }
        n := n + 1;
      }
      assert frames[n..] == [];
    }

    method StagePair(p: Profile) returns (ok: bool)
      modifies this`script, this`shutdown, this`reports, this`total, this`log, this`failure, this`pairOk
      ensures (Abs(), ok) == RunStage(c, p, old(Abs()), PAIR)
    {
      if c.hostMac.None? {
        failure := Some("host_mac");
        return false;
      }
      if handles.command == 0 {
        failure := Some("no_cmd_handle");
        return false;
      }
      var n := WriteCommands(p, PairFrames(c.hostMac.value));
      if n < 4 {
        failure := Some(STEP_NAMES[n]);
        return false;
      }
      pairOk := true;
      return true;
    }

    method StageInit(p: Profile) returns (ok: bool)
      modifies this`script, this`shutdown, this`reports, this`total, this`log
      ensures (Abs(), ok) == RunStage(c, p, old(Abs()), INIT)
    {
      if p.init == [] { return true; }
      var n := WriteCommands(p, p.init);
      return n == |p.init|;
    }

    method StartNotification(p: Profile) returns (ok: bool)
      modifies this`script, this`shutdown, this`reports, this`total, this`log, this`listening
      ensures ok == Next(old(Abs())).ok && Abs() == StartNotify(p, old(Abs()))
    {
      listening := true;
      var t := Await(p);
      ok := t.ok;
      log := log + [Notify(ok)];
    }

    method StageSubscribe(p: Profile) returns (ok: bool)
      modifies this`script, this`shutdown, this`reports, this`total, this`log, this`listening
      ensures (Abs(), ok) == RunStage(c, p, old(Abs()), SUBSCRIBE)
    {
      if p.strategy.All? {
        ok := SubscribeAllNotify(p);
        return;
      }
      if handles.uuid.None? { return false; }
      for attempt := 0 to c.gattRetries
        invariant SubscribeSelected(p, old(Abs()), c.gattRetries)
                  == SubscribeSelected(p, Abs(), c.gattRetries - attempt)
      {
        ok := StartNotification(p);
        if ok { return; }
      }
      return false;
    }

    method SubscribeAllNotify(p: Profile) returns (ok: bool)
      modifies this`script, this`shutdown, this`reports, this`total, this`log, this`listening
      ensures (Abs(), ok) == SubscribeAll(p, old(Abs()), services)
    {
      var count: nat := 0;
      for i := 0 to |services|
        invariant var (t, more) := SubscribeAll(p, Abs(), services[i..]);
                  SubscribeAll(p, old(Abs()), services) == (t, count > 0 || more)
      {
        assert services[i..][1..] == services[i + 1..];
        if services[i].notify {
          var started := StartNotification(p);
          if started { count := count + 1; }
        }
      }
      return count > 0;
    }

    method Stage(p: Profile, stage: Stage) returns (ok: bool)
      modifies this`script, this`shutdown, this`reports, this`total, this`services, this`handles, this`log,
               this`listening, this`failure, this`pairOk
      ensures (Abs(), ok) == RunStage(c, p, old(Abs()), stage)
    {
      match stage
      case SCAN => ok := StageScan(p);
      case CONNECT => ok := StageConnect(p);
      case DISCOVER => ok := StageDiscover(p);
      case PAIR => ok := StagePair(p);
      case INIT => ok := StageInit(p);
      case SUBSCRIBE => ok := StageSubscribe(p);
    }

    /** run_session: the commands written and the report count are those SessionInOrder speaks of. */
    method RunSession(p: Profile) returns (ok: bool)
      modifies this
      ensures (Abs(), ok) == Session(c, p, old(Abs()))
      ensures attempted == old(attempted) && winner == old(winner)
      ensures Shaped(log, SessionFrames(c, p)) && (ok && reports > 0 <==> Subscribed(log) && reports > 0)
      ensures pairOk <==> Pairs(p) && PairWritten(c, log)
    {
      SessionInOrder(c, p, Abs());
      PairSequenceOk(c, p, Abs());
      ResetSession();
      ghost var start := Abs();
      var stages := Stages(p);
      for i := 0 to |stages|
        invariant RunStages(c, p, start, stages) == RunStages(c, p, Abs(), stages[i..])
        invariant attempted == old(attempted) && winner == old(winner)
      {
        assert stages[i..][1..] == stages[i + 1..];
        if shutdown { return true; }
        ok := Stage(p, stages[i]);
        if !ok {
          CleanupClient(p);
          return false;
        }
      }
      ReceiveReports(p);
      CleanupClient(p);
      return reports > 0;
    }

    method CleanupClient(p: Profile)
      modifies this`script, this`shutdown, this`reports, this`total, this`listening
      ensures Abs() == Cleaned(p, old(Abs()))
    {
      var t := Await(p);
      listening := false;
    }

    method ReceiveReports(p: Profile)
      modifies this`script, this`shutdown, this`reports, this`total
      ensures Abs() == Receive(c, p, old(Abs()))
    {
      while !shutdown && script != []
        invariant Receive(c, p, Abs()) == Receive(c, p, old(Abs()))
        decreases |script|
      {
        var before := reports;
        var t := Await(p);
        if !t.ok || reports == before { break; }
        if c.maxReports > 0 && reports >= c.maxReports { break; }
      }
    }

    // _try_profile
    method TryProfile(p: Profile) returns (result: Attempt)
      modifies this
      ensures var (t, ok) := Session(c, p, old(Abs()));
              Abs() == t && result == Attempt(p.name, ok && t.reports > 0, t.reports, t.log)
      ensures winner == if result.success then Some(p.name) else old(winner)
      ensures attempted == old(attempted)
    {
      var ok := RunSession(p);
      result := Attempt(p.name, false, reports, log);
      if ok && reports > 0 {
        result := result.(success := true);
        winner := Some(p.name);
      }
    }

    // One round of the search: the profile at position i, and a reset when another may follow.
    method TryNext(order: seq<Profile>, i: nat)
      requires i < |order| && winner.None? && !shutdown
      modifies this
      ensures var r := Continued(c, order, i, old(attempted), old(Abs()));
              if winner.Some? then r == (Abs(), attempted, winner)
              else r == Continued(c, order, i + 1, attempted, Abs())
    {
      ghost var s, before := Abs(), attempted;
      var result := TryProfile(order[i]);
      NextProfile(c, order, i, before, s, Abs(), result, Session(c, order[i], s).1);
      attempted := attempted + [result];
      if !result.success && i + 1 < |order| { ResetSession(); }
    }

    /** auto_detect_mode: attempts, winner and exit code are those of WinnerIsFirst. */
    method AutoDetect() returns (code: int)
      requires attempted == [] && winner == None
      modifies this
      ensures (Abs(), attempted, winner) == Search(c, old(Abs()), AUTO_PROFILE_ORDER)
      ensures code == ExitCode(winner)
    {
      code := TryInOrder(AUTO_PROFILE_ORDER);
    }

    method TryInOrder(order: seq<Profile>) returns (code: int)
      requires attempted == [] && winner == None
      modifies this
      ensures (Abs(), attempted, winner) == Search(c, old(Abs()), order)
      ensures code == ExitCode(winner)
    {
      FromTheStart(c, order, Abs());
      ghost var goal := Search(c, Abs(), order);
      var i := 0;
      while i < |order| && winner.None? && !shutdown
        invariant i <= |order|
        invariant goal == if winner.Some? then (Abs(), attempted, winner) else Continued(c, order, i, attempted, Abs())
      {
        TryNext(order, i);
        i := i + 1;
      }
      if winner.None? { NoMoreProfiles(c, order, i, attempted, Abs()); }
      code := if winner.Some? then 0 else 16;
    }
  }
}
