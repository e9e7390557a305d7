/** What one session of the runner writes, when it counts as a success, and which profile a search settles on. */
module RunnerSafety {
  import opened Bytes
  import opened Wrappers
  import opened Runner

  // The command frames of a stage, and of a list of stages.
  function StageFrames(c: Config, p: Profile, stage: Stage): seq<Data> {
    if stage == PAIR && c.hostMac.Some? then PairFrames(c.hostMac.value)
    else if stage == INIT then p.init
    else []
  }

  function FramesOf(c: Config, p: Profile, stages: seq<Stage>): seq<Data> {
    if stages == [] then [] else StageFrames(c, p, stages[0]) + FramesOf(c, p, stages[1..])
  }

  function SessionFrames(c: Config, p: Profile): seq<Data> {
    (if Pairs(p) && c.hostMac.Some? then PairFrames(c.hostMac.value) else []) + p.init
  }

  ghost predicate Written(log: seq<Entry>, frames: seq<Data>) {
    |frames| <= |log| && forall i | 0 <= i < |frames| :: log[i] == Wrote(frames[i])
  }

  // The first n frames went out in order; then nothing more, or the next one failed, or, when all are out,
  // only subscriptions.
  ghost predicate ShapedAt(log: seq<Entry>, frames: seq<Data>, n: nat) {
    n <= |frames| && Written(log, frames[..n]) &&
    (|log| == n
     || (|log| == n + 1 && n < |frames| && log[n] == NotWritten(frames[n]))
     || (n == |frames| && forall i | n <= i < |log| :: log[i].Notify?))
  }

  ghost predicate Shaped(log: seq<Entry>, frames: seq<Data>) {
    exists n :: ShapedAt(log, frames, n)
  }

  predicate Subscribed(log: seq<Entry>) {
    Notify(true) in log
  }

  ghost predicate Tried(log: seq<Entry>) {
    exists i :: 0 <= i < |log| && log[i].Notify?
  }

  // ---------- subscribing ----------

  // What the subscription adds to the log: attempts, with a success among them exactly when it succeeds.
  ghost predicate Extends(s: Sys, t: Sys, ok: bool) {
    |s.log| <= |t.log| && t.log[..|s.log|] == s.log && t.pairOk == s.pairOk &&
    (forall i | |s.log| <= i < |t.log| :: t.log[i].Notify?) &&
    (ok <==> Notify(true) in t.log[|s.log|..]) &&
    (|t.log| == |s.log| ==> t.listening == s.listening && (!s.listening ==> t.reports == s.reports))
  }

  lemma ExtendsFurther(s: Sys, t: Sys, u: Sys, first: bool, more: bool)
    requires Extends(s, t, first) && Extends(t, u, more) && |t.log| > |s.log|
    ensures Extends(s, u, first || more)
  {
    assert u.log[..|t.log|] == t.log;
    assert u.log[|s.log|..] == t.log[|s.log|..] + u.log[|t.log|..];
    assert u.log[..|s.log|] == u.log[..|t.log|][..|s.log|];
    forall i | |s.log| <= i < |u.log| ensures u.log[i].Notify? {
      if i < |t.log| { assert u.log[i] == t.log[i]; }
    }
  }

  lemma StartNotifyExtends(p: Profile, s: Sys)
    ensures Extends(s, StartNotify(p, s), Next(s).ok) && |StartNotify(p, s).log| == |s.log| + 1
  {
    assert StartNotify(p, s).log[|s.log|..] == [Notify(Next(s).ok)];
  }

  lemma {:induction false} SelectedExtends(p: Profile, s: Sys, attempts: nat)
    ensures var (t, ok) := SubscribeSelected(p, s, attempts); Extends(s, t, ok)
    decreases attempts
  {
    if attempts > 0 {
      StartNotifyExtends(p, s);
      if !Next(s).ok {
        SelectedExtends(p, StartNotify(p, s), attempts - 1);
        var (t, ok) := SubscribeSelected(p, StartNotify(p, s), attempts - 1);
        ExtendsFurther(s, StartNotify(p, s), t, false, ok);
      }
    }
  }

  lemma {:induction false} AllExtends(p: Profile, s: Sys, chars: seq<Characteristic>)
    ensures var (t, ok) := SubscribeAll(p, s, chars); Extends(s, t, ok)
    decreases |chars|
  {
    if chars != [] {
      if chars[0].notify {
        StartNotifyExtends(p, s);
        AllExtends(p, StartNotify(p, s), chars[1..]);
        var (t, ok) := SubscribeAll(p, StartNotify(p, s), chars[1..]);
        ExtendsFurther(s, StartNotify(p, s), t, Next(s).ok, ok);
      } else {
        AllExtends(p, s, chars[1..]);
      }
    }
  }

  lemma SubscribeExtends(c: Config, p: Profile, s: Sys)
    ensures var (t, ok) := Subscribe(c, p, s); Extends(s, t, ok)
  {
    AllExtends(p, s, s.services);
    SelectedExtends(p, s, c.gattRetries);
  }

  // ---------- the stages in order ----------

  // Before the subscription: the frames of the stages passed are out, nothing else, and nobody listens.
  ghost predicate Before(s: Sys, done: seq<Data>) {
    |s.log| == |done| && Written(s.log, done) && !s.listening && s.reports == 0
  }

  // After it, or wherever the session ended.
  ghost predicate Ended(s: Sys, outcome: Outcome, frames: seq<Data>) {
    Shaped(s.log, frames) && (Subscribed(s.log) <==> outcome == Passed) &&
    (s.reports > 0 || s.listening ==> Tried(s.log)) &&
    (outcome == Stopped ==> s.reports == 0)
  }

  predicate Suffix(p: Profile, stages: seq<Stage>) {
    |stages| <= |Stages(p)| && stages == Stages(p)[|Stages(p)| - |stages|..]
  }

  lemma SuffixTail(p: Profile, stages: seq<Stage>)
    requires Suffix(p, stages) && stages != []
    ensures Suffix(p, stages[1..]) && (stages[0] == SUBSCRIBE <==> |stages| == 1)
  {
  }

  lemma StageKeepsOrder(c: Config, p: Profile, s: Sys, stage: Stage, done: seq<Data>, rest: seq<Data>)
    requires Before(s, done) && stage != SUBSCRIBE
    ensures var (t, ok) := RunStage(c, p, s, stage);
            if ok then Before(t, done + StageFrames(c, p, stage))
            else Ended(t, Failed, done + StageFrames(c, p, stage) + rest)
  {
    var frames := StageFrames(c, p, stage);
    var all := done + frames + rest;
    var (t, ok) := RunStage(c, p, s, stage);
    if t.log == s.log {
      assert ShapedAt(t.log, all, |done|);
      if ok { assert frames == [] ==> done + frames == done; }
    }
    if stage == INIT || (stage == PAIR && c.hostMac.Some?) {
      WritesKeepOrder(p, s, frames, done, rest);
    }
  }

  lemma WritesKeepOrder(p: Profile, s: Sys, frames: seq<Data>, done: seq<Data>, rest: seq<Data>)
    requires Before(s, done)
    ensures var (t, n) := Writes(p, s, frames);
            if n == |frames| then Before(t, done + frames) else Ended(t, Failed, done + frames + rest)
  {
    var (t, n) := Writes(p, s, frames);
    var all := done + frames + rest;
    if n < |frames| {
      assert all[..|done| + n] == done + frames[..n];
      assert ShapedAt(t.log, all, |done| + n);
      assert Notify(true) !in t.log;
    }
  }

  lemma SubscribeKeepsOrder(c: Config, p: Profile, s: Sys, done: seq<Data>)
    requires Before(s, done)
    ensures var (t, ok) := Subscribe(c, p, s); Ended(t, if ok then Passed else Failed, done)
  {
    var (t, ok) := Subscribe(c, p, s);
    SubscribeExtends(c, p, s);
    assert t.log == s.log + t.log[|s.log|..];
    assert done[..|done|] == done;
    assert ShapedAt(t.log, done, |done|);
    assert Notify(true) !in s.log;
    if |t.log| > |s.log| { assert t.log[|s.log|].Notify?; }
  }

  lemma {:induction false} StagesKeepOrder(c: Config, p: Profile, s: Sys, stages: seq<Stage>, done: seq<Data>)
    requires Before(s, done) && Suffix(p, stages) && stages != []
    ensures var (t, outcome) := RunStages(c, p, s, stages); Ended(t, outcome, done + FramesOf(c, p, stages))
    decreases |stages|
  {
    var all := done + FramesOf(c, p, stages);
    SuffixTail(p, stages);
    if s.shutdown {
      assert ShapedAt(s.log, all, |done|);
    } else if |stages| == 1 {
      assert stages == [SUBSCRIBE] && stages[1..] == [];
      assert FramesOf(c, p, stages) == StageFrames(c, p, SUBSCRIBE) + FramesOf(c, p, []) == [];
      assert all == done;
      var (t, ok) := Subscribe(c, p, s);
      SubscribeKeepsOrder(c, p, s, done);
      assert RunStages(c, p, t, []) == (t, Passed);
    } else {
      var frames, rest := StageFrames(c, p, stages[0]), FramesOf(c, p, stages[1..]);
      StageKeepsOrder(c, p, s, stages[0], done, rest);
      assert all == done + frames + rest;
      var (t, ok) := RunStage(c, p, s, stages[0]);
      if ok { StagesKeepOrder(c, p, t, stages[1..], done + frames); }
    }
  }

  lemma FramesOfSession(c: Config, p: Profile)
    ensures FramesOf(c, p, Stages(p)) == SessionFrames(c, p)
  {
    var ending := [INIT, SUBSCRIBE];
    assert ending[1..] == [SUBSCRIBE] && ending[1..][1..] == [];
    assert FramesOf(c, p, [SUBSCRIBE]) == [];
    assert FramesOf(c, p, ending) == p.init;
    var middle := (if Pairs(p) then [PAIR] else []) + ending;
    assert FramesOf(c, p, middle) == SessionFrames(c, p) by {
      if Pairs(p) { assert middle[0] == PAIR && middle[1..] == ending; } else { assert middle == ending; }
    }
    var stages := Stages(p);
    assert stages[1..][1..][1..] == middle;
    assert stages[0] == SCAN && stages[1..][0] == CONNECT && stages[1..][1..][0] == DISCOVER;
    assert FramesOf(c, p, stages[1..][1..]) == FramesOf(c, p, middle);
    assert FramesOf(c, p, stages[1..]) == FramesOf(c, p, middle);
  }

  /** The commands of a session are a prefix of the pair frames and the init frames, at most one write fails and
      ends the session, and the input subscription is tried only when all of them are out. The session counts as
      a success exactly when a subscription succeeded and a report was accepted. */
  lemma SessionInOrder(c: Config, p: Profile, s: Sys)
    ensures var (t, ok) := Session(c, p, s);
            Shaped(t.log, SessionFrames(c, p)) &&
            (t.reports > 0 ==> Tried(t.log)) &&
            (ok && t.reports > 0 <==> Subscribed(t.log) && t.reports > 0)
  {
    StagesKeepOrder(c, p, Reset(s), Stages(p), []);
    FramesOfSession(c, p);
    assert [] + SessionFrames(c, p) == SessionFrames(c, p);
    var (t, outcome) := RunStages(c, p, Reset(s), Stages(p));
    assert Ended(t, outcome, SessionFrames(c, p));
    if outcome == Passed {
      var i :| 0 <= i < |t.log| && t.log[i] == Notify(true);
      assert Tried(t.log);
    }
  }

  // A subscription of either outcome comes after all command frames.
  lemma TriedAfterAll(log: seq<Entry>, frames: seq<Data>)
    requires Shaped(log, frames) && Tried(log)
    ensures Written(log, frames)
  {
    var n: nat :| ShapedAt(log, frames, n);
    var i :| 0 <= i < |log| && log[i].Notify?;
    assert forall k | 0 <= k < n :: log[k] == Wrote(frames[..n][k]);
    assert n == |frames| && frames[..n] == frames;
  }

  /** A session that accepted a report had all its commands written and the subscription under way. */
  lemma ReportsOnlyAfterCommands(c: Config, p: Profile, s: Sys)
    ensures var t := Session(c, p, s).0; t.reports > 0 ==> Written(t.log, SessionFrames(c, p))
  {
    SessionInOrder(c, p, s);
    var t := Session(c, p, s).0;
    if t.reports > 0 { TriedAfterAll(t.log, SessionFrames(c, p)); }
  }

  // ---------- pair_sequence_ok ----------

  ghost predicate PairWritten(c: Config, log: seq<Entry>) {
    c.hostMac.Some? && Written(log, PairFrames(c.hostMac.value))
  }

  // Once the log is longer than the frames, more entries do not change whether they were written.
  lemma PairWrittenKept(c: Config, log: seq<Entry>, more: seq<Entry>)
    requires log <= more && PairWritten(c, log)
    ensures PairWritten(c, more)
  {
  }

  lemma StageKeepsPairOk(c: Config, p: Profile, s: Sys, stage: Stage)
    requires stage != PAIR
    ensures var t := RunStage(c, p, s, stage).0; t.pairOk == s.pairOk && s.log <= t.log
  {
    SubscribeExtends(c, p, s);
  }

  lemma {:induction false} StagesKeepPairOk(c: Config, p: Profile, s: Sys, stages: seq<Stage>)
    requires PAIR !in stages
    ensures var t := RunStages(c, p, s, stages).0; t.pairOk == s.pairOk && s.log <= t.log
    decreases |stages|
  {
    if stages != [] && !s.shutdown {
      StageKeepsPairOk(c, p, s, stages[0]);
      StagesKeepPairOk(c, p, RunStage(c, p, s, stages[0]).0, stages[1..]);
    }
  }

  lemma PairDecides(c: Config, p: Profile, s: Sys)
    requires !s.pairOk && s.log == []
    ensures var (t, ok) := Pair(c, p, s); (t.pairOk <==> ok) && (ok <==> PairWritten(c, t.log))
  {
    if c.hostMac.Some? && s.handles.command != 0 {
      var frames := PairFrames(c.hostMac.value);
      var (t, n) := Writes(p, s, frames);
      assert t.log == Attempted(frames, n);
    }
  }

  /** pair_sequence_ok holds after a session exactly when the profile pairs and all four pair frames were written. */
  lemma PairSequenceOk(c: Config, p: Profile, s: Sys)
    ensures var t := Session(c, p, s).0; t.pairOk <==> Pairs(p) && PairWritten(c, t.log)
  {
    if Pairs(p) {
      var s0 := Reset(s);
      assert Stages(p) == [SCAN, CONNECT, DISCOVER, PAIR, INIT, SUBSCRIBE];
      FrontThenPair(c, p, s0);
    } else {
      StagesKeepPairOk(c, p, Reset(s), Stages(p));
    }
  }

  // The three stages before pairing write nothing.
  lemma FrontStage(c: Config, p: Profile, s: Sys, stages: seq<Stage>)
    requires !s.pairOk && s.log == [] && stages != [] && stages[0] in {SCAN, CONNECT, DISCOVER}
    ensures var s1, r := RunStage(c, p, s, stages[0]).0, RunStages(c, p, s, stages);
            s1.log == [] && !s1.pairOk && ((r.0.log == [] && !r.0.pairOk) || r == RunStages(c, p, s1, stages[1..]))
  {
    StageKeepsPairOk(c, p, s, stages[0]);
  }

  lemma FrontThenPair(c: Config, p: Profile, s: Sys)
    requires Pairs(p) && !s.pairOk && s.log == []
    ensures var t := RunStages(c, p, s, Stages(p)).0; t.pairOk <==> PairWritten(c, t.log)
  {
    var stages := Stages(p);
    var rest := stages[1..][1..][1..];
    assert rest == [PAIR, INIT, SUBSCRIBE];
    assert stages[0] == SCAN && stages[1..][0] == CONNECT && stages[1..][1..][0] == DISCOVER;
    var s1 := RunStage(c, p, s, SCAN).0;
    var s2 := RunStage(c, p, s1, CONNECT).0;
    var s3 := RunStage(c, p, s2, DISCOVER).0;
    FrontStage(c, p, s, stages);
    FrontStage(c, p, s1, stages[1..]);
    FrontStage(c, p, s2, stages[1..][1..]);
    PairThenRest(c, p, s3, rest);
  }

  lemma PairThenRest(c: Config, p: Profile, s: Sys, stages: seq<Stage>)
    requires !s.pairOk && s.log == [] && stages == [PAIR, INIT, SUBSCRIBE]
    ensures var t := RunStages(c, p, s, stages).0; t.pairOk <==> PairWritten(c, t.log)
  {
    PairDecides(c, p, s);
    var (t, ok) := Pair(c, p, s);
    if !s.shutdown && ok {
      assert PAIR !in stages[1..];
      StagesKeepPairOk(c, p, t, stages[1..]);
      PairWrittenKept(c, t.log, RunStages(c, p, t, stages[1..]).0.log);
    }
  }

  // ---------- the search ----------

  // What one attempt recorded of its session.
  ghost predicate Recorded(c: Config, p: Profile, a: Attempt) {
    a.profile == p.name && Shaped(a.log, SessionFrames(c, p)) &&
    (a.success <==> a.reports > 0 && Subscribed(a.log)) &&
    (a.reports > 0 ==> Tried(a.log))
  }

  ghost predicate AllRecorded(c: Config, order: seq<Profile>, attempts: seq<Attempt>) {
    |attempts| <= |order| && forall i | 0 <= i < |attempts| :: Recorded(c, order[i], attempts[i])
  }

  ghost predicate Settled(c: Config, order: seq<Profile>, t: Sys, attempts: seq<Attempt>, winner: Option<string>) {
    AllRecorded(c, order, attempts) &&
    (forall i | 0 <= i < |attempts| - 1 :: !attempts[i].success) &&
    (winner == if attempts != [] && attempts[|attempts| - 1].success
               then Some(attempts[|attempts| - 1].profile) else None) &&
    (|attempts| < |order| ==> winner.Some? || t.shutdown)
  }

  lemma RecordedFurther(c: Config, order: seq<Profile>, a: Attempt, attempts: seq<Attempt>)
    requires order != [] && Recorded(c, order[0], a) && AllRecorded(c, order[1..], attempts)
    ensures AllRecorded(c, order, [a] + attempts)
  {
    var all := [a] + attempts;
    forall i | 0 <= i < |all| ensures Recorded(c, order[i], all[i]) {
      if i > 0 { assert Recorded(c, order[1..][i - 1], attempts[i - 1]); }
    }
  }

  lemma SettledFurther(c: Config, order: seq<Profile>, a: Attempt, t: Sys, attempts: seq<Attempt>,
                       winner: Option<string>)
    requires order != [] && Recorded(c, order[0], a) && !a.success && Settled(c, order[1..], t, attempts, winner)
    ensures Settled(c, order, t, [a] + attempts, winner)
  {
    RecordedFurther(c, order, a, attempts);
    var all := [a] + attempts;
    assert forall i | 0 < i < |all| :: all[i] == attempts[i - 1];
  }

  /** The attempts are those of a prefix of the order, each with its record; only the last can be a success, the
      winner is its profile, and a search without a winner gave up early only on shutdown. */
  lemma {:induction false} SearchSettles(c: Config, s: Sys, order: seq<Profile>)
    ensures var (t, attempts, winner) := Search(c, s, order); Settled(c, order, t, attempts, winner)
    decreases |order|
  {
    if order != [] && !s.shutdown {
      var (t, ok) := Session(c, order[0], s);
      SessionInOrder(c, order[0], s);
      var a := Attempt(order[0].name, ok && t.reports > 0, t.reports, t.log);
      assert Recorded(c, order[0], a);
      if !a.success {
        var next := if |order| > 1 then Reset(t) else t;
        SearchSettles(c, next, order[1..]);
        var (u, attempts, winner) := Search(c, next, order[1..]);
        SettledFurther(c, order, a, u, attempts, winner);
      }
    }
  }

  // A session that did what a search looks for.
  predicate Works(a: Attempt) {
    a.reports > 0 && Subscribed(a.log)
  }

  /** The winner of a search is the first profile whose session subscribed and accepted a report, and the exit code
      is 0 exactly when there is one. */
  lemma WinnerIsFirst(c: Config, s: Sys, order: seq<Profile>)
    ensures var (t, attempts, winner) := Search(c, s, order);
            |attempts| <= |order| &&
            (ExitCode(winner) == 0 <==> exists i :: 0 <= i < |attempts| && Works(attempts[i])) &&
            (forall i | 0 <= i < |attempts| && Works(attempts[i]) ::
               winner == Some(order[i].name) && forall j | 0 <= j < i :: !Works(attempts[j]))
  {
    SearchSettles(c, s, order);
    var (t, attempts, winner) := Search(c, s, order);
    assert forall i | 0 <= i < |attempts| :: Recorded(c, order[i], attempts[i]);
    if attempts != [] {
      var last := |attempts| - 1;
      assert Recorded(c, order[last], attempts[last]);
    }
  }

  // ---------- the program's own profiles ----------

  /** Of the program's profiles only the experimental one pairs, and it is not among those searched. */
  lemma OnlyOnePairs(p: Profile)
    requires p in AUTO_PROFILE_ORDER + [JOYCON2CPP_PAIR]
    ensures Pairs(p) <==> p == JOYCON2CPP_PAIR
    ensures p in AUTO_PROFILE_ORDER ==> p != JOYCON2CPP_PAIR
  {
    LastLetters();
    var name := JOYCON2CPP_PAIR.name;
    assert name[|name| - 5..] == "-pair";
  }

  // What tells the other names from one that ends in "-pair".
  lemma LastLetters()
    ensures !Pairs(MACOS) && !Pairs(SPRO2WIN) && !Pairs(JOYCON2CPP)
  {
    var a, b, d := MACOS.name, SPRO2WIN.name, JOYCON2CPP.name;
    assert a[|a| - 5..][4] == 's' && b[|b| - 5..][4] == 'n' && d[|d| - 5..][4] == 'p' && "-pair"[4] == 'r';
  }

  lemma JoyconIsThird(i: nat)
    requires i < 3 && AUTO_PROFILE_ORDER[i].name == JOYCON2CPP.name
    ensures i == 2
  {
    assert |MACOS.name| == 5 && |SPRO2WIN.name| == 8 && |JOYCON2CPP.name| == 10;
  }

  lemma JoyconRecord(c: Config, a: Attempt)
    requires Recorded(c, JOYCON2CPP, a) && a.success
    ensures Written(a.log, JOYCON_INIT)
  {
    LastLetters();
    assert SessionFrames(c, JOYCON2CPP) == JOYCON_INIT;
    TriedAfterAll(a.log, JOYCON_INIT);
  }

  /** When the search settles on joycon2cpp, the two profiles before it did not work and its four init commands were
      written, nothing else before them. */
  lemma JoyconWinsAfterInit(c: Config, s: Sys)
    ensures var (_, attempts, winner) := Search(c, s, AUTO_PROFILE_ORDER);
            winner == Some(JOYCON2CPP.name) ==>
              |attempts| == 3 && !attempts[0].success && !attempts[1].success && Written(attempts[2].log, JOYCON_INIT)
  {
    var (t, attempts, winner) := Search(c, s, AUTO_PROFILE_ORDER);
    SearchSettles(c, s, AUTO_PROFILE_ORDER);
    FromSettled(c, t, attempts, winner);
  }

  lemma FromSettled(c: Config, t: Sys, attempts: seq<Attempt>, winner: Option<string>)
    requires Settled(c, AUTO_PROFILE_ORDER, t, attempts, winner)
    ensures winner == Some(JOYCON2CPP.name) ==>
              |attempts| == 3 && !attempts[0].success && !attempts[1].success && Written(attempts[2].log, JOYCON_INIT)
  {
    if winner == Some(JOYCON2CPP.name) {
      var last := |attempts| - 1;
      assert Recorded(c, AUTO_PROFILE_ORDER[last], attempts[last]);
      JoyconIsThird(last);
      JoyconRecord(c, attempts[2]);
    }
  }

  /** A report accepted during a subscription call that then fails does not make a winner: so it is for every
      profile that subscribes to one characteristic and writes no commands. */
  lemma ReportIsNotEnough(p: Profile, target: Characteristic, s: Sys)
    requires p.strategy.Selected? && p.handleFilter.None? && p.commandUuid.None? && p.init == [] && !Pairs(p)
    requires target.uuid in p.inputUuids && target.handle > 0
    requires !s.shutdown && s.script == [
               Turn(true, false, [], []), Turn(true, false, [], []),
               Turn(true, false, [target], []), Turn(false, false, [], [Some(target.handle)])]
    ensures var (t, ok) := Session(Config(None, 1, 1, 0), p, s); !ok && t.reports == 1
  {
    var c := Config(None, 1, 1, 0);
    var s0 := Reset(s);
    var s1 := Waited(p, s0);
    var s2 := Waited(p, s1);
    var s3 := DiscoverOne(c, p, target, s2);
    var s4 := StartNotify(p, s3);
    assert Accepted(p, [Some(target.handle)]) == 1 by {
      assert [Some(target.handle)][..0] == [] && Accepted(p, []) == 0;
    }
    assert SubscribeSelected(p, s3, 1) == (s4, false) by { assert SubscribeSelected(p, s4, 0) == (s4, false); }
    assert RunStages(c, p, s3, [SUBSCRIBE]) == (s4, Failed);
    assert Init(p, s3) == (s3, true);
    assert [INIT, SUBSCRIBE][1..] == [SUBSCRIBE];
    assert RunStages(c, p, s3, [INIT, SUBSCRIBE]) == (s4, Failed);
    FirstThree(c, p, s0, s1, s2, s3, (s4, Failed));
  }

  lemma DiscoverOne(c: Config, p: Profile, target: Characteristic, s: Sys) returns (t: Sys)
    requires p.strategy.Selected? && p.commandUuid.None? && !Pairs(p)
    requires target.uuid in p.inputUuids && target.handle > 0
    requires c.gattRetries == 1 && Next(s).ok && Next(s).services == [target]
    ensures t == Waited(p, s).(services := [target], handles := t.handles) && t.handles.uuid == Some(target.uuid)
    ensures Discover(c, p, s) == (t, true)
  {
    t := Waited(p, s).(services := [target], handles := Match(p, [target]));
    assert [target][..0] == [] && Match(p, []) == NO_HANDLES;
  }

  lemma FirstThree(c: Config, p: Profile, s0: Sys, s1: Sys, s2: Sys, s3: Sys, r: (Sys, Outcome))
    requires !Pairs(p) && c.connectRetries == 1 && !s0.shutdown && !s1.shutdown && !s2.shutdown
    requires Next(s0).ok && s1 == Waited(p, s0) && Next(s1).ok && s2 == Waited(p, s1)
    requires Discover(c, p, s2) == (s3, true)
    requires RunStages(c, p, s3, [INIT, SUBSCRIBE]) == r
    ensures RunStages(c, p, s0, Stages(p)) == r
  {
    assert Stages(p) == [SCAN, CONNECT, DISCOVER, INIT, SUBSCRIBE];
    assert Stages(p)[1..] == [CONNECT, DISCOVER, INIT, SUBSCRIBE];
    assert [CONNECT, DISCOVER, INIT, SUBSCRIBE][1..] == [DISCOVER, INIT, SUBSCRIBE];
    assert [DISCOVER, INIT, SUBSCRIBE][1..] == [INIT, SUBSCRIBE];
    assert RunStages(c, p, s2, [DISCOVER, INIT, SUBSCRIBE]) == r;
    assert RunStages(c, p, s1, [CONNECT, DISCOVER, INIT, SUBSCRIBE]) == r;
  }
}
