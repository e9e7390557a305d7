/** switch2d.py: sessions run as a list of stages, and the search for a profile that works. The world is a script:
    every awaited call takes one turn, which says whether the call succeeds, whether a signal asks for shutdown
    meanwhile, and which notifications are delivered meanwhile. */
module Runner {
  import opened Bytes
  import opened Wrappers
  import Bridge

  // ---------- profiles ----------

  datatype Strategy = Selected | All

  /** ProtocolProfile, as far as it steers a session. */
  datatype Profile = Profile(name: string, inputUuids: seq<string>, commandUuid: Option<string>, init: seq<Data>,
                             strategy: Strategy, handleFilter: Option<nat>)

  const JOYCON_INIT: seq<Data> := [
    [0x0c, 0x91, 0x01, 0x02, 0x00, 0x04, 0x00, 0x00, 0xff, 0x00, 0x00, 0x00],
    [0x0c, 0x91, 0x01, 0x04, 0x00, 0x04, 0x00, 0x00, 0xff, 0x00, 0x00, 0x00],
    [0x09, 0x91, 0x01, 0x07, 0x00, 0x08, 0x00, 0x00, 0x01, 0x00, 0x00, 0x00, 0x00, 0x00, 0x00, 0x00],
    [0x0a, 0x91, 0x01, 0x02, 0x00, 0x08, 0x00, 0x00, 0x04, 0x00, 0x00, 0x00, 0x00, 0x00, 0x00, 0x00]]

  const INPUT_MACOS := "7492866c-ec3e-4619-8258-32755ffcc0f9"
  const INPUT_JOYCON := "ab7de9be-89fe-49ad-828f-118f09df7fd2"
  const COMMAND_JOYCON := "649d4ac9-8eb7-4e6c-af44-1ea54fe5f005"
  const COMMAND_RESPONSE := "c765a961-d9d8-4d36-a20a-5315b111836a"

  const MACOS := Profile("macos", [INPUT_MACOS], None, [], Selected, None)
  const SPRO2WIN := Profile("spro2win", [], None, [], All, Some(45))
  const JOYCON2CPP := Profile("joycon2cpp", [INPUT_JOYCON], Some(COMMAND_JOYCON), JOYCON_INIT, Selected, None)
  const JOYCON2CPP_PAIR := JOYCON2CPP.(name := "joycon2cpp-pair")

  const AUTO_PROFILE_ORDER := [MACOS, SPRO2WIN, JOYCON2CPP]

  predicate Pairs(p: Profile) {
    |p.name| >= 5 && p.name[|p.name| - 5..] == "-pair"
  }

  // ---------- commands ----------

  const KEY_1: Data :=
    [0x00, 0xea, 0xbd, 0x47, 0x13, 0x89, 0x35, 0x42, 0xc6, 0x79, 0xee, 0x07, 0xf2, 0x53, 0x2c, 0x6c, 0x31]
  const KEY_2: Data :=
    [0x00, 0x40, 0xb0, 0x8a, 0x5f, 0xcd, 0x1f, 0x9b, 0x41, 0x12, 0x5c, 0xac, 0xc6, 0x3f, 0x38, 0xa0, 0x73]

  const PAIR_CMD: Byte := 0x15
  const SUB_SET_MAC: Byte := 0x01
  const SUB_KEY_1: Byte := 0x04
  const SUB_KEY_2: Byte := 0x02
  const SUB_FINISH: Byte := 0x03

  function BuildCommand(id: Byte, sub: Byte, data: Data): Data
    requires |data| < 0x100
  {
    [id, 0x91, 0x01, sub, 0x00, |data|, 0x00, 0x00] + data
  }

  function PairFrames(mac: Address): (frames: seq<Data>)
    ensures |frames| == 4
  {
    [BuildCommand(PAIR_CMD, SUB_SET_MAC, [0x00, 0x02] + mac + mac), BuildCommand(PAIR_CMD, SUB_KEY_1, KEY_1),
     BuildCommand(PAIR_CMD, SUB_KEY_2, KEY_2), BuildCommand(PAIR_CMD, SUB_FINISH, [0x00])]
  }

  const STEP_NAMES := ["setmac", "key1", "key2", "finish"]

  /** The bridge writes the frames this runner writes, step by step, for the same host address. */
  lemma BridgeWritesTheSameFrames(step: nat)
    requires step < 4
    ensures Bridge.PairPayload(step) == PairFrames(Bridge.HOST_MAC)[step]
  {
    if step == 1 || step == 2 {
      assert KEY_1 == Bridge.PAIR_KEY_1 && KEY_2 == Bridge.PAIR_KEY_2;
    }
  }

  // ---------- the world and the state ----------

  /** A characteristic as the client lists it; handle 0 is as good as none to this program. */
  datatype Characteristic = Characteristic(uuid: string, handle: nat, notify: bool)

  /** One awaited call: `reports` are the sender handles of the notifications delivered meanwhile. */
  datatype Turn = Turn(ok: bool, shutdown: bool, services: seq<Characteristic>, reports: seq<Option<nat>>)

  const SILENT := Turn(false, false, [], [])

  datatype Config = Config(hostMac: Option<Address>, connectRetries: nat, gattRetries: nat, maxReports: nat)

  /** What went out to the controller in one session. */
  datatype Entry = Wrote(payload: Data) | NotWritten(payload: Data) | Notify(ok: bool)

  datatype Handles = Handles(input: nat, uuid: Option<string>, command: nat, response: nat)
  const NO_HANDLES := Handles(0, None, 0, 0)

  /** DaemonState. `listening` tells that the report handler has been handed to the client. */
  datatype Sys = Sys(script: seq<Turn>, shutdown: bool, services: seq<Characteristic>, handles: Handles,
                     listening: bool, reports: nat, total: nat, pairOk: bool, failure: Option<string>, log: seq<Entry>)

  function Next(s: Sys): Turn {
    if s.script == [] then SILENT else s.script[0]
  }

  // handle_report's filter: a sender without a handle passes it.
  predicate Accepts(p: Profile, sender: Option<nat>) {
    p.handleFilter.None? || sender.None? || sender == p.handleFilter
  }

  function Accepted(p: Profile, reports: seq<Option<nat>>): nat {
    if reports == [] then 0
    else Accepted(p, reports[..|reports| - 1]) + if Accepts(p, reports[|reports| - 1]) then 1 else 0
  }

  function Heard(p: Profile, s: Sys): nat {
    if s.listening then Accepted(p, Next(s).reports) else 0
  }

  // One awaited call.
  function Waited(p: Profile, s: Sys): Sys {
    s.(script := if s.script == [] then [] else s.script[1..], shutdown := s.shutdown || Next(s).shutdown,
       reports := s.reports + Heard(p, s), total := s.total + Heard(p, s))
  }

  function Logged(s: Sys, e: Entry): Sys {
    s.(log := s.log + [e])
  }

  // What a stage that neither writes commands nor subscribes to the input leaves alone.
  predicate Quiet(s: Sys, t: Sys) {
    t.log == s.log && t.listening == s.listening && t.pairOk == s.pairOk && (!s.listening ==> t.reports == s.reports)
  }

  function Reset(s: Sys): Sys {
    s.(services := [], handles := NO_HANDLES, listening := false,
       reports := 0, pairOk := false, failure := None, log := [])
  }

  // ---------- the stages ----------

  function Connect(c: Config, p: Profile, s: Sys, attempts: nat): (r: (Sys, bool))
    ensures Quiet(s, r.0)
    decreases attempts
  {
    if attempts == 0 then (s, false)
    else if Next(s).ok then (Waited(p, s), true)
    else Connect(c, p, Waited(p, s), attempts - 1)
  }

  function GetServices(p: Profile, s: Sys, attempts: nat): (r: Sys)
    ensures Quiet(s, r)
    decreases attempts
  {
    if attempts == 0 then s.(services := [])
    else if Next(s).ok && Next(s).services != [] then Waited(p, s).(services := Next(s).services)
    else GetServices(p, Waited(p, s), attempts - 1)
  }

  // The walk over the characteristics: the first with an input UUID, the last with the command's, the last with
  // the response's.
  function Match(p: Profile, chars: seq<Characteristic>): Handles {
    if chars == [] then NO_HANDLES
    else
      var h, last := Match(p, chars[..|chars| - 1]), chars[|chars| - 1];
      var h := if p.strategy.Selected? && h.input == 0 && last.uuid in p.inputUuids
               then h.(input := last.handle, uuid := Some(last.uuid)) else h;
      var h := if p.commandUuid == Some(last.uuid) then h.(command := last.handle) else h;
      if last.uuid == COMMAND_RESPONSE then h.(response := last.handle) else h
  }

  function Discover(c: Config, p: Profile, s: Sys): (r: (Sys, bool))
    ensures Quiet(s, r.0)
  {
    var s := GetServices(p, s, c.gattRetries);
    if s.services == [] then (s, false)
    else
      var s := s.(handles := Match(p, s.services));
      if p.strategy.Selected? && s.handles.input == 0 then (s, false)
      else if p.commandUuid.Some? && s.handles.command == 0 then (s, false)
      else if Pairs(p) && s.handles.response != 0 then (Waited(p, s), Next(s).ok)
      else (s, true)
  }

  // The first n frames written, and the one after them not.
  function Attempted(frames: seq<Data>, n: nat): (log: seq<Entry>)
    requires n <= |frames|
  {
    seq(n, i requires 0 <= i < n => Wrote(frames[i])) + if n < |frames| then [NotWritten(frames[n])] else []
  }

  // Command writes up to the first that fails, with the number of those that went out.
  function Writes(p: Profile, s: Sys, frames: seq<Data>): (r: (Sys, nat))
    ensures r.1 <= |frames| && r.0.log == s.log + Attempted(frames, r.1)
    ensures Quiet(s, r.0.(log := s.log)) && r.0.handles == s.handles
    decreases |frames|
  {
    if frames == [] then (s, 0)
    else if !Next(s).ok then (Logged(Waited(p, s), NotWritten(frames[0])), 0)
    else
      var (t, n) := Writes(p, Logged(Waited(p, s), Wrote(frames[0])), frames[1..]);
      (t, n + 1)
  }

  // stage_pair, behind run_session's test of the profile's name
  function Pair(c: Config, p: Profile, s: Sys): (Sys, bool) {
    if c.hostMac.None? then (s.(failure := Some("host_mac")), false)
    else if s.handles.command == 0 then (s.(failure := Some("no_cmd_handle")), false)
    else
      var (t, n) := Writes(p, s, PairFrames(c.hostMac.value));
      if n < 4 then (t.(failure := Some(STEP_NAMES[n])), false) else (t.(pairOk := true), true)
  }

  function Init(p: Profile, s: Sys): (Sys, bool) {
    var (t, n) := Writes(p, s, p.init);
    (t, n == |p.init|)
  }

  // start_notify hands the handler over before it succeeds or fails.
  function StartNotify(p: Profile, s: Sys): Sys {
    Logged(Waited(p, s.(listening := true)), Notify(Next(s).ok))
  }

  function SubscribeSelected(p: Profile, s: Sys, attempts: nat): (Sys, bool)
    decreases attempts
  {
    if attempts == 0 then (s, false)
    else if Next(s).ok then (StartNotify(p, s), true)
    else SubscribeSelected(p, StartNotify(p, s), attempts - 1)
  }

  function SubscribeAll(p: Profile, s: Sys, chars: seq<Characteristic>): (Sys, bool)
    decreases |chars|
  {
    if chars == [] then (s, false)
    else if !chars[0].notify then SubscribeAll(p, s, chars[1..])
    else
      var (t, more) := SubscribeAll(p, StartNotify(p, s), chars[1..]);
      (t, Next(s).ok || more)
  }

  function Subscribe(c: Config, p: Profile, s: Sys): (Sys, bool) {
    if p.strategy.All? then SubscribeAll(p, s, s.services)
    else if s.handles.uuid.None? then (s, false)
    else SubscribeSelected(p, s, c.gattRetries)
  }

  datatype Stage = SCAN | CONNECT | DISCOVER | PAIR | INIT | SUBSCRIBE

  function Stages(p: Profile): seq<Stage> {
    [SCAN, CONNECT, DISCOVER] + (if Pairs(p) then [PAIR] else []) + [INIT, SUBSCRIBE]
  }

  function RunStage(c: Config, p: Profile, s: Sys, stage: Stage): (Sys, bool) {
    match stage
    case SCAN => (Waited(p, s), Next(s).ok)
    case CONNECT => Connect(c, p, s, c.connectRetries)
    case DISCOVER => Discover(c, p, s)
    case PAIR => Pair(c, p, s)
    case INIT => Init(p, s)
    case SUBSCRIBE => Subscribe(c, p, s)
  }

  // ---------- sessions ----------

  datatype Outcome = Passed | Failed | Stopped

  function RunStages(c: Config, p: Profile, s: Sys, stages: seq<Stage>): (Sys, Outcome)
    decreases |stages|
  {
    if stages == [] then (s, Passed)
    else if s.shutdown then (s, Stopped)
    else
      var (t, ok) := RunStage(c, p, s, stages[0]);
      if ok then RunStages(c, p, t, stages[1..]) else (t, Failed)
  }

  // The wait for reports: until shutdown, an error, a wait without an accepted report, or the wanted number.
  function Receive(c: Config, p: Profile, s: Sys): (r: Sys)
    ensures r.log == s.log && r.pairOk == s.pairOk && r.reports >= s.reports && r.listening == s.listening
    decreases |s.script|
  {
    if s.shutdown || s.script == [] then s
    else if !Next(s).ok || Heard(p, s) == 0 then Waited(p, s)
    else if 0 < c.maxReports <= Waited(p, s).reports then Waited(p, s)
    else Receive(c, p, Waited(p, s))
  }

  // cleanup_client: the handler can still be called while the client is being disconnected.
  function Cleaned(p: Profile, s: Sys): Sys {
    Waited(p, s).(listening := false)
  }

  // run_session
  function Session(c: Config, p: Profile, s: Sys): (Sys, bool) {
    var (t, outcome) := RunStages(c, p, Reset(s), Stages(p));
    match outcome
    case Stopped => (t, true)
    case Failed => (Cleaned(p, t), false)
    case Passed =>
      var u := Cleaned(p, Receive(c, p, t));
      (u, u.reports > 0)
  }

  /** An entry of attempted_profiles, with what went out in its session. */
  datatype Attempt = Attempt(profile: string, success: bool, reports: nat, log: seq<Entry>)

  // auto_detect_mode, over any order of profiles: the attempts and the winner.
  function Search(c: Config, s: Sys, order: seq<Profile>): (Sys, seq<Attempt>, Option<string>)
    decreases |order|
  {
    if order == [] || s.shutdown then (s, [], None)
    else
      var p := order[0];
      var (t, ok) := Session(c, p, s);
      var attempt := Attempt(p.name, ok && t.reports > 0, t.reports, t.log);
      if attempt.success then (t, [attempt], Some(p.name))
      else
        var (u, attempts, winner) := Search(c, if |order| > 1 then Reset(t) else t, order[1..]);
        (u, [attempt] + attempts, winner)
  }

  function ExitCode(winner: Option<string>): int {
    if winner.Some? then 0 else 16
  }
}
