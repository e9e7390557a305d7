/** switch2_btstack_bridge.c: an event-driven state machine. Its two builds differ in what a new
    connection does: ask for pairing and wait for encryption, or go straight to discovery
    (btstack-upstream/example). */
module Bridge {
  import opened Bytes
  import Advertising

  const UUID_INPUT_REPORT: Block :=
    [0xab, 0x7d, 0xe9, 0xbe, 0x89, 0xfe, 0x49, 0xad, 0x82, 0x8f, 0x11, 0x8f, 0x09, 0xdf, 0x7f, 0xd2]
  const UUID_COMMAND_WRITE: Block :=
    [0x64, 0x9d, 0x4a, 0xc9, 0x8e, 0xb7, 0x4e, 0x6c, 0xaf, 0x44, 0x1e, 0xa5, 0x4f, 0xe5, 0xf0, 0x05]

  const PAIR_KEY_1: Data :=
    [0x00, 0xea, 0xbd, 0x47, 0x13, 0x89, 0x35, 0x42, 0xc6, 0x79, 0xee, 0x07, 0xf2, 0x53, 0x2c, 0x6c, 0x31]
  const PAIR_KEY_2: Data :=
    [0x00, 0x40, 0xb0, 0x8a, 0x5f, 0xcd, 0x1f, 0x9b, 0x41, 0x12, 0x5c, 0xac, 0xc6, 0x3f, 0x38, 0xa0, 0x73]
  const HOST_MAC: Address := [0xD8, 0x3A, 0xDD, 0xE5, 0x69, 0xED]

  const INVALID_HANDLE: Word := 0xffff
  const SUCCESS: Byte := 0x00

  datatype Variant = WithSmp | Direct

  datatype AppState = Scanning | Connecting | Connected | CharDiscovering | WaitEncryption | Pairing | Notifying | Ready

  /** gatt_client_characteristic_t; the zero value marks an empty slot. */
  datatype Characteristic = Characteristic(valueHandle: Word, uuid: Block)
  const EMPTY := Characteristic(0, [0, 0, 0, 0, 0, 0, 0, 0, 0, 0, 0, 0, 0, 0, 0, 0])

  datatype Event =
    // the HCI handler
    | BtstackState(working: bool)
    | Advertisement(data: Data, address: Address)
    | LeConnectionComplete(handle: Word, status: Byte)
    | EncryptionChange(status: Byte)
    | DisconnectionComplete
    // the SM handler
    | NumericComparison
    | JustWorks
    | PairingComplete(status: Byte)
    // the GATT handler, which also gets every event the HCI handler does not know
    | ServiceResult(start: Word, end: Word)
    | CharacteristicResult(characteristic: Characteristic)
    | QueryComplete(att: Byte)
    | ValueResult(handle: Word, value: Data)
    | Other

  /** The GATT requests the bridge makes. */
  datatype Request =
    | Discover(conn: Word, uuid: Block)
    | Write(conn: Word, valueHandle: Word, payload: Data)
    | Configure(conn: Word, characteristic: Characteristic)

  /** The globals, with the requests made so far. `entry` remembers how many had been made, and what conn
      handle and characteristics there were, when the pair sequence was last entered. */
  datatype Globals = Globals(
    appState: AppState, conn: Word, remote: Address, services: seq<(Word, Word)>,
    command: Characteristic, input: Characteristic, pairStep: int,
    requests: seq<Request>, entry: Entry)

  datatype Entry = Entry(requests: nat, conn: Word, command: Characteristic, input: Characteristic)

  // ---------- commands ----------

  // build_cmd
  function Command(id: Byte, sub: Byte, data: Data): Data
    requires |data| < 0x100
  {
    [id, 0x91, 0x01, sub, 0x00, |data|, 0x00, 0x00] + data
  }

  function PairPayload(step: nat): Data
    requires step < 4
  {
    match step
    case 0 => Command(0x15, 0x01, [0x00, 0x02] + HOST_MAC + HOST_MAC)
    case 1 => Command(0x15, 0x04, PAIR_KEY_1)
    case 2 => Command(0x15, 0x02, PAIR_KEY_2)
    case 3 => Command(0x15, 0x03, [0x00])
  }

  // ---------- the handlers as a step function ----------

  function Ask(g: Globals, r: Request): Globals {
    g.(requests := g.requests + [r])
  }

  function StartDiscovery(g: Globals): Globals {
    Ask(g.(appState := CharDiscovering, services := [], command := EMPTY, input := EMPTY),
             Discover(g.conn, UUID_INPUT_REPORT))
  }

  // write_pair_step: any other step writes nothing.
  function WritePairStep(g: Globals): Globals {
    if 0 <= g.pairStep < 4 then Ask(g, Write(g.conn, g.command.valueHandle, PairPayload(g.pairStep))) else g
  }

  function EnterPairing(g: Globals): Globals {
    WritePairStep(g.(appState := Pairing, pairStep := 0, entry := Entry(|g.requests|, g.conn, g.command, g.input)))
  }

  function OnQueryComplete(g: Globals, att: Byte): Globals {
    if att != SUCCESS then g
    else match g.appState
      case CharDiscovering =>
        if g.input.valueHandle == 0 then Ask(g, Discover(g.conn, UUID_INPUT_REPORT))
        else if g.command.valueHandle == 0 then Ask(g, Discover(g.conn, UUID_COMMAND_WRITE))
        else EnterPairing(g)
      case Pairing =>
        var g := g.(pairStep := g.pairStep + 1);
        if g.pairStep < 4 then WritePairStep(g)
        else Ask(g.(appState := Notifying), Configure(g.conn, g.input))
      case Notifying => g.(appState := Ready)
      case _ => g
  }

  function Step(variant: Variant, g: Globals, e: Event): Globals {
    match e
    case BtstackState(working) => if working then g.(appState := Scanning) else g
    case Advertisement(data, address) =>
      if g.appState != Scanning || !Advertising.HasNintendo(data) then g
      else g.(remote := address, appState := Connecting)
    case LeConnectionComplete(handle, status) =>
      var g := g.(conn := handle);
      if status != SUCCESS then g.(appState := Scanning)
      else if variant.WithSmp? then g.(appState := Connected)
      else StartDiscovery(g)
    case EncryptionChange(_) => if g.appState == WaitEncryption then StartDiscovery(g) else g
    case DisconnectionComplete =>
      g.(conn := INVALID_HANDLE, command := EMPTY, input := EMPTY, services := [], appState := Scanning)
    case NumericComparison => g
    case JustWorks => g.(appState := WaitEncryption)
    case PairingComplete(_) => if g.appState == WaitEncryption then StartDiscovery(g) else g
    case ServiceResult(start, end) => if |g.services| < 32 then g.(services := g.services + [(start, end)]) else g
    case CharacteristicResult(c) =>
      if g.input.valueHandle == 0 then g.(input := c)
      else if g.command.valueHandle == 0 then g.(command := c)
      else g
    case QueryComplete(att) => OnQueryComplete(g, att)
    case ValueResult(_, _) => g
    case Other => g
  }

  function Run(variant: Variant, g: Globals, events: seq<Event>): Globals {
    if events == [] then g else Step(variant, Run(variant, g, events[..|events| - 1]), events[|events| - 1])
  }

  const INITIAL := Globals(Scanning, INVALID_HANDLE, [0, 0, 0, 0, 0, 0], [], EMPTY, EMPTY, 0, [],
                           Entry(0, 0, EMPTY, EMPTY))

  // ---------- the pair sequence under any events whatever ----------

  /** The first n writes of the pair sequence on one connection and characteristic. */
  function PairWrites(conn: Word, valueHandle: Word, n: nat): (w: seq<Request>)
    requires n <= 4
    ensures |w| == n
  {
    if n == 0 then [] else PairWrites(conn, valueHandle, n - 1) + [Write(conn, valueHandle, PairPayload(n - 1))]
  }

  ghost predicate SinceEntry(g: Globals, made: seq<Request>) {
    && g.entry.requests <= |g.requests| && g.requests[g.entry.requests..] == made
    && g.conn == g.entry.conn && g.command == g.entry.command && g.input == g.entry.input
    && g.command.valueHandle != 0 && g.input.valueHandle != 0
  }

  /** In the pair sequence exactly the writes up to the current step have been requested since it was
      entered; once it is over, all four and then one notification configuration; and the connection and
      both characteristics are those it was entered with. */
  ghost predicate InSequence(g: Globals) {
    && (g.appState == Pairing ==>
          0 <= g.pairStep < 4 && SinceEntry(g, PairWrites(g.conn, g.command.valueHandle, g.pairStep + 1)))
    && (g.appState in {Notifying, Ready} ==>
          SinceEntry(g, PairWrites(g.conn, g.command.valueHandle, 4) + [Configure(g.conn, g.input)]))
  }

  lemma EntryStartsSequence(g: Globals)
    requires g.command.valueHandle != 0 && g.input.valueHandle != 0
    ensures InSequence(EnterPairing(g))
  {
    var h := EnterPairing(g);
    assert h.requests[h.entry.requests..] == [h.requests[|g.requests|]];
    assert PairWrites(h.conn, h.command.valueHandle, 0) == [];
  }

  // The next write of the sequence, or the configuration behind the last.
  lemma CompletionAdvances(g: Globals)
    requires InSequence(g) && g.appState == Pairing
    ensures InSequence(OnQueryComplete(g, SUCCESS))
  {
    var h := OnQueryComplete(g, SUCCESS);
    assert h.requests[g.entry.requests..] == g.requests[g.entry.requests..] + [h.requests[|g.requests|]];
  }

  lemma StepKeepsSequence(variant: Variant, g: Globals, e: Event)
    requires InSequence(g)
    ensures InSequence(Step(variant, g, e))
  {
    if e.QueryComplete? && e.att == SUCCESS {
      if g.appState == Pairing {
        CompletionAdvances(g);
      } else if g.appState == CharDiscovering && g.input.valueHandle != 0 && g.command.valueHandle != 0 {
        EntryStartsSequence(g);
      }
    }
  }

  /** Every sequence of events, in any order and from any handler, keeps the pair sequence in order. */
  lemma {:induction false} PairSequenceInOrder(variant: Variant, events: seq<Event>)
    ensures InSequence(Run(variant, INITIAL, events))
  {
    if events != [] {
      PairSequenceInOrder(variant, events[..|events| - 1]);
      StepKeepsSequence(variant, Run(variant, INITIAL, events[..|events| - 1]), events[|events| - 1]);
    }
  }

  /** While the bridge is connecting, the address it connects to is that of the last advertisement it took, and that
      one named the manufacturer. */
  lemma {:induction false} ConnectsToAdvertiser(variant: Variant, events: seq<Event>)
    ensures var g := Run(variant, INITIAL, events);
            g.appState == Connecting ==>
              exists i :: 0 <= i < |events| && events[i].Advertisement? && Advertising.HasNintendo(events[i].data)
                          && events[i].address == g.remote
  {
    if events != [] {
      var n := |events| - 1;
      var before := Run(variant, INITIAL, events[..n]);
      ConnectsToAdvertiser(variant, events[..n]);
      var g := Run(variant, INITIAL, events);
      if g.appState == Connecting && before.appState == Connecting {
        var i :| 0 <= i < n && events[..n][i].Advertisement? && Advertising.HasNintendo(events[..n][i].data)
                 && events[..n][i].address == before.remote;
        assert events[i] == events[..n][i] && g.remote == before.remote;
      } else if g.appState == Connecting {
        assert events[n].Advertisement? && g.remote == events[n].address;
      }
    }
  }
}
