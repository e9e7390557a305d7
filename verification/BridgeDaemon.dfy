/** The bridge in its own form: global variables changed by event handlers. Each handler is proved to do
    what Bridge.Step says, so the invariants of Bridge and BridgeWorld hold of these globals. */
module BridgeDaemon {
  import opened Bytes
  import opened Bridge
  import Advertising

  class BridgeDaemon {
    const variant: Variant
    var appState: AppState
    var remote: Address
    var conn: Word
    var services: seq<(Word, Word)>
    var command: Characteristic
    var input: Characteristic
    var pairStep: int
    // history
    var requests: seq<Request>
    var entry: Entry

    function Abs(): Globals
      reads this
    {
      Globals(appState, conn, remote, services, command, input, pairStep, requests, entry)
    }

    constructor (variant: Variant)
      ensures this.variant == variant && Abs() == INITIAL
    {
      this.variant := variant;
      appState, remote, conn, services := Scanning, INITIAL.remote, INVALID_HANDLE, [];
      command, input, pairStep, requests, entry := EMPTY, EMPTY, 0, [], INITIAL.entry;
    }

    method Request(r: Request)
      modifies this`requests
      ensures requests == old(requests) + [r]
    {
      requests := requests + [r];
    }

    // build_cmd, into the caller's 32-byte buffer
    method BuildCmd(id: Byte, sub: Byte, data: Data, out: array<Byte>) returns (length: nat)
      requires |data| <= 24 && out.Length == 32
      modifies out
      ensures length == 8 + |data| && out[..length] == Command(id, sub, data)
    {
      out[0], out[1], out[2], out[3] := id, 0x91, 0x01, sub;
      out[4], out[5], out[6], out[7] := 0x00, |data|, 0x00, 0x00;
      forall i | 0 <= i < |data| { out[8 + i] := data[i]; }
      length := 8 + |data|;
      assert out[8..length] == data;
      assert out[..8] == [id, 0x91, 0x01, sub, 0x00, |data|, 0x00, 0x00];
      assert out[..length] == out[..8] + out[8..length];
    }

    method WriteStep()
      modifies this`requests
      ensures Abs() == WritePairStep(old(Abs()))
    {
      var payload := new Byte[32](_ => 0);
      var length;
      match pairStep {
        case 0 =>
          var setmac: Data := [0x00, 0x02] + HOST_MAC + HOST_MAC;
          length := BuildCmd(0x15, 0x01, setmac, payload);
        case 1 => length := BuildCmd(0x15, 0x04, PAIR_KEY_1, payload);
        case 2 => length := BuildCmd(0x15, 0x02, PAIR_KEY_2, payload);
        case 3 => length := BuildCmd(0x15, 0x03, [0x00], payload);
        case _ => return;
      }
      assert payload[..length] == PairPayload(pairStep);
      Request(Write(conn, command.valueHandle, payload[..length]));
    }

    method BeginDiscovery()
      modifies this
      ensures Abs() == StartDiscovery(old(Abs()))
    {
      appState := CharDiscovering;
      services := [];
      command, input := EMPTY, EMPTY;
      Request(Discover(conn, UUID_INPUT_REPORT));
    }

    method QueryCompleted(att: Byte)
      modifies this
      ensures Abs() == OnQueryComplete(old(Abs()), att)
    {
      if att != SUCCESS { return; }
      if appState == CharDiscovering {
        if input.valueHandle == 0 {
          Request(Discover(conn, UUID_INPUT_REPORT));
          return;
        }
        if command.valueHandle == 0 {
          Request(Discover(conn, UUID_COMMAND_WRITE));
          return;
        }
        appState := Pairing;
        pairStep := 0;
        entry := Entry(|requests|, conn, command, input);
        WriteStep();
      } else if appState == Pairing {
        pairStep := pairStep + 1;
        if pairStep < 4 {
          WriteStep();
        } else {
          appState := Notifying;
          Request(Configure(conn, input));
        }
      } else if appState == Notifying {
        appState := Ready;
      }
    }

    method GattClientHandler(e: Event)
      requires e.ServiceResult? || e.CharacteristicResult? || e.QueryComplete? || e.ValueResult? || e.Other?
      modifies this
      ensures Abs() == Step(variant, old(Abs()), e)
    {
      match e
      case ServiceResult(start, end) =>
        if |services| < 32 { services := services + [(start, end)]; }
      case CharacteristicResult(c) =>
        if input.valueHandle == 0 {
          input := c;
        } else if command.valueHandle == 0 {
          command := c;
        }
      case QueryComplete(att) => QueryCompleted(att);
      case _ =>
    }

    method SmPacketHandler(e: Event)
      requires e.NumericComparison? || e.JustWorks? || e.PairingComplete?
      modifies this
      ensures Abs() == Step(variant, old(Abs()), e)
    {
      match e
      case JustWorks => appState := WaitEncryption;
      case PairingComplete(_) => if appState == WaitEncryption { BeginDiscovery(); }
      case _ =>
    }

    // Advertising data arrives with an 8-bit length.
    method PacketHandler(e: Event)
      requires !e.NumericComparison? && !e.JustWorks? && !e.PairingComplete?
      requires e.Advertisement? ==> |e.data| <= 0xFF
      modifies this
      ensures Abs() == Step(variant, old(Abs()), e)
    {
      if e.BtstackState? {
        if e.working { appState := Scanning; }
      } else if e.Advertisement? {
        if appState != Scanning { return; }
        var nintendo := Advertising.AdvIsNintendo(e.data);
        if !nintendo { return; }
        remote := e.address;
        appState := Connecting;
      } else if e.LeConnectionComplete? {
        conn := e.handle;
        if e.status != SUCCESS {
          appState := Scanning;
        } else if variant.WithSmp? {
          appState := Connected;
        } else {
          BeginDiscovery();
        }
      } else if e.EncryptionChange? {
        if appState == WaitEncryption { BeginDiscovery(); }
      } else if e.DisconnectionComplete? {
        conn := INVALID_HANDLE;
        command, input := EMPTY, EMPTY;
        services := [];
        appState := Scanning;
      } else {
        GattClientHandler(e);
      }
    }

    /** Handling one event keeps the pair sequence in order and does what the step function says. */
    method Handle(e: Event)
      requires e.Advertisement? ==> |e.data| <= 0xFF
      requires InSequence(Abs())
      modifies this
      ensures Abs() == Step(variant, old(Abs()), e)
      ensures InSequence(Abs())
    {
      StepKeepsSequence(variant, Abs(), e);
      if e.NumericComparison? || e.JustWorks? || e.PairingComplete? {
        SmPacketHandler(e);
      } else {
        PacketHandler(e);
      }
    }
  }
}
