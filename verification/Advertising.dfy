/** The walkers over advertising data: sw2d_final.c, the BTstack bridge, and switch2d.py's parser. */
module Advertising {
  import opened Bytes
  import opened Wrappers

  /** One AD structure (section 11 of Core Specification Vol 3 Part C). */
  datatype AdStructure = AdStructure(kind: Byte, data: Data)

  const MANUFACTURER_SPECIFIC: Byte := 0xFF
  const NINTENDO_COMPANY: Word := 0x0553
  const NINTENDO_VID: Word := 0x057E
  const PRO_CONTROLLER_2: Word := 0x2069

  /** The structures of a block of advertising data, up to the first that is empty or does not fit. */
  function Structures(d: Data): seq<AdStructure> {
    if |d| < 2 || d[0] == 0 || d[0] > |d| - 1 then []
    else [AdStructure(d[1], d[2..1 + d[0]])] + Structures(d[1 + d[0]..])
  }

  predicate Encodable(a: AdStructure) {
    |a.data| < 0xFF
  }

  function Encode(list: seq<AdStructure>): Data
    requires forall a | a in list :: Encodable(a)
  {
    if list == [] then []
    else
      assert Encodable(list[0]);
      EncodeOne(list[0]) + Encode(list[1..])
  }

  function EncodeOne(a: AdStructure): Data
    requires Encodable(a)
  {
    var length: Byte := 1 + |a.data|;
    [length, a.kind] + a.data
  }

  lemma FirstStructure(a: AdStructure, rest: Data, d: Data)
    requires Encodable(a) && d == EncodeOne(a) + rest
    ensures Structures(d) == [a] + Structures(rest)
  {
    assert d[2..2 + |a.data|] == a.data;
    assert d[2 + |a.data|..] == rest;
  }

  /** Reading back what was encoded yields the structures, whatever follows them. */
  lemma {:induction false} StructuresOfEncoded(list: seq<AdStructure>, rest: Data)
    requires forall a | a in list :: Encodable(a)
    ensures Structures(Encode(list) + rest) == list + Structures(rest)
  {
    if list == [] {
      assert Encode(list) + rest == rest;
    } else {
      var tail := Encode(list[1..]) + rest;
      StructuresOfEncoded(list[1..], rest);
      Associates(EncodeOne(list[0]), Encode(list[1..]), rest);
      FirstStructure(list[0], tail, Encode(list) + rest);
      Prepended(list, Structures(rest));
    }
  }

  lemma Prepended(list: seq<AdStructure>, others: seq<AdStructure>)
    requires list != []
    ensures [list[0]] + (list[1..] + others) == list + others
  {
  }

  lemma Associates(a: Data, b: Data, c: Data)
    ensures (a + b) + c == a + (b + c)
  {
  }

  function Company(data: Data): Word
    requires |data| >= 2
  {
    Le16(data[0], data[1])
  }

  // Vendor and product at the given offset.
  predicate NamesController(data: Data, at: nat) {
    && at + 4 <= |data|
    && Le16(data[at], data[at + 1]) == NINTENDO_VID && Le16(data[at + 2], data[at + 3]) == PRO_CONTROLLER_2
  }

  predicate IsNintendo(a: AdStructure) {
    a.kind == MANUFACTURER_SPECIFIC && |a.data| >= 2 && Company(a.data) == NINTENDO_COMPANY
  }

  /** Vendor and product follow the company directly, or after three more bytes. */
  predicate IsSwitch2(a: AdStructure) {
    IsNintendo(a) && (NamesController(a.data, 2) || NamesController(a.data, 5))
  }

  predicate HasNintendo(d: Data) {
    exists a | a in Structures(d) :: IsNintendo(a)
  }

  predicate HasSwitch2(d: Data) {
    exists a | a in Structures(d) :: IsSwitch2(a)
  }

  // ---------- the walkers ----------

  // There is a structure at the cursor.
  predicate StructureAt(d: Data, at: nat) {
    at + 1 < |d| && d[at] != 0 && at + 1 + d[at] <= |d|
  }

  function ReadStructure(d: Data, at: nat): AdStructure
    requires StructureAt(d, at)
  {
    AdStructure(d[at + 1], d[at + 2..at + 1 + d[at]])
  }

  lemma Step(d: Data, at: nat)
    requires StructureAt(d, at)
    ensures Structures(d[at..]) == [ReadStructure(d, at)] + Structures(d[at + 1 + d[at]..])
  {
    var e := d[at..];
    assert e[2..1 + e[0]] == d[at + 2..at + 1 + d[at]];
    assert e[1 + e[0]..] == d[at + 1 + d[at]..];
  }

  lemma SearchSwitch2(d: Data, at: nat)
    requires StructureAt(d, at)
    ensures HasSwitch2(d[at..]) <==> IsSwitch2(ReadStructure(d, at)) || HasSwitch2(d[at + 1 + d[at]..])
  {
    Step(d, at);
    var a, rest := ReadStructure(d, at), Structures(d[at + 1 + d[at]..]);
    assert forall x :: x in [a] + rest <==> x == a || x in rest;
  }

  lemma SearchNintendo(d: Data, at: nat)
    requires StructureAt(d, at)
    ensures HasNintendo(d[at..]) <==> IsNintendo(ReadStructure(d, at)) || HasNintendo(d[at + 1 + d[at]..])
  {
    Step(d, at);
    var a, rest := ReadStructure(d, at), Structures(d[at + 1 + d[at]..]);
    assert forall x :: x in [a] + rest <==> x == a || x in rest;
  }

  // The bytes the walker looks at.
  lemma Switch2Bytes(d: Data, at: nat)
    requires StructureAt(d, at)
    ensures IsSwitch2(ReadStructure(d, at)) <==>
            && d[at + 1] == MANUFACTURER_SPECIFIC && d[at] >= 7
            && Le16(d[at + 2], d[at + 3]) == NINTENDO_COMPANY
            && (|| (Le16(d[at + 4], d[at + 5]) == NINTENDO_VID && Le16(d[at + 6], d[at + 7]) == PRO_CONTROLLER_2)
                || (d[at] >= 10 && Le16(d[at + 7], d[at + 8]) == NINTENDO_VID
                     && Le16(d[at + 9], d[at + 10]) == PRO_CONTROLLER_2))
  {
    var a := ReadStructure(d, at).data;
    assert forall k | 0 <= k < |a| :: a[k] == d[at + 2 + k];
  }

  /** adv_data_has_switch2_pro */
  method AdvDataHasSwitch2(data: Data) returns (found: bool)
    requires |data| <= 0xFF
    ensures found == HasSwitch2(data)
  {
    var di := 0;
    assert data[0..] == data;
    while di + 2 < |data|
      invariant 0 <= di <= |data|
      invariant HasSwitch2(data) == HasSwitch2(data[di..])
    {
      var el, ty := data[di], data[di + 1];
      if el == 0 || di + 1 + el > |data| { return false; }
      SearchSwitch2(data, di);
      Switch2Bytes(data, di);
      if ty == MANUFACTURER_SPECIFIC && el >= 7 {
        var m := di + 2;
        var cid, vid, pid := Le16(data[m], data[m + 1]), Le16(data[m + 2], data[m + 3]), Le16(data[m + 4], data[m + 5]);
        if cid == NINTENDO_COMPANY && vid == NINTENDO_VID && pid == PRO_CONTROLLER_2 { return true; }
        if cid == NINTENDO_COMPANY && el >= 10 {
          vid := Le16(data[m + 5], data[m + 6]);
          pid := Le16(data[m + 7], data[m + 8]);
        }
        if cid == NINTENDO_COMPANY && vid == NINTENDO_VID && pid == PRO_CONTROLLER_2 { return true; }
      }
      di := di + 1 + el;
    }
    NothingLeft(data[di..]);
    return false;
  }

  // Two bytes are too few for any manufacturer data.
  lemma NothingLeft(d: Data)
    requires |d| <= 2
    ensures !HasSwitch2(d)
  {
    if |d| == 2 && d[0] == 1 {
      assert d[1 + d[0]..] == d[2..] == [] && d[2..1 + d[0]] == [];
      assert Structures(d) == [AdStructure(d[1], [])];
    }
  }

  /** adv_is_nintendo; the cursor is an 8-bit variable and never wraps. */
  method AdvIsNintendo(ad: Data) returns (found: bool)
    requires |ad| <= 0xFF
    ensures found == HasNintendo(ad)
  {
    var len := |ad|;
    var pos: Byte := 0;
    assert ad[0..] == ad;
    while pos + 1 < len
      invariant pos <= len
      invariant HasNintendo(ad) == HasNintendo(ad[pos..])
      decreases len - pos
    {
      var elen, kind := ad[pos], ad[pos + 1];
      if elen == 0 || pos + 1 + elen > len { return false; }
      SearchNintendo(ad, pos);
      if kind == MANUFACTURER_SPECIFIC && elen >= 3 {
        var cid := Le16(ad[pos + 2], ad[pos + 3]);
        if cid == NINTENDO_COMPANY { return true; }
      }
      var next: int := pos + 1 + elen;
      pos := next % 0x100;
      assert pos == next;
    }
    return false;
  }

  /** What the daemon accepts, the bridge accepts. */
  lemma Switch2ImpliesNintendo(d: Data)
    ensures HasSwitch2(d) ==> HasNintendo(d)
  {
    if a :| a in Structures(d) && IsSwitch2(a) {
      assert IsNintendo(a);
    }
  }

  // ---------- switch2d.py ----------

  datatype Manufacturer = Unparsed | Parsed(vendor: Word, product: Word, reconnectMac: Address, pairingMode: bool)

  const ZERO_MAC: Address := [0, 0, 0, 0, 0, 0]

  // parse_manufacturer_data, on the bytes after the company identifier
  function ParseManufacturer(mfg: Data): Manufacturer {
    if |mfg| < 16 then Unparsed
    else Parsed(Le16(mfg[3], mfg[4]), Le16(mfg[5], mfg[6]), mfg[10..16], mfg[10..16] == ZERO_MAC)
  }

  function Wrap(mfg: Data): AdStructure {
    AdStructure(MANUFACTURER_SPECIFIC, Put16(NINTENDO_COMPANY) + mfg)
  }

  /** Of the data the Python parser can read, the daemon recognises what the parser does, and besides
      it data that has vendor and product at the front. */
  lemma RecognisedAsParsed(mfg: Data)
    requires |mfg| >= 16
    ensures var parsed := ParseManufacturer(mfg);
            IsSwitch2(Wrap(mfg)) <==>
              (parsed.vendor == NINTENDO_VID && parsed.product == PRO_CONTROLLER_2) || NamesController(mfg, 0)
  {
    var w := Wrap(mfg).data;
    assert w[2] == mfg[0] && w[3] == mfg[1] && w[4] == mfg[2] && w[5] == mfg[3];
    assert w[6] == mfg[4] && w[7] == mfg[5] && w[8] == mfg[6];
  }

  /** A controller the Python parser recognises is found by both C walkers wherever its structure stands
      among others. */
  lemma ParsedControllerIsFound(before: seq<AdStructure>, mfg: Data, after: seq<AdStructure>)
    requires forall a | a in before + [Wrap(mfg)] + after :: Encodable(a)
    requires |mfg| >= 16
    requires ParseManufacturer(mfg).vendor == NINTENDO_VID && ParseManufacturer(mfg).product == PRO_CONTROLLER_2
    ensures var d := Encode(before + [Wrap(mfg)] + after); HasSwitch2(d) && HasNintendo(d)
  {
    var list := before + [Wrap(mfg)] + after;
    var d := Encode(list);
    RecognisedAsParsed(mfg);
    StructuresOfEncoded(list, []);
    assert d + [] == d && list + Structures([]) == list;
    assert Wrap(mfg) == list[|before|] && Wrap(mfg) in Structures(d);
    Switch2ImpliesNintendo(d);
  }

  // ---------- advertising reports ----------

  datatype Report = Report(addressType: Byte, address: Address, data: Data)

  /** At most n reports of ten bytes plus data, while they fit. */
  function Split(p: Data, n: nat): seq<Report> {
    if n == 0 || |p| < 10 || |p| - 10 < p[8] then []
    else [Report(p[1], p[2..8], p[9..9 + p[8]])] + Split(p[10 + p[8]..], n - 1)
  }

  function FirstMatch(reports: seq<Report>): Option<Report> {
    if reports == [] then None
    else if HasSwitch2(reports[0].data) then Some(reports[0])
    else FirstMatch(reports[1..])
  }

  /** The report taken is the first whose data names a Switch 2 controller, and none is taken only if no
      report does. */
  lemma {:induction false} FirstMatchIsFirst(reports: seq<Report>)
    ensures match FirstMatch(reports)
            case None => forall i | 0 <= i < |reports| :: !HasSwitch2(reports[i].data)
            case Some(r) => exists i :: 0 <= i < |reports| && reports[i] == r && HasSwitch2(r.data)
                                        && forall j | 0 <= j < i :: !HasSwitch2(reports[j].data)
  {
    if reports != [] && !HasSwitch2(reports[0].data) {
      FirstMatchIsFirst(reports[1..]);
      assert forall i | 1 <= i < |reports| :: reports[i] == reports[1..][i - 1];
      if FirstMatch(reports).Some? {
        var r := FirstMatch(reports).value;
        var i :| 0 <= i < |reports[1..]| && reports[1..][i] == r && HasSwitch2(r.data)
                 && forall j | 0 <= j < i :: !HasSwitch2(reports[1..][j].data);
        assert reports[i + 1] == r;
      }
    }
  }

  // There is a whole report at the cursor.
  predicate ReportAt(p: Data, at: nat) {
    at + 10 <= |p| && at + 10 + p[at + 8] <= |p|
  }

  function ReadReport(p: Data, at: nat): Report
    requires ReportAt(p, at)
  {
    Report(p[at + 1], p[at + 2..at + 8], p[at + 9..at + 9 + p[at + 8]])
  }

  lemma StepSplit(p: Data, at: nat, n: nat)
    requires ReportAt(p, at) && n > 0
    ensures var reports := Split(p[at..], n);
            reports == [ReadReport(p, at)] + Split(p[at + 10 + p[at + 8]..], n - 1)
            && reports[0] == ReadReport(p, at) && reports[1..] == Split(p[at + 10 + p[at + 8]..], n - 1)
  {
    var q := p[at..];
    assert q[2..8] == p[at + 2..at + 8];
    assert q[9..9 + q[8]] == p[at + 9..at + 9 + p[at + 8]];
    assert q[10 + q[8]..] == p[at + 10 + p[at + 8]..];
  }

  // The same search by cursor.
  function Sought(p: Data, at: nat, n: nat): Option<Report>
    requires at <= |p|
    decreases n
  {
    if n == 0 || !ReportAt(p, at) then None
    else if HasSwitch2(ReadReport(p, at).data) then Some(ReadReport(p, at))
    else Sought(p, at + 10 + p[at + 8], n - 1)
  }

  lemma SoughtStep(p: Data, at: nat, n: nat)
    requires ReportAt(p, at) && n > 0
    requires var next := at + 10 + p[at + 8]; Sought(p, next, n - 1) == FirstMatch(Split(p[next..], n - 1))
    ensures Sought(p, at, n) == FirstMatch(Split(p[at..], n))
  {
    StepSplit(p, at, n);
  }

  lemma EndOfReports(p: Data, at: nat, n: nat)
    requires at <= |p| && (n == 0 || !ReportAt(p, at))
    ensures Split(p[at..], n) == []
  {
    if at + 10 <= |p| { assert p[at..][8] == p[at + 8]; }
  }

  lemma {:induction false} SoughtIsFirstMatch(p: Data, at: nat, n: nat)
    requires at <= |p|
    ensures Sought(p, at, n) == FirstMatch(Split(p[at..], n))
    decreases n
  {
    if n > 0 && ReportAt(p, at) {
      SoughtIsFirstMatch(p, at + 10 + p[at + 8], n - 1);
      SoughtStep(p, at, n);
    } else {
      EndOfReports(p, at, n);
    }
  }

  /** The report loop of scan_for_peer_user on one event. `payload` is what the frame buffer holds behind
      the event header; only `declared` bytes belong to the event and only `received` of them arrived. */
  method ScanEvent(payload: Data, declared: Byte, received: nat) returns (found: bool, peer: Address, peerType: Byte)
    requires 3 <= declared <= |payload| && received <= |payload|
    ensures var plen := if declared > received then received else declared;
            var first := FirstMatch(if plen < 2 then [] else Split(payload[2..plen], payload[1]));
            && found == first.Some?
            && (found ==> peer == first.value.address && peerType == first.value.addressType)
  {
    var plen: nat := declared;
    if plen > received { plen := received; }
    found, peer, peerType := false, ZERO_MAC, 0;
    if plen < 2 { return; }
    var body := payload[..plen];
    assert body[2..] == payload[2..plen];
    found, peer, peerType := ScanReports(body, payload[1]);
  }

  method ScanReports(payload: Data, nrep: Byte) returns (found: bool, peer: Address, peerType: Byte)
    requires |payload| >= 2
    ensures var first := FirstMatch(Split(payload[2..], nrep));
            && found == first.Some?
            && (found ==> peer == first.value.address && peerType == first.value.addressType)
  {
    SoughtIsFirstMatch(payload, 2, nrep);
    found, peer, peerType := SearchReports(payload, nrep);
  }

  method SearchReports(payload: Data, nrep: Byte) returns (found: bool, peer: Address, peerType: Byte)
    requires |payload| >= 2
    ensures var first := Sought(payload, 2, nrep);
            && found == first.Some?
            && (found ==> peer == first.value.address && peerType == first.value.addressType)
  {
    var off, ri := 2, 0;
    found, peer, peerType := false, ZERO_MAC, 0;
    ghost var first := Sought(payload, 2, nrep);
    while ri < nrep && off + 10 <= |payload|
      invariant 0 <= ri <= nrep && 2 <= off <= |payload| && !found
      invariant first == Sought(payload, off, nrep - ri)
    {
      var dlen := payload[off + 8];
      if off + 10 + dlen > |payload| { break; }
      found, peer, peerType := TakeReport(payload, off);
      if found { return; }
      off := off + 10 + dlen;
      ri := ri + 1;
    }
  }

  method TakeReport(payload: Data, off: nat) returns (hit: bool, peer: Address, peerType: Byte)
    requires ReportAt(payload, off)
    ensures hit == HasSwitch2(ReadReport(payload, off).data)
    ensures peer == ReadReport(payload, off).address && peerType == ReadReport(payload, off).addressType
  {
    hit := AdvDataHasSwitch2(payload[off + 9..off + 9 + payload[off + 8]]);
    peer, peerType := payload[off + 2..off + 8], payload[off + 1];
  }

  // ---------- by the bytes ----------

  predicate NintendoBytes(a: AdStructure) {
    a.kind == 0xFF && |a.data| >= 2 && a.data[0] == 0x53 && a.data[1] == 0x05
  }

  predicate Switch2BytesAt(data: Data, at: nat) {
    at + 4 <= |data| && data[at..at + 4] == [0x7E, 0x05, 0x69, 0x20]
  }

  lemma WordsAreBytes(lo: Byte, hi: Byte, w: Word)
    ensures Le16(lo, hi) == w <==> lo == w % 0x100 && hi == w / 0x100
  {
  }

  lemma StructureByBytes(a: AdStructure)
    ensures IsNintendo(a) <==> NintendoBytes(a)
    ensures IsSwitch2(a) <==> NintendoBytes(a) && (Switch2BytesAt(a.data, 2) || Switch2BytesAt(a.data, 5))
  {
    if |a.data| >= 2 { WordsAreBytes(a.data[0], a.data[1], NINTENDO_COMPANY); }
    NamesByBytes(a.data, 2);
    NamesByBytes(a.data, 5);
  }

  lemma NamesByBytes(data: Data, at: nat)
    ensures NamesController(data, at) <==> Switch2BytesAt(data, at)
  {
    if at + 4 <= |data| {
      WordsAreBytes(data[at], data[at + 1], NINTENDO_VID);
      WordsAreBytes(data[at + 2], data[at + 3], PRO_CONTROLLER_2);
      var q := data[at..at + 4];
      assert q[0] == data[at] && q[1] == data[at + 1] && q[2] == data[at + 2] && q[3] == data[at + 3];
      assert q == [q[0], q[1], q[2], q[3]];
    }
  }

  /** Of advertising data made of any structures, the bridge takes exactly that with manufacturer data that starts
      53 05, and the daemon exactly that in which 7E 05 69 20 follows at once or three bytes later. */
  lemma TakenByBytes(list: seq<AdStructure>)
    requires forall a | a in list :: Encodable(a)
    ensures HasNintendo(Encode(list)) <==> exists a :: a in list && NintendoBytes(a)
    ensures HasSwitch2(Encode(list))
            <==> exists a :: a in list && NintendoBytes(a) && (Switch2BytesAt(a.data, 2) || Switch2BytesAt(a.data, 5))
  {
    StructuresOfEncoded(list, []);
    assert Encode(list) + [] == Encode(list) && list + Structures([]) == list;
    forall a ensures IsNintendo(a) <==> NintendoBytes(a)
             ensures IsSwitch2(a) <==> NintendoBytes(a) && (Switch2BytesAt(a.data, 2) || Switch2BytesAt(a.data, 5))
    {
      StructureByBytes(a);
    }
  }

  // One report as a controller sends it (section 7.7.65.2 of Core Specification Vol 4 Part E): event type, address
  // type, address, data with its length, signal strength.
  function EncodeReport(r: Report, eventType: Byte, rssi: Byte): Data
    requires |r.data| < 0x100
  {
    [eventType, r.addressType] + r.address + [|r.data|] + r.data + [rssi]
  }

  lemma ReportInFront(r: Report, eventType: Byte, rssi: Byte, rest: Data, n: nat, p: Data)
    requires |r.data| < 0x100 && n > 0 && p == EncodeReport(r, eventType, rssi) + rest
    ensures Split(p, n) == [r] + Split(rest, n - 1)
  {
    assert p[1] == r.addressType && p[2..8] == r.address && p[8] == |r.data|;
    assert p[9..9 + |r.data|] == r.data && p[10 + |r.data|..] == rest;
  }

  function EncodeReports(list: seq<Report>, eventType: Byte, rssi: Byte): Data
    requires forall r | r in list :: |r.data| < 0x100
  {
    if list == [] then []
    else EncodeReport(list[0], eventType, rssi) + EncodeReports(list[1..], eventType, rssi)
  }

  function FirstOf(list: seq<Report>, n: nat): seq<Report> {
    if n < |list| then list[..n] else list
  }

  lemma FirstOfMore(list: seq<Report>, n: nat)
    requires list != [] && n > 0
    ensures FirstOf(list, n) == [list[0]] + FirstOf(list[1..], n - 1)
  {
  }

  lemma OneReportBack(list: seq<Report>, eventType: Byte, rssi: Byte, rest: Data, n: nat, p: Data)
    requires list != [] && n > 0 && |list[0].data| < 0x100 && p == EncodeReport(list[0], eventType, rssi) + rest
    requires Split(rest, n - 1) == FirstOf(list[1..], n - 1)
    ensures Split(p, n) == FirstOf(list, n)
  {
    ReportInFront(list[0], eventType, rssi, rest, n, p);
    FirstOfMore(list, n);
  }

  lemma NoneToSplit(p: Data, n: nat)
    requires p == [] || n == 0
    ensures Split(p, n) == []
  {
  }

  /** The reports of an event are read back, as many as it says it holds. */
  lemma {:induction false} ReportsReadBack(list: seq<Report>, eventType: Byte, rssi: Byte, n: nat, p: Data)
    requires forall r | r in list :: |r.data| < 0x100
    requires p == EncodeReports(list, eventType, rssi)
    ensures Split(p, n) == FirstOf(list, n)
    decreases |list|
  {
    if list == [] || n == 0 {
      NoneToSplit(p, n);
    } else {
      var rest := EncodeReports(list[1..], eventType, rssi);
      ReportsReadBack(list[1..], eventType, rssi, n - 1, rest);
      OneReportBack(list, eventType, rssi, rest, n, p);
    }
  }
}
