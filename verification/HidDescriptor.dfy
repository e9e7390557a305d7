/** Report descriptors by the short-item rules (sections 6.2.2.2 and 6.2.2.7 of HID 1.11), and the two
    descriptors of the repository. */
module HidDescriptor {
  import opened Bytes

  datatype Kind = Input | Output

  /** What one main item declares: `count` controls of `size` bits from bit `offset` of the report on. */
  datatype Field = Field(kind: Kind, report: nat, offset: nat, size: nat, count: nat,
                         min: int, max: int, page: nat, usages: seq<nat>, flags: nat)

  // The state of the item parser; `first` is a Usage Minimum waiting for its maximum, `bits` the length of the
  // current report so far.
  datatype State = State(page: nat, min: int, max: int, size: nat, count: nat, report: nat,
                         first: nat, usages: seq<nat>, bits: nat, fields: seq<Field>)

  const START := State(0, 0, 0, 0, 0, 0, 0, [], 0, [])

  function Unsigned(d: Data): nat
    requires |d| in {0, 1, 2, 4}
  {
    match |d|
    case 0 => 0
    case 1 => d[0]
    case 2 => Le16(d[0], d[1])
    case _ => Le16(d[0], d[1]) as int + 0x1_0000 * (Le16(d[2], d[3]) as int)
  }

  // Logical extents are two's complement numbers of the length they are given in.
  function Signed(d: Data): int
    requires |d| in {0, 1, 2, 4}
  {
    var u := Unsigned(d);
    match |d|
    case 0 => 0
    case 1 => if u < 0x80 then u else u - 0x100
    case 2 => if u < 0x8000 then u else u - 0x1_0000
    case _ => if u < 0x8000_0000 then u else u - 0x1_0000_0000
  }

  function Main(s: State, kind: Kind, flags: nat): State {
    s.(fields := s.fields + [Field(kind, s.report, s.bits, s.size, s.count, s.min, s.max, s.page, s.usages, flags)],
       bits := s.bits + s.size * s.count, first := 0, usages := [])
  }

  function Range(first: nat, last: nat): seq<nat>
    decreases last - first
  {
    if first > last then [] else [first] + Range(first + 1, last)
  }

  // One item; the prefix without its two length bits tells type and tag. A report ID starts a new report.
  function Apply(s: State, prefix: Byte, d: Data): State
    requires |d| in {0, 1, 2, 4}
  {
    var tag := prefix - prefix % 4;
    if tag == 0x04 then s.(page := Unsigned(d))
    else if tag == 0x14 then s.(min := Signed(d))
    else if tag == 0x24 then s.(max := Signed(d))
    else if tag == 0x74 then s.(size := Unsigned(d))
    else if tag == 0x94 then s.(count := Unsigned(d))
    else if tag == 0x84 then s.(report := Unsigned(d), bits := 0)
    else if tag == 0x08 then s.(usages := s.usages + [Unsigned(d)])
    else if tag == 0x18 then s.(first := Unsigned(d))
    else if tag == 0x28 then s.(usages := s.usages + Range(s.first, Unsigned(d)))
    else if tag == 0x80 then Main(s, Input, Unsigned(d))
    else if tag == 0x90 then Main(s, Output, Unsigned(d))
    else if tag == 0xA0 || tag == 0xC0 then s.(first := 0, usages := [])
    else s
  }

  function Length(prefix: Byte): (n: nat)
    ensures n in {0, 1, 2, 4}
  {
    if prefix % 4 == 3 then 4 else prefix % 4
  }

  predicate IsItem(item: Data) {
    item != [] && |item| == 1 + Length(item[0])
  }

  type Item = s: Data | IsItem(s) witness [0xC0]

  // The bytes of a descriptor from position `at` on.
  function Interpret(d: Data, at: nat, s: State): State
    decreases |d| - at
  {
    if at >= |d| || at + 1 + Length(d[at]) > |d| then s
    else Interpret(d, at + 1 + Length(d[at]), Apply(s, d[at], d[at + 1..at + 1 + Length(d[at])]))
  }

  // The first k items of a list.
  function Fold(items: seq<Item>, k: nat, s: State): State
    requires k <= |items|
  {
    if k == 0 then s
    else Apply(Fold(items, k - 1, s), items[k - 1][0], items[k - 1][1..])
  }

  function Encode(items: seq<Item>): Data {
    if items == [] then [] else Encode(items[..|items| - 1]) + items[|items| - 1]
  }

  lemma InterpretItem(d: Data, at: nat, item: Item, s: State)
    requires at + |item| <= |d| && d[at..at + |item|] == item
    ensures Interpret(d, at, s) == Interpret(d, at + |item|, Apply(s, item[0], item[1..]))
  {
    assert d[at] == d[at..at + |item|][0];
    assert d[at + 1..at + |item|] == d[at..at + |item|][1..];
  }

  lemma {:induction false} InterpretEncoded(d: Data, items: seq<Item>, s: State)
    requires Encode(items) <= d
    ensures Interpret(d, 0, s) == Interpret(d, |Encode(items)|, Fold(items, |items|, s))
    decreases |items|
  {
    if items != [] {
      var init, last := items[..|items| - 1], items[|items| - 1];
      assert Encode(items) == Encode(init) + last;
      InterpretEncoded(d, init, s);
      FoldInit(items, |items| - 1, s);
      InterpretItem(d, |Encode(init)|, last, Fold(items, |items| - 1, s));
    }
  }

  lemma {:induction false} FoldInit(items: seq<Item>, k: nat, s: State)
    requires k <= |items| - 1
    ensures Fold(items[..|items| - 1], k, s) == Fold(items, k, s)
  {
    if k > 0 { FoldInit(items, k - 1, s); }
  }

  /** Reading the bytes of a list of items is taking the items one after the other. */
  lemma InterpretIsFold(items: seq<Item>, s: State)
    ensures Interpret(Encode(items), 0, s) == Fold(items, |items|, s)
  {
    InterpretEncoded(Encode(items), items, s);
  }

  lemma {:induction false} FoldConcat(a: seq<Item>, b: seq<Item>, k: nat, s: State)
    requires k <= |b|
    ensures Fold(a + b, |a| + k, s) == Fold(b, k, Fold(a, |a|, s))
  {
    if k == 0 {
      FoldPrefix(a, b, |a|, s);
    } else {
      FoldConcat(a, b, k - 1, s);
    }
  }

  lemma {:induction false} FoldPrefix(a: seq<Item>, b: seq<Item>, k: nat, s: State)
    requires k <= |a|
    ensures Fold(a + b, k, s) == Fold(a, k, s)
  {
    if k > 0 { FoldPrefix(a, b, k - 1, s); }
  }

  function Result(items: seq<Item>, s: State): State {
    Fold(items, |items|, s)
  }

  lemma ResultOfConcat(a: seq<Item>, b: seq<Item>, s: State)
    ensures Result(a + b, s) == Result(b, Result(a, s))
  {
    FoldConcat(a, b, |b|, s);
  }

  // ---------- the parts the two tables share ----------

  const HEADER: seq<Item> := [[0x05, 0x01], [0x09, 0x05], [0xA1, 0x01], [0x85, 0x01]]

  const BUTTONS: seq<Item> := [
    [0x05, 0x09], [0x19, 0x01], [0x29, 0x18], [0x15, 0x00], [0x25, 0x01], [0x75, 0x01], [0x95, 0x18], [0x81, 0x02]]

  const AXES: seq<Item> := [
    [0x05, 0x01], [0x09, 0x30], [0x09, 0x31], [0x09, 0x32], [0x09, 0x35], [0x15, 0x00], [0x26, 0xFF, 0x0F]]

  const HAT: seq<Item> := [[0x75, 0x04], [0x95, 0x01], [0x81, 0x42]]

  const PADDING: seq<Item> := [[0x75, 0x04], [0x95, 0x01], [0x81, 0x03]]

  const END: seq<Item> := [[0xC0]]

  lemma HeaderPart()
    ensures Result(HEADER, START) == START.(page := 0x01, report := 1)
  {
    assert Fold(HEADER, 2, START) == START.(page := 0x01, usages := [0x05]) by {
      assert Fold(HEADER, 1, START) == START.(page := 0x01);
    }
    assert Fold(HEADER, 3, START) == START.(page := 0x01);
  }

  lemma ButtonUsages(s: State)
    requires s.usages == []
    ensures Fold(BUTTONS, 3, s) == s.(page := 0x09, first := 1, usages := Range(1, 24))
  {
    assert Fold(BUTTONS, 2, s) == s.(page := 0x09, first := 1) by {
      assert Fold(BUTTONS, 1, s) == s.(page := 0x09);
    }
    assert [] + Range(1, 24) == Range(1, 24);
  }

  lemma ButtonsPart(s: State)
    requires s.usages == [] && s.first == 0
    ensures Result(BUTTONS, s)
            == Main(State(0x09, 0, 1, 1, 24, s.report, 1, Range(1, 24), s.bits, s.fields), Input, 0x02)
  {
    ButtonUsages(s);
    var s3 := Fold(BUTTONS, 3, s);
    assert Fold(BUTTONS, 5, s) == s3.(min := 0, max := 1) by {
      assert Fold(BUTTONS, 4, s) == s3.(min := 0);
    }
    assert Fold(BUTTONS, 7, s) == s3.(min := 0, max := 1, size := 1, count := 24) by {
      assert Fold(BUTTONS, 6, s) == s3.(min := 0, max := 1, size := 1);
    }
  }

  lemma AxesPart(s: State)
    requires s.usages == []
    ensures Result(AXES, s) == s.(page := 0x01, usages := [0x30, 0x31, 0x32, 0x35], min := 0, max := 0xFFF)
  {
    var s5 := s.(page := 0x01, usages := [0x30, 0x31, 0x32, 0x35]);
    assert Fold(AXES, 3, s) == s.(page := 0x01, usages := [0x30, 0x31]) by {
      assert Fold(AXES, 1, s) == s.(page := 0x01);
      assert Fold(AXES, 2, s) == s.(page := 0x01, usages := [0x30]);
      assert [0x30] + [0x31] == [0x30, 0x31];
    }
    assert Fold(AXES, 5, s) == s5 by {
      assert Fold(AXES, 4, s) == s.(page := 0x01, usages := [0x30, 0x31, 0x32]);
    }
    assert Fold(AXES, 6, s) == s5.(min := 0);
  }

  lemma HatPart(s: State)
    ensures Result(HAT, s) == Main(s.(size := 4, count := 1), Input, 0x42)
  {
    assert Fold(HAT, 2, s) == s.(size := 4, count := 1) by {
      assert Fold(HAT, 1, s) == s.(size := 4);
    }
  }

  lemma PaddingPart(s: State)
    requires s.usages == [] && s.first == 0
    ensures Result(PADDING, s) == Main(s.(size := 4, count := 1), Input, 0x03)
  {
    assert Fold(PADDING, 2, s) == s.(size := 4, count := 1) by {
      assert Fold(PADDING, 1, s) == s.(size := 4);
    }
  }

  lemma EndPart(s: State)
    requires s.usages == [] && s.first == 0
    ensures Result(END, s) == s
  {
    assert Fold(END, 0, s) == s;
  }

  // ---------- hid_report_descriptor.h ----------

  const WIDE_AXES: seq<Item> := [[0x35, 0x00], [0x46, 0xFF, 0x0F], [0x75, 0x10], [0x95, 0x04], [0x81, 0x02]]

  const HAT_TO_7: seq<Item> := [
    [0x05, 0x01], [0x09, 0x39], [0x15, 0x00], [0x25, 0x07], [0x35, 0x00], [0x46, 0x3B, 0x01]]

  const RUMBLE: seq<Item> := [
    [0x85, 0x02], [0x05, 0x0F], [0x09, 0x21], [0x15, 0x00], [0x25, 0xFF]]
  const MOTORS: seq<Item> := [[0x75, 0x08], [0x95, 0x02], [0x91, 0x02]]

  /** hid_report_descriptor, one item for each line of its table. */
  const DAEMON_ITEMS: seq<Item> :=
    HEADER + BUTTONS + AXES + WIDE_AXES + HAT_TO_7 + HAT + PADDING + RUMBLE + MOTORS + END
  const DAEMON_DESCRIPTOR: Data := Encode(DAEMON_ITEMS)

  // The report sizes the header defines, report ID included.
  const DAEMON_INPUT_SIZE := 13
  const DAEMON_OUTPUT_SIZE := 3

  const BUTTON_FIELD := Field(Input, 1, 0, 1, 24, 0, 1, 0x09, Range(1, 24), 0x02)
  const AXIS_USAGES: seq<nat> := [0x30, 0x31, 0x32, 0x35]

  const DAEMON_FIELDS: seq<Field> := [
    BUTTON_FIELD,
    Field(Input, 1, 24, 16, 4, 0, 0xFFF, 0x01, AXIS_USAGES, 0x02),
    Field(Input, 1, 88, 4, 1, 0, 7, 0x01, [0x39], 0x42),
    Field(Input, 1, 92, 4, 1, 0, 7, 0x01, [], 0x03),
    Field(Output, 2, 0, 8, 2, 0, -1, 0x0F, [0x21], 0x02)]

  lemma WideAxesPart(s: State)
    ensures Result(WIDE_AXES, s) == Main(s.(size := 16, count := 4), Input, 0x02)
  {
    assert Fold(WIDE_AXES, 2, s) == s by {
      assert Fold(WIDE_AXES, 1, s) == s;
    }
    assert Fold(WIDE_AXES, 4, s) == s.(size := 16, count := 4) by {
      assert Fold(WIDE_AXES, 3, s) == s.(size := 16);
    }
  }

  lemma HatTo7Part(s: State)
    requires s.usages == []
    ensures Result(HAT_TO_7, s)
            == s.(page := 0x01, usages := [0x39], min := 0, max := 7)
  {
    var s4 := s.(page := 0x01, usages := [0x39], min := 0, max := 7);
    assert Fold(HAT_TO_7, 2, s) == s.(page := 0x01, usages := [0x39]) by {
      assert Fold(HAT_TO_7, 1, s) == s.(page := 0x01);
    }
    assert Fold(HAT_TO_7, 4, s) == s4 by {
      assert Fold(HAT_TO_7, 3, s) == s.(page := 0x01, usages := [0x39], min := 0);
    }
    assert Fold(HAT_TO_7, 5, s) == s4;
  }

  // The one-byte Logical Maximum 0xFF is the number -1.
  lemma RumblePart(s: State)
    requires s.usages == []
    ensures Result(RUMBLE, s) == s.(report := 2, bits := 0, page := 0x0F, usages := [0x21], min := 0, max := -1)
  {
    var s3 := s.(report := 2, bits := 0, page := 0x0F, usages := [0x21]);
    assert Fold(RUMBLE, 2, s) == s.(report := 2, bits := 0, page := 0x0F) by {
      assert Fold(RUMBLE, 1, s) == s.(report := 2, bits := 0);
    }
    assert Fold(RUMBLE, 3, s) == s3;
    assert Fold(RUMBLE, 4, s) == s3.(min := 0);
  }

  lemma MotorsPart(s: State)
    ensures Result(MOTORS, s) == Main(s.(size := 8, count := 2), Output, 0x02)
  {
    assert Fold(MOTORS, 2, s) == s.(size := 8, count := 2) by {
      assert Fold(MOTORS, 1, s) == s.(size := 8);
    }
  }

  lemma SharedFields()
    ensures Result(HEADER + BUTTONS + AXES, START)
            == State(0x01, 0, 0xFFF, 1, 24, 1, 0, AXIS_USAGES, 24, [BUTTON_FIELD])
  {
    ResultOfConcat(HEADER + BUTTONS, AXES, START);
    ResultOfConcat(HEADER, BUTTONS, START);
    HeaderPart();
    var s1 := START.(page := 0x01, report := 1);
    ButtonsPart(s1);
    var s2 := State(0x09, 0, 1, 1, 24, 1, 0, [], 24, [BUTTON_FIELD]);
    assert Result(BUTTONS, s1) == s2;
    AxesPart(s2);
  }

  lemma DaemonInputFields()
    ensures Result(HEADER + BUTTONS + AXES + WIDE_AXES + HAT_TO_7 + HAT + PADDING, START)
            == State(0x01, 0, 7, 4, 1, 1, 0, [], 96, DAEMON_FIELDS[..4])
  {
    var shared := HEADER + BUTTONS + AXES;
    ResultOfConcat(shared + WIDE_AXES + HAT_TO_7 + HAT, PADDING, START);
    ResultOfConcat(shared + WIDE_AXES + HAT_TO_7, HAT, START);
    ResultOfConcat(shared + WIDE_AXES, HAT_TO_7, START);
    ResultOfConcat(shared, WIDE_AXES, START);
    SharedFields();
    var s1 := State(0x01, 0, 0xFFF, 1, 24, 1, 0, AXIS_USAGES, 24, [BUTTON_FIELD]);
    WideAxesPart(s1);
    var s2 := State(0x01, 0, 0xFFF, 16, 4, 1, 0, [], 88, DAEMON_FIELDS[..2]);
    assert Result(WIDE_AXES, s1) == s2;
    HatTo7Part(s2);
    HatPart(Result(HAT_TO_7, s2));
    var s3 := State(0x01, 0, 7, 4, 1, 1, 0, [], 92, DAEMON_FIELDS[..3]);
    assert Result(HAT, Result(HAT_TO_7, s2)) == s3;
    PaddingPart(s3);
  }

  /** What hid_report_descriptor declares. */
  lemma DaemonInterpreted()
    ensures Interpret(DAEMON_DESCRIPTOR, 0, START).fields == DAEMON_FIELDS
  {
    InterpretIsFold(DAEMON_ITEMS, START);
    var input := HEADER + BUTTONS + AXES + WIDE_AXES + HAT_TO_7 + HAT + PADDING;
    ResultOfConcat(input + RUMBLE + MOTORS, END, START);
    ResultOfConcat(input + RUMBLE, MOTORS, START);
    ResultOfConcat(input, RUMBLE, START);
    DaemonInputFields();
    var s1 := State(0x01, 0, 7, 4, 1, 1, 0, [], 96, DAEMON_FIELDS[..4]);
    RumblePart(s1);
    MotorsPart(Result(RUMBLE, s1));
    EndPart(Result(MOTORS, Result(RUMBLE, s1)));
  }

  // ---------- gamepad_rdesc of sw2d.c ----------

  const PACKED_AXES: seq<Item> := [[0x75, 0x0C], [0x95, 0x04], [0x81, 0x02]]

  const HAT_TO_8: seq<Item> := [
    [0x09, 0x39], [0x15, 0x00], [0x25, 0x08], [0x35, 0x00], [0x46, 0x3B, 0x01], [0x65, 0x14]]

  const TRIGGERS: seq<Item> := [
    [0x05, 0x02], [0x09, 0xC5], [0x09, 0xC4], [0x15, 0x00], [0x26, 0xFF, 0x00],
    [0x75, 0x08], [0x95, 0x02], [0x81, 0x02]]

  /** gamepad_rdesc, item by item. */
  const GAMEPAD_ITEMS: seq<Item> := HEADER + BUTTONS + AXES + PACKED_AXES + HAT_TO_8 + HAT + PADDING + TRIGGERS + END
  const GAMEPAD_DESCRIPTOR: Data := Encode(GAMEPAD_ITEMS)

  const GAMEPAD_FIELDS: seq<Field> := [
    BUTTON_FIELD,
    Field(Input, 1, 24, 12, 4, 0, 0xFFF, 0x01, AXIS_USAGES, 0x02),
    Field(Input, 1, 72, 4, 1, 0, 8, 0x01, [0x39], 0x42),
    Field(Input, 1, 76, 4, 1, 0, 8, 0x01, [], 0x03),
    Field(Input, 1, 80, 8, 2, 0, 0xFF, 0x02, [0xC5, 0xC4], 0x02)]

  lemma PackedAxesPart(s: State)
    ensures Result(PACKED_AXES, s) == Main(s.(size := 12, count := 4), Input, 0x02)
  {
    assert Fold(PACKED_AXES, 2, s) == s.(size := 12, count := 4) by {
      assert Fold(PACKED_AXES, 1, s) == s.(size := 12);
    }
  }

  lemma HatTo8Part(s: State)
    requires s.usages == []
    ensures Result(HAT_TO_8, s) == s.(usages := [0x39], min := 0, max := 8)
  {
    var s3 := s.(usages := [0x39], min := 0, max := 8);
    assert Fold(HAT_TO_8, 1, s) == s.(usages := [0x39]);
    assert Fold(HAT_TO_8, 3, s) == s3 by {
      assert Fold(HAT_TO_8, 2, s) == s.(usages := [0x39], min := 0);
    }
    assert Fold(HAT_TO_8, 4, s) == s3;
    assert Fold(HAT_TO_8, 5, s) == s3;
  }

  lemma TriggersPart(s: State)
    requires s.usages == []
    ensures Result(TRIGGERS, s)
            == Main(s.(page := 0x02, usages := [0xC5, 0xC4], min := 0, max := 0xFF, size := 8, count := 2), Input, 0x02)
  {
    var s5 := s.(page := 0x02, usages := [0xC5, 0xC4], min := 0, max := 0xFF);
    assert Fold(TRIGGERS, 3, s) == s.(page := 0x02, usages := [0xC5, 0xC4]) by {
      assert Fold(TRIGGERS, 1, s) == s.(page := 0x02);
      assert Fold(TRIGGERS, 2, s) == s.(page := 0x02, usages := [0xC5]);
    }
    assert Fold(TRIGGERS, 5, s) == s5 by {
      assert Fold(TRIGGERS, 4, s) == s.(page := 0x02, usages := [0xC5, 0xC4], min := 0);
    }
    assert Fold(TRIGGERS, 7, s) == s5.(size := 8, count := 2) by {
      assert Fold(TRIGGERS, 6, s) == s5.(size := 8);
    }
  }

  lemma GamepadHatFields()
    ensures Result(HEADER + BUTTONS + AXES + PACKED_AXES + HAT_TO_8 + HAT + PADDING, START)
            == State(0x01, 0, 8, 4, 1, 1, 0, [], 80, GAMEPAD_FIELDS[..4])
  {
    var shared := HEADER + BUTTONS + AXES;
    ResultOfConcat(shared + PACKED_AXES + HAT_TO_8 + HAT, PADDING, START);
    ResultOfConcat(shared + PACKED_AXES + HAT_TO_8, HAT, START);
    ResultOfConcat(shared + PACKED_AXES, HAT_TO_8, START);
    ResultOfConcat(shared, PACKED_AXES, START);
    SharedFields();
    var s1 := State(0x01, 0, 0xFFF, 1, 24, 1, 0, AXIS_USAGES, 24, [BUTTON_FIELD]);
    PackedAxesPart(s1);
    var s2 := State(0x01, 0, 0xFFF, 12, 4, 1, 0, [], 72, GAMEPAD_FIELDS[..2]);
    assert Result(PACKED_AXES, s1) == s2;
    HatTo8Part(s2);
    HatPart(Result(HAT_TO_8, s2));
    var s3 := State(0x01, 0, 8, 4, 1, 1, 0, [], 76, GAMEPAD_FIELDS[..3]);
    assert Result(HAT, Result(HAT_TO_8, s2)) == s3;
    PaddingPart(s3);
  }

  /** What gamepad_rdesc declares. */
  lemma GamepadInterpreted()
    ensures Interpret(GAMEPAD_DESCRIPTOR, 0, START).fields == GAMEPAD_FIELDS
  {
    InterpretIsFold(GAMEPAD_ITEMS, START);
    var front := HEADER + BUTTONS + AXES + PACKED_AXES + HAT_TO_8 + HAT + PADDING;
    ResultOfConcat(front + TRIGGERS, END, START);
    ResultOfConcat(front, TRIGGERS, START);
    GamepadHatFields();
    var s1 := State(0x01, 0, 8, 4, 1, 1, 0, [], 80, GAMEPAD_FIELDS[..4]);
    TriggersPart(s1);
    EndPart(Result(TRIGGERS, s1));
  }
}
