/** The report builders (parse_input and build_hid_report of switch2-bt.c, report09_to_uhid of sw2d.c) against the
    descriptors they send their reports under. */
module HidReports {
  import opened Bytes
  import opened HidDescriptor

  // ---------- reading a declared field ----------

  function Shift(x: nat, k: nat): (y: nat)
    ensures y <= x
    decreases x + k
  {
    if k == 0 then x else Shift(x / 2, k - 1)
  }

  // The lowest n bits of x.
  function Low(x: nat, n: nat): (y: nat)
    ensures y < Pow2(n)
    decreases x + n
  {
    if n == 0 then 0 else x % 2 + 2 * Low(x / 2, n - 1)
  }

  function Shl(n: nat, x: nat): nat {
    if n == 0 then x else 2 * Shl(n - 1, x)
  }

  // Bit k of a report, the lowest bit of the first byte first.
  function Bit(d: Data, k: nat): (b: nat)
    requires k < 8 * |d|
    ensures b < 2
  {
    Shift(d[k / 8], k % 8) % 2
  }

  // A field of n bits from bit `at` on, low bits first (section 5.8 of HID 1.11).
  function FieldValue(d: Data, at: nat, n: nat): nat
    requires at + n <= 8 * |d|
    decreases 8 * |d| - at
  {
    if n == 0 then 0 else Bit(d, at) + 2 * FieldValue(d, at + 1, n - 1)
  }

  /** What control i of a declared field holds in a report that starts with its report ID. */
  function Control(f: Field, i: nat, report: Data): nat
    requires i < f.count && Fits(f, report)
  {
    Scale(i, f.count, f.size);
    FieldValue(report[1..], f.offset + i * f.size, f.size)
  }

  predicate Fits(f: Field, report: Data) {
    |report| > 0 && report[0] == f.report && f.offset + f.count * f.size <= 8 * (|report| - 1)
  }

  lemma Scale(i: nat, count: nat, size: nat)
    requires i < count
    ensures i * size + size <= count * size
  {
    assert count * size == i * size + (count - i) * size;
    assert (count - i) * size == size + (count - i - 1) * size;
  }

  lemma OneControl(f: Field, report: Data)
    requires f.count == 1 && Fits(f, report)
    ensures Control(f, 0, report) == FieldValue(report[1..], f.offset, f.size)
  {
  }

  lemma OneBitControl(f: Field, i: nat, report: Data)
    requires f.size == 1 && i < f.count && Fits(f, report)
    ensures f.offset + i < 8 * (|report| - 1) && Control(f, i, report) == Bit(report[1..], f.offset + i)
  {
    assert FieldValue(report[1..], f.offset + i + 1, 0) == 0;
  }

  // A value in the logical range, or outside it in a field with the Null State flag.
  predicate Acceptable(f: Field, v: nat) {
    f.min <= v <= f.max || f.flags / 0x40 % 2 == 1
  }

  lemma {:induction false} FieldConcat(d: Data, at: nat, a: nat, b: nat)
    requires at + a + b <= 8 * |d|
    ensures FieldValue(d, at, a + b) == FieldValue(d, at, a) + Shl(a, FieldValue(d, at + a, b))
    decreases a
  {
    if a > 0 {
      FieldConcat(d, at + 1, a - 1, b);
    }
  }

  lemma {:induction false} FieldInByte(d: Data, i: nat, from: nat, n: nat)
    requires i < |d| && from + n <= 8
    ensures FieldValue(d, 8 * i + from, n) == Low(Shift(d[i], from), n)
    decreases n
  {
    if n > 0 {
      FieldInByte(d, i, from + 1, n - 1);
      assert (8 * i + from) / 8 == i && (8 * i + from) % 8 == from;
      ShiftOnce(d[i], from);
    }
  }

  lemma {:induction false} ShiftOnce(x: nat, k: nat)
    ensures Shift(x, k + 1) == Shift(x, k) / 2
  {
    if k > 0 { ShiftOnce(x / 2, k - 1); }
  }

  lemma {:induction false} LowAndShift(x: nat, n: nat)
    ensures x == Low(x, n) + Shl(n, Shift(x, n))
    decreases n
  {
    if n > 0 { LowAndShift(x / 2, n - 1); }
  }

  lemma Nibbles(x: nat)
    ensures Low(x, 4) == x % 0x10 && Shift(x, 4) == x / 0x10
  {
    LowAndShift(x, 4);
    Shl4(Shift(x, 4));
    assert Low(x, 4) < 0x10 by { Powers(); }
    DivisionBy16(x, Shift(x, 4), Low(x, 4));
  }

  lemma DivisionBy16(x: nat, q: nat, r: nat)
    requires x == 0x10 * q + r && r < 0x10
    ensures x / 0x10 == q && x % 0x10 == r
  {
  }

  lemma UpperNibble(b: Byte)
    ensures Low(Shift(b, 4), 4) == b / 0x10
  {
    Nibbles(b);
    Nibbles(b / 0x10);
  }

  lemma {:induction false} LowOfSmall(x: nat, n: nat)
    requires x < Pow2(n)
    ensures Low(x, n) == x
  {
    if n > 0 { LowOfSmall(x / 2, n - 1); }
  }

  lemma Powers()
    ensures Pow2(4) == 0x10 && Pow2(8) == 0x100
  {
    assert Pow2(2) == 4;
    assert Pow2(4) == 4 * Pow2(2);
    assert Pow2(6) == 4 * Pow2(4);
  }

  lemma LowByte(b: Byte)
    ensures Low(b, 8) == b
  {
    Powers();
    LowOfSmall(b, 8);
  }

  // A nibble, a byte, a byte-aligned 16-bit field, and the two ways a 12-bit field can straddle two bytes.
  lemma LowerNibbleField(d: Data, i: nat)
    requires i < |d|
    ensures FieldValue(d, 8 * i, 4) == d[i] % 0x10
  {
    FieldInByte(d, i, 0, 4);
    Nibbles(d[i]);
  }

  lemma UpperNibbleField(d: Data, i: nat)
    requires i < |d|
    ensures FieldValue(d, 8 * i + 4, 4) == d[i] / 0x10
  {
    FieldInByte(d, i, 4, 4);
    UpperNibble(d[i]);
  }

  lemma ByteField(d: Data, i: nat)
    requires i < |d|
    ensures FieldValue(d, 8 * i, 8) == d[i]
  {
    FieldInByte(d, i, 0, 8);
    LowByte(d[i]);
  }

  lemma WordField(d: Data, i: nat)
    requires i + 1 < |d|
    ensures FieldValue(d, 8 * i, 16) == Le16(d[i], d[i + 1])
  {
    ByteField(d, i);
    ByteField(d, i + 1);
    FieldConcat(d, 8 * i, 8, 8);
    Shl8(d[i + 1]);
  }

  lemma LowerStraddle(d: Data, i: nat)
    requires i + 1 < |d|
    ensures FieldValue(d, 8 * i, 12) == (d[i] as int) + 0x100 * (d[i + 1] as int % 0x10)
  {
    ByteField(d, i);
    LowerNibbleField(d, i + 1);
    FieldConcat(d, 8 * i, 8, 4);
    Shl8(d[i + 1] % 0x10);
  }

  lemma UpperStraddle(d: Data, i: nat)
    requires i + 1 < |d|
    ensures FieldValue(d, 8 * i + 4, 12) == (d[i] as int) / 0x10 + 0x10 * (d[i + 1] as int)
  {
    UpperNibbleField(d, i);
    ByteField(d, i + 1);
    FieldConcat(d, 8 * i + 4, 4, 8);
    Shl4(d[i + 1]);
  }

  lemma Shl4(x: nat)
    ensures Shl(4, x) == 0x10 * x
  {
    assert Shl(1, x) == 2 * Shl(0, x);
    assert Shl(2, x) == 2 * Shl(1, x);
    assert Shl(3, x) == 2 * Shl(2, x);
    assert Shl(4, x) == 2 * Shl(3, x);
  }

  lemma Shl8(x: nat)
    ensures Shl(8, x) == 0x100 * x
  {
    Shl4(x);
    assert Shl(5, x) == 2 * Shl(4, x);
    assert Shl(6, x) == 2 * Shl(5, x);
    assert Shl(7, x) == 2 * Shl(6, x);
    assert Shl(8, x) == 2 * Shl(7, x);
  }

  // ---------- switch2-bt.c ----------

  datatype Controls = Controls(buttons: nat, lx: nat, ly: nat, rx: nat, ry: nat, dpad: nat)

  predicate Ranged(c: Controls) {
    c.buttons < 0x100_0000 && c.lx < 0x1000 && c.ly < 0x1000 && c.rx < 0x1000 && c.ry < 0x1000 && c.dpad <= 8
  }

  function Hat(nibble: nat): (h: nat)
    ensures h <= 8
  {
    match nibble
    case 0x1 => 4
    case 0x2 => 2
    case 0x4 => 6
    case 0x8 => 0
    case 0xA => 1
    case 0xC => 7
    case 0x3 => 3
    case 0x5 => 5
    case _ => 8
  }

  // Bits of the d-pad nibble.
  predicate Down(n: nat) { n % 2 == 1 }
  predicate Right(n: nat) { n / 2 % 2 == 1 }
  predicate Left(n: nat) { n / 4 % 2 == 1 }
  predicate Up(n: nat) { n / 8 % 2 == 1 }

  /** The hat points where the pressed directions point, clockwise from 0 for up, and is centred exactly when none is
      pressed or two opposite ones are. */
  lemma HatFollowsDirections(n: nat)
    requires n < 0x10
    ensures Hat(n) < 8 ==> (Up(n) <==> Hat(n) in {7, 0, 1}) && (Right(n) <==> Hat(n) in {1, 2, 3}) &&
                           (Down(n) <==> Hat(n) in {3, 4, 5}) && (Left(n) <==> Hat(n) in {5, 6, 7})
    ensures Hat(n) == 8 <==> n == 0 || (Up(n) && Down(n)) || (Left(n) && Right(n))
  {
    assert n in {0, 1, 2, 3, 4, 5, 6, 7, 8, 9, 10, 11, 12, 13, 14, 15};
  }

  // Three bytes of a stick as parse_input takes them apart.
  function StickX(a: Byte, b: Byte): (x: nat)
    ensures x < 0x1000
  {
    (a as int) * 0x10 + b / 0x10
  }

  function StickY(b: Byte, c: Byte): (y: nat)
    ensures y < 0x1000
  {
    (c as int) * 0x10 + b % 0x10
  }

  // ((high << 4) | low) & 0xFFF
  function Packed(high: Byte, low: nat): (p: nat)
    requires low < 0x10
    ensures p == 0x10 * (high as int) + low
  {
    ((high as int) * 0x10 + low) % 0x1000
  }

  function Decoded(d: Data): (c: Controls)
    requires |d| >= 11
    ensures Ranged(c)
  {
    Controls((d[2] as int) + 0x100 * (d[3] as int) + 0x1_0000 * (d[4] as int),
             StickX(d[5], d[6]), StickY(d[6], d[7]), StickX(d[8], d[9]), StickY(d[9], d[10]), Hat(d[3] % 0x10))
  }

  // x & 0xFF
  function Masked(x: nat): Byte {
    x % 0x100
  }

  // The thirteen bytes build_hid_report fills in.
  function Report(c: Controls): (r: Data)
    requires Ranged(c)
    ensures |r| == DAEMON_INPUT_SIZE
  {
    Below21(c.buttons);
    var b := Low(c.buttons, 21);
    [1, Masked(b), Masked(b / 0x100), Masked(b / 0x1_0000),
     Masked(c.lx), Masked(c.lx / 0x100), Masked(c.ly), Masked(c.ly / 0x100),
     Masked(c.rx), Masked(c.rx / 0x100), Masked(c.ry), Masked(c.ry / 0x100), c.dpad]
  }

  class Controller {
    var buttons: nat
    var lx: nat
    var ly: nat
    var rx: nat
    var ry: nat
    var dpad: nat

    ghost function Values(): Controls
      reads this
    {
      Controls(buttons, lx, ly, rx, ry, dpad)
    }

    /** parse_input: a report of fewer than eleven bytes changes nothing. */
    method ParseInput(d: Data)
      modifies this
      ensures Values() == if |d| < 11 then old(Values()) else Decoded(d)
    {
      if |d| < 11 { return; }
      buttons := (d[2] as int) + 0x100 * (d[3] as int) + 0x1_0000 * (d[4] as int);
      lx := Packed(d[5], d[6] / 0x10);
      ly := Packed(d[7], d[6] % 0x10);
      rx := Packed(d[8], d[9] / 0x10);
      ry := Packed(d[10], d[9] % 0x10);
      dpad := Hat(d[3] % 0x10);
    }

    // The buttons are copied one by one, the first twenty-one of them.
    method MappedButtons() returns (b: nat)
      ensures b == Low(buttons, 21)
    {
      b := 0;
      var weight: nat := 1;
      for k := 0 to 21
        invariant weight == Shl(k, 1) && b == Low(buttons, k)
      {
        LowExtends(buttons, k);
        ShlZero(k);
        if Shift(buttons, k) % 2 == 1 { b := b + weight; }
        weight := 2 * weight;
      }
    }

    /** build_hid_report */
    method BuildHidReport(r: array<Byte>)
      requires r.Length == DAEMON_INPUT_SIZE && Ranged(Values())
      modifies r
      ensures r[..] == Report(Values())
    {
      var b := MappedButtons();
      Below21(buttons);
      r[0] := 1;
      r[1], r[2], r[3] := Masked(b), Masked(b / 0x100), Masked(b / 0x1_0000);
      r[4], r[5] := Masked(lx), Masked(lx / 0x100);
      r[6], r[7] := Masked(ly), Masked(ly / 0x100);
      r[8], r[9] := Masked(rx), Masked(rx / 0x100);
      r[10], r[11] := Masked(ry), Masked(ry / 0x100);
      r[12] := dpad % 0x10;
      assert r[..] == Report(Values());
    }
  }

  lemma {:induction false} LowExtends(x: nat, n: nat)
    ensures Low(x, n + 1) == Low(x, n) + Shl(n, Shift(x, n) % 2)
  {
    if n > 0 {
      LowExtends(x / 2, n - 1);
    }
  }

  lemma {:induction false} ShlZero(n: nat)
    ensures Shl(n, 0) == 0
  {
    if n > 0 { ShlZero(n - 1); }
  }

  lemma Below21(x: nat)
    ensures Low(x, 21) < 0x20_0000
  {
    assert Pow2(6) == 64;
    assert Pow2(12) == 4096;
    assert Pow2(18) == 0x4_0000;
    assert Pow2(21) == 0x20_0000;
  }

  // ---------- what a host that follows the descriptor reads ----------

  lemma {:induction false} ShiftOfSum(lo: nat, hi: nat, n: nat, k: nat)
    requires lo < Pow2(n)
    ensures k >= n ==> Shift(lo + Shl(n, hi), k) == Shift(hi, k - n)
    ensures k < n ==> Shift(lo + Shl(n, hi), k) % 2 == Shift(lo, k) % 2
    decreases n
  {
    if n > 0 {
      assert (lo + Shl(n, hi)) % 2 == lo % 2;
      if k > 0 {
        assert (lo + Shl(n, hi)) / 2 == lo / 2 + Shl(n - 1, hi);
        ShiftOfSum(lo / 2, hi, n - 1, k - 1);
      }
    }
  }

  lemma ShiftOfBytes(lo: Byte, hi: nat, k: nat)
    ensures k >= 8 ==> Shift(lo + 0x100 * hi, k) == Shift(hi, k - 8)
    ensures k < 8 ==> Shift(lo + 0x100 * hi, k) % 2 == Shift(lo, k) % 2
  {
    Shl8(hi);
    Powers();
    ShiftOfSum(lo, hi, 8, k);
  }

  // The bits of three bytes are the bits of the number they make, lowest byte first.
  lemma BitOfThreeBytes(d: Data, k: nat)
    requires |d| >= 3 && k < 24
    ensures Bit(d, k) == Shift((d[0] as int) + 0x100 * (d[1] as int) + 0x1_0000 * (d[2] as int), k) % 2
  {
    var upper: nat := (d[1] as int) + 0x100 * (d[2] as int);
    assert (d[0] as int) + 0x100 * upper == (d[0] as int) + 0x100 * (d[1] as int) + 0x1_0000 * (d[2] as int);
    ShiftOfBytes(d[0], upper, k);
    if k >= 8 {
      ShiftOfBytes(d[1], d[2], k - 8);
      if k >= 16 {
        assert k / 8 == 2 && k % 8 == k - 16;
      } else {
        assert k / 8 == 1 && k % 8 == k - 8;
      }
    } else {
      assert k / 8 == 0 && k % 8 == k;
    }
  }

  lemma {:induction false} BitsOfLow(x: nat, n: nat, k: nat)
    ensures Shift(Low(x, n), k) % 2 == if k < n then Shift(x, k) % 2 else 0
    decreases k
  {
    if n == 0 {
      ShiftZero(k);
    } else if k > 0 {
      BitsOfLow(x / 2, n - 1, k - 1);
    }
  }

  lemma {:induction false} ShiftZero(k: nat)
    ensures Shift(0, k) == 0
  {
    if k > 0 { ShiftZero(k - 1); }
  }

  lemma ThreeBytes(b: nat)
    requires b < 0x100_0000
    ensures b == (Masked(b) as int) + 0x100 * (Masked(b / 0x100) as int) + 0x1_0000 * (Masked(b / 0x1_0000) as int)
  {
  }

  // The button bytes of a report are those of the number copied.
  lemma ButtonBytes(c: Controls)
    requires Ranged(c)
    ensures var r, b := Report(c)[1..], Low(c.buttons, 21);
            (r[0] as int) + 0x100 * (r[1] as int) + 0x1_0000 * (r[2] as int) == b
  {
    Below21(c.buttons);
    var r, b := Report(c)[1..], Low(c.buttons, 21);
    assert r[0] == Masked(b) && r[1] == Masked(b / 0x100) && r[2] == Masked(b / 0x1_0000);
    ThreeBytes(b);
  }

  lemma ReportedButton(c: Controls, k: nat)
    requires Ranged(c) && k < 24
    ensures Bit(Report(c)[1..], k) == if k < 21 then Shift(c.buttons, k) % 2 else 0
  {
    BitOfThreeBytes(Report(c)[1..], k);
    ButtonBytes(c);
    BitsOfLow(c.buttons, 21, k);
  }

  lemma DecodedButton(d: Data, k: nat)
    requires |d| >= 11 && k < 24
    ensures Shift(Decoded(d).buttons, k) % 2 == Bit(d[2..5], k)
  {
    BitOfThreeBytes(d[2..5], k);
  }

  /** The buttons of a report under hid_report_descriptor: the first twenty-one as the controller sent them, the
      last three always released. */
  lemma DaemonButtons(d: Data, k: nat)
    requires |d| >= 11 && k < 24
    ensures Fits(DAEMON_FIELDS[0], Report(Decoded(d)))
    ensures Control(DAEMON_FIELDS[0], k, Report(Decoded(d))) == if k < 21 then Bit(d[2..5], k) else 0
  {
    ReportedButton(Decoded(d), k);
    DecodedButton(d, k);
    OneBitControl(DAEMON_FIELDS[0], k, Report(Decoded(d)));
  }

  /** All twenty-four declared buttons read as sent exactly when the top three bits of the button bytes are clear. */
  lemma DaemonButtonsAsSent(d: Data)
    requires |d| >= 11
    ensures (forall k | 0 <= k < 24 :: Control(DAEMON_FIELDS[0], k, Report(Decoded(d))) == Bit(d[2..5], k))
            <==> d[4] < 0x20
  {
    TopBits(d[2..5]);
    forall k | 0 <= k < 24
      ensures Control(DAEMON_FIELDS[0], k, Report(Decoded(d))) == if k < 21 then Bit(d[2..5], k) else 0
    {
      DaemonButtons(d, k);
    }
  }

  lemma TopBits(d: Data)
    requires |d| == 3
    ensures Bit(d, 21) == Bit(d, 22) == Bit(d, 23) == 0 <==> d[2] < 0x20
  {
    TopBitsOfByte(d[2]);
    assert 21 / 8 == 22 / 8 == 23 / 8 == 2 && 21 % 8 == 5 && 22 % 8 == 6 && 23 % 8 == 7;
  }

  lemma TopBitsOfByte(b: Byte)
    ensures Shift(b, 5) % 2 == Shift(b, 6) % 2 == Shift(b, 7) % 2 == 0 <==> b < 0x20
  {
    Nibbles(b);
    ShiftOnce(b, 4);
    ShiftOnce(b, 5);
    ShiftOnce(b, 6);
    var h := b / 0x10;
    assert Shift(b, 5) == h / 2 && Shift(b, 6) == h / 2 / 2 && Shift(b, 7) == h / 2 / 2 / 2;
  }

  function Axis(c: Controls, i: nat): nat
    requires i < 4
  {
    if i == 0 then c.lx else if i == 1 then c.ly else if i == 2 then c.rx else c.ry
  }

  lemma AxisField(c: Controls, i: nat)
    requires Ranged(c) && i < 4
    ensures FieldValue(Report(c)[1..], 24 + i * 16, 16) == Axis(c, i)
  {
    var r := Report(c)[1..];
    WordField(r, 3 + 2 * i);
    AxisBytes(c, i);
    TwoBytes(Axis(c, i));
    assert 8 * (3 + 2 * i) == 24 + i * 16;
  }

  lemma AxisBytes(c: Controls, i: nat)
    requires Ranged(c) && i < 4
    ensures Report(c)[4 + 2 * i] == Masked(Axis(c, i)) && Report(c)[5 + 2 * i] == Masked(Axis(c, i) / 0x100)
    ensures Axis(c, i) < 0x1000
  {
    var r := Report(c);
    assert r[4] == Masked(c.lx) && r[5] == Masked(c.lx / 0x100) && r[6] == Masked(c.ly) && r[7] == Masked(c.ly / 0x100);
    assert r[8] == Masked(c.rx) && r[9] == Masked(c.rx / 0x100) && r[10] == Masked(c.ry);
    assert r[11] == Masked(c.ry / 0x100);
  }

  lemma TwoBytes(x: nat)
    requires x < 0x1000
    ensures Le16(Masked(x), Masked(x / 0x100)) == x
  {
  }

  /** The four 16-bit axes hold the sticks, in the declared range. */
  lemma DaemonAxes(c: Controls, i: nat)
    requires Ranged(c) && i < 4
    ensures var r, f := Report(c), DAEMON_FIELDS[1];
            Fits(f, r) && Control(f, i, r) == Axis(c, i) && f.min <= Control(f, i, r) <= f.max
  {
    var r, f := Report(c), DAEMON_FIELDS[1];
    AxisField(c, i);
    AxisBytes(c, i);
    assert Control(f, i, r) == FieldValue(r[1..], 24 + i * 16, 16);
  }

  /** What a host reads on the axes is in the raw report: x of the left stick in byte 5 and the upper half of byte 6,
      its y in byte 7 and the lower half of byte 6, the right stick likewise three bytes later. */
  lemma DaemonAxesRaw(d: Data, i: nat)
    requires |d| >= 11 && i < 4
    ensures var r, f := Report(Decoded(d)), DAEMON_FIELDS[1];
            Fits(f, r) &&
            Control(f, i, r) == if i == 0 then 16 * (d[5] as int) + d[6] / 16
                                else if i == 1 then 16 * (d[7] as int) + d[6] % 16
                                else if i == 2 then 16 * (d[8] as int) + d[9] / 16
                                else 16 * (d[10] as int) + d[9] % 16
  {
    DaemonAxes(Decoded(d), i);
  }

  lemma HatByte(r: Data, i: nat)
    requires i < |r| && r[i] < 0x10
    ensures FieldValue(r, 8 * i, 4) == r[i] && FieldValue(r, 8 * i + 4, 4) == 0
  {
    LowerNibbleField(r, i);
    UpperNibbleField(r, i);
  }

  /** The hat is a direction in range, or the null value 8; the padding is zero. */
  lemma DaemonHat(c: Controls)
    requires Ranged(c)
    ensures var r, hat, padding := Report(c), DAEMON_FIELDS[2], DAEMON_FIELDS[3];
            Fits(hat, r) && Fits(padding, r) && Control(hat, 0, r) == c.dpad && Acceptable(hat, c.dpad) &&
            Control(padding, 0, r) == 0
  {
    HatByte(Report(c)[1..], 11);
    OneControl(DAEMON_FIELDS[2], Report(c));
    OneControl(DAEMON_FIELDS[3], Report(c));
  }

  /** What a host reads on the hat is in the low half of byte 3 of the raw report: it points where the directions
      pressed there point, and is centred exactly when none is pressed or two opposite ones are. */
  lemma DaemonHatRaw(d: Data)
    requires |d| >= 11
    ensures var hat := DAEMON_FIELDS[2];
            Fits(hat, Report(Decoded(d))) && HatReads(d[3] % 16, Control(hat, 0, Report(Decoded(d))))
  {
    DaemonHat(Decoded(d));
    HatFollowsDirections(d[3] % 16);
  }

  // Bit 0 of the nibble is down, 1 right, 2 left, 3 up; the hat counts clockwise from up.
  predicate HatReads(n: nat, hat: nat) {
    && (hat < 8 ==>
          && (n / 8 % 2 == 1 <==> hat in {7, 0, 1}) && (n / 2 % 2 == 1 <==> hat in {1, 2, 3})
          && (n % 2 == 1 <==> hat in {3, 4, 5}) && (n / 4 % 2 == 1 <==> hat in {5, 6, 7}))
    && (hat == 8 <==> n == 0 || (n / 8 % 2 == 1 && n % 2 == 1) || (n / 4 % 2 == 1 && n / 2 % 2 == 1))
    && hat <= 8
  }

  // Bits of all fields of one report.
  function Declared(fields: seq<Field>, kind: Kind, report: nat): nat {
    if fields == [] then 0
    else (if fields[0].kind == kind && fields[0].report == report then fields[0].count * fields[0].size else 0)
         + Declared(fields[1..], kind, report)
  }

  /** Each descriptor declares exactly the bits the builder sends after the report ID, and the output report the
      bytes the header counts for it. */
  lemma LengthsAgree(c: Controls, d: Data)
    requires Ranged(c) && |d| >= 11
    ensures Declared(Interpret(DAEMON_DESCRIPTOR, 0, START).fields, Input, 1) == 8 * (|Report(c)| - 1)
    ensures Declared(Interpret(DAEMON_DESCRIPTOR, 0, START).fields, Output, 2) == 8 * (DAEMON_OUTPUT_SIZE - 1)
    ensures Declared(Interpret(GAMEPAD_DESCRIPTOR, 0, START).fields, Input, 1) == 8 * (|GamepadReport(d)| - 1)
  {
    DaemonInterpreted();
    GamepadInterpreted();
    var f, g := DAEMON_FIELDS, GAMEPAD_FIELDS;
    Declared5(f, Input, 1);
    Declared5(f, Output, 2);
    Declared5(g, Input, 1);
  }

  function Bits(f: Field, kind: Kind, report: nat): nat {
    if f.kind == kind && f.report == report then f.count * f.size else 0
  }

  lemma Declared5(f: seq<Field>, kind: Kind, report: nat)
    requires |f| == 5
    ensures Declared(f, kind, report) == Bits(f[0], kind, report) + Bits(f[1], kind, report) + Bits(f[2], kind, report)
                                         + Bits(f[3], kind, report) + Bits(f[4], kind, report)
  {
    assert f == [f[0], f[1], f[2], f[3], f[4]];
    assert f[4..][1..] == [];
    assert Declared(f[4..], kind, report) == Bits(f[4], kind, report);
    assert f[3..][1..] == f[4..] && f[2..][1..] == f[3..] && f[1..][1..] == f[2..];
    assert Declared(f[3..], kind, report) == Bits(f[3], kind, report) + Declared(f[4..], kind, report);
    assert Declared(f[2..], kind, report) == Bits(f[2], kind, report) + Declared(f[3..], kind, report);
    assert Declared(f[1..], kind, report) == Bits(f[1], kind, report) + Declared(f[2..], kind, report);
  }

  // ---------- what parse_input keeps ----------

  /** The sticks parse_input finds determine the six bytes they came from. */
  lemma SticksDetermineBytes(d: Data, e: Data)
    requires |d| >= 11 && |e| >= 11
    ensures (Decoded(d).lx == Decoded(e).lx && Decoded(d).ly == Decoded(e).ly &&
             Decoded(d).rx == Decoded(e).rx && Decoded(d).ry == Decoded(e).ry) <==> d[5..11] == e[5..11]
  {
    StickBytes(d[5], d[6], d[7], e[5], e[6], e[7]);
    StickBytes(d[8], d[9], d[10], e[8], e[9], e[10]);
    assert d[5..11] == [d[5], d[6], d[7], d[8], d[9], d[10]];
    assert e[5..11] == [e[5], e[6], e[7], e[8], e[9], e[10]];
  }

  lemma StickBytes(a: Byte, b: Byte, c: Byte, x: Byte, y: Byte, z: Byte)
    ensures StickX(a, b) == StickX(x, y) && StickY(b, c) == StickY(y, z) <==> a == x && b == y && c == z
  {
    assert StickX(a, b) / 0x10 == a && StickX(a, b) % 0x10 == b / 0x10;
    assert StickX(x, y) / 0x10 == x && StickX(x, y) % 0x10 == y / 0x10;
    assert StickY(b, c) / 0x10 == c && StickY(b, c) % 0x10 == b % 0x10;
    assert StickY(y, z) / 0x10 == z && StickY(y, z) % 0x10 == y % 0x10;
  }

  // decode_stick12 of switch2d.py on the same three bytes: x and y.
  function Stick12(a: Byte, b: Byte, c: Byte): (int, int) {
    ((b as int) % 0x10 * 0x100 + a, (c as int) * 0x10 + b / 0x10)
  }

  /** The Python decoder reads the same bytes by another layout; the two agree on a stick exactly when its middle
      byte repeats one nibble and its first byte repeats the same one. */
  lemma StickDecodersAgree(a: Byte, b: Byte, c: Byte)
    ensures Stick12(a, b, c) == (StickX(a, b), StickY(b, c)) <==> b == 0x11 * (b as int % 0x10) && a == b
  {
    var h, l := (b as int) / 0x10, (b as int) % 0x10;
    assert b == 0x10 * h + l;
    assert Stick12(a, b, c) == (l * 0x100 + a, c * 0x10 + h);
    assert StickX(a, b) == a * 0x10 + h && StickY(b, c) == c * 0x10 + l;
    SameStick(a, h, l);
  }

  lemma SameStick(a: int, h: int, l: int)
    requires 0 <= h < 0x10 && 0 <= l < 0x10
    ensures l * 0x100 + a == a * 0x10 + h && h == l <==> 0x10 * h + l == 0x11 * l && a == 0x10 * h + l
  {
  }

  // ---------- sw2d.c ----------

  function StickAt(d: Data, at: nat): (v: nat)
    ensures v < 0x1000
  {
    if at + 1 >= |d| then 2048 else Le16(d[at], d[at + 1]) % 0x1000
  }

  // The byte two 12-bit values share: the upper nibble of the first, the lower of the second.
  function Straddle(x: nat, y: nat): (b: Byte)
    requires x < 0x1000 && y < 0x1000
    ensures x == x % 0x100 + 0x100 * (b % 0x10) && y == b / 0x10 + 0x10 * (y / 0x10)
  {
    var lower := y % 0x10;
    var b := x / 0x100 + 0x10 * lower;
    assert b / 0x10 == lower && b % 0x10 == x / 0x100;
    b
  }

  function Pressed(d: Data, k: nat): (b: nat)
    requires |d| >= 11 && k < 16
    ensures b < 2
  {
    Bit(d[1..3], k)
  }

  // The thirteen bytes of a report with the sticks packed in twelve bits each.
  function GamepadReport(d: Data): (r: Data)
    requires |d| >= 11
    ensures |r| == 13
  {
    var lx, ly, rx, ry := StickAt(d, 3), StickAt(d, 5), StickAt(d, 7), StickAt(d, 9);
    [1, d[1], d[2], Pressed(d, 6) + 2 * Pressed(d, 7),
     lx % 0x100, Straddle(lx, ly), ly / 0x10,
     rx % 0x100, Straddle(rx, ry), ry / 0x10,
     8, 0xFF * Pressed(d, 6), 0xFF * Pressed(d, 7)]
  }

  /** report09_to_uhid: the number of bytes written, or -1 for a report it does not take or too small a buffer. */
  method Report09ToUhid(d: Data, out: array<Byte>) returns (n: int)
    modifies out
    ensures n == if |d| < 11 || d[0] != 0x09 || out.Length < 13 then -1 else 13
    ensures n == -1 ==> out[..] == old(out[..])
    ensures n == 13 ==> out[..13] == GamepadReport(d) && out[13..] == old(out[13..])
  {
    if |d| < 11 || d[0] != 0x09 || out.Length < 13 { return -1; }
    var lx, ly, rx, ry := StickAt(d, 3), StickAt(d, 5), StickAt(d, 7), StickAt(d, 9);
    out[0], out[1], out[2] := 1, d[1], d[2];
    out[3] := Pressed(d, 6) + 2 * Pressed(d, 7);
    out[4] := lx % 0x100;
    out[5] := Straddle(lx, ly);
    out[6] := ly / 0x10;
    out[7] := rx % 0x100;
    out[8] := Straddle(rx, ry);
    out[9] := ry / 0x10;
    out[10] := 8;
    out[11], out[12] := 0xFF * Pressed(d, 6), 0xFF * Pressed(d, 7);
    n := 13;
    assert out[..13] == GamepadReport(d);
  }

  lemma GamepadThirdByte(d: Data, k: nat)
    requires |d| >= 11 && 16 <= k < 24
    ensures Bit(GamepadReport(d)[1..], k) == if k < 18 then Pressed(d, k - 10) else 0
  {
    assert k / 8 == 2 && k % 8 == k - 16;
    assert GamepadReport(d)[1..][2] == Pressed(d, 6) + 2 * Pressed(d, 7);
    TwoBits(Pressed(d, 6), Pressed(d, 7), k - 16);
  }

  lemma GamepadBit(d: Data, k: nat)
    requires |d| >= 11 && k < 24
    ensures Bit(GamepadReport(d)[1..], k)
            == if k < 16 then Pressed(d, k) else if k < 18 then Pressed(d, k - 10) else 0
  {
    var r := GamepadReport(d)[1..];
    if k >= 16 {
      GamepadThirdByte(d, k);
    } else {
      assert r[k / 8] == d[1..3][k / 8];
    }
  }

  /** Under gamepad_rdesc the sixteen button bits read as sent, buttons 17 and 18 repeat bits 6 and 7, the rest are
      released. */
  lemma GamepadButtons(d: Data, k: nat)
    requires |d| >= 11 && k < 24
    ensures var r, f := GamepadReport(d), GAMEPAD_FIELDS[0];
            Fits(f, r) && Control(f, k, r) == if k < 16 then Pressed(d, k) else if k < 18 then Pressed(d, k - 10) else 0
  {
    GamepadBit(d, k);
    OneBitControl(GAMEPAD_FIELDS[0], k, GamepadReport(d));
  }

  lemma TwoBits(a: nat, b: nat, k: nat)
    requires a < 2 && b < 2
    ensures Shift(a + 2 * b, k) % 2 == if k == 0 then a else if k == 1 then b else 0
  {
    if k > 1 {
      assert Shift(a + 2 * b, k) == Shift(b, k - 1) == Shift(0, k - 2);
      ShiftZero(k - 2);
    } else if k == 1 {
      assert Shift(a + 2 * b, k) == Shift(b, 0);
    }
  }

  lemma GamepadLeft(d: Data)
    requires |d| >= 11
    ensures FieldValue(GamepadReport(d)[1..], 24, 12) == StickAt(d, 3)
    ensures FieldValue(GamepadReport(d)[1..], 36, 12) == StickAt(d, 5)
  {
    var r := GamepadReport(d)[1..];
    LowerStraddle(r, 3);
    UpperStraddle(r, 4);
    assert r[3] == StickAt(d, 3) % 0x100 && r[4] == Straddle(StickAt(d, 3), StickAt(d, 5));
    assert r[5] == StickAt(d, 5) / 0x10;
  }

  lemma GamepadRight(d: Data)
    requires |d| >= 11
    ensures FieldValue(GamepadReport(d)[1..], 48, 12) == StickAt(d, 7)
    ensures FieldValue(GamepadReport(d)[1..], 60, 12) == StickAt(d, 9)
  {
    var r := GamepadReport(d)[1..];
    LowerStraddle(r, 6);
    UpperStraddle(r, 7);
    assert r[6] == StickAt(d, 7) % 0x100 && r[7] == Straddle(StickAt(d, 7), StickAt(d, 9));
    assert r[8] == StickAt(d, 9) / 0x10;
  }

  lemma GamepadField(d: Data, i: nat)
    requires |d| >= 11 && i < 4
    ensures FieldValue(GamepadReport(d)[1..], 24 + i * 12, 12) == StickAt(d, 2 * i + 3)
  {
    GamepadLeft(d);
    GamepadRight(d);
    assert i == 0 || i == 1 || i == 2 || i == 3;
  }

  /** The four 12-bit axes, two of them straddling bytes, hold the sticks the raw report carries. */
  lemma GamepadAxes(d: Data, i: nat)
    requires |d| >= 11 && i < 4
    ensures var r, f := GamepadReport(d), GAMEPAD_FIELDS[1];
            Fits(f, r) && f.min <= Control(f, i, r) <= f.max &&
            Control(f, i, r) == Le16(d[2 * i + 3], d[2 * i + 4]) % 0x1000
  {
    var r, f := GamepadReport(d), GAMEPAD_FIELDS[1];
    GamepadField(d, i);
    assert Control(f, i, r) == FieldValue(r[1..], 24 + i * 12, 12);
  }

  /** The hat is always centred, which its range includes, and the padding is zero. */
  lemma GamepadHat(d: Data)
    requires |d| >= 11
    ensures var r, hat, padding := GamepadReport(d), GAMEPAD_FIELDS[2], GAMEPAD_FIELDS[3];
            Fits(hat, r) && Fits(padding, r) && Control(hat, 0, r) == 8 <= hat.max && Control(padding, 0, r) == 0
  {
    HatByte(GamepadReport(d)[1..], 9);
    OneControl(GAMEPAD_FIELDS[2], GamepadReport(d));
    OneControl(GAMEPAD_FIELDS[3], GamepadReport(d));
  }

  /** Each trigger is at one end of its range, as bit 6 or 7 says. */
  lemma GamepadTriggers(d: Data, i: nat)
    requires |d| >= 11 && i < 2
    ensures var r, f := GamepadReport(d), GAMEPAD_FIELDS[4];
            Fits(f, r) && Control(f, i, r) == if Pressed(d, 6 + i) == 1 then f.max else f.min
  {
    var r := GamepadReport(d)[1..];
    ByteField(r, 10 + i);
    assert r[10 + i] == 0xFF * Pressed(d, 6 + i);
    assert Control(GAMEPAD_FIELDS[4], i, GamepadReport(d)) == FieldValue(r, 80 + i * 8, 8);
  }
}
