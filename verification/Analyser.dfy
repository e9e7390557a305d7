/** tools/dump_reports.py: two loops over the same reports, one counting changes and values position by position,
    one sorting positions into static and dynamic ones. */
module Analyser {
  import opened Bytes
  import opened Wrappers

  // ---------- what the loops compute, at one position ----------

  // Whether a report reaches the position.
  predicate Reaches(report: Data, pos: nat) {
    pos < |report|
  }

  // How often a report and the one before it both reach the position and differ there.
  function Changes(reports: seq<Data>, pos: nat): nat {
    if reports == [] then 0
    else Changes(reports[..|reports| - 1], pos) + if Changed(reports, pos) then 1 else 0
  }

  predicate Changed(reports: seq<Data>, pos: nat)
    requires reports != []
  {
    |reports| > 1 && Reaches(reports[|reports| - 1], pos) && Reaches(reports[|reports| - 2], pos) &&
    reports[|reports| - 2][pos] != reports[|reports| - 1][pos]
  }

  // In how many unbroken stretches of the list the reports reach the position.
  function Stretches(reports: seq<Data>, pos: nat): nat {
    if reports == [] then 0
    else Stretches(reports[..|reports| - 1], pos) +
         if Reaches(reports[|reports| - 1], pos) && (|reports| == 1 || !Reaches(reports[|reports| - 2], pos))
         then 1 else 0
  }

  function Reached(reports: seq<Data>, pos: nat): nat {
    if reports == [] then 0
    else Reached(reports[..|reports| - 1], pos) + if Reaches(reports[|reports| - 1], pos) then 1 else 0
  }

  function Values(reports: seq<Data>, pos: nat): set<Byte> {
    if reports == [] then {}
    else Values(reports[..|reports| - 1], pos)
         + if Reaches(reports[|reports| - 1], pos) then {reports[|reports| - 1][pos]} else {}
  }

  predicate Static(reports: seq<Data>, pos: nat) {
    |Values(reports, pos)| == 1
  }

  function Count(reports: seq<Data>, pos: nat, v: Byte): nat {
    if reports == [] then 0
    else Count(reports[..|reports| - 1], pos, v)
         + if Reaches(reports[|reports| - 1], pos) && reports[|reports| - 1][pos] == v then 1 else 0
  }

  // The counts of the values below n.
  function CountsBelow(reports: seq<Data>, pos: nat, n: nat): nat
    requires n <= 0x100
  {
    if n == 0 then 0 else CountsBelow(reports, pos, n - 1) + Count(reports, pos, n - 1)
  }

  // ---------- the same, as numbers of reports ----------

  // Where in the list a report changes the position, reaches it, or has the value there.
  function ChangePoints(reports: seq<Data>, pos: nat): set<int> {
    set i | 0 <= i < |reports| && ChangesAt(reports, pos, i)
  }

  predicate ChangesAt(reports: seq<Data>, pos: nat, i: int)
    requires 0 <= i < |reports|
  {
    i > 0 && pos < |reports[i]| && pos < |reports[i - 1]| && reports[i - 1][pos] != reports[i][pos]
  }

  function ReachPoints(reports: seq<Data>, pos: nat): set<int> {
    set i | 0 <= i < |reports| && pos < |reports[i]|
  }

  function ValuePoints(reports: seq<Data>, pos: nat, v: Byte): set<int> {
    set i | 0 <= i < |reports| && pos < |reports[i]| && reports[i][pos] == v
  }

  lemma OneChangeMore(reports: seq<Data>, pos: nat)
    requires reports != []
    ensures var n := |reports| - 1;
            && n !in ChangePoints(reports[..n], pos)
            && ChangePoints(reports, pos) == ChangePoints(reports[..n], pos) + if Changed(reports, pos) then {n} else {}
  {
    var n := |reports| - 1;
    assert forall i | 0 <= i < n :: ChangesAt(reports[..n], pos, i) == ChangesAt(reports, pos, i);
    assert ChangesAt(reports, pos, n) == Changed(reports, pos);
  }

  lemma {:induction false} ChangesAreCounted(reports: seq<Data>, pos: nat)
    ensures Changes(reports, pos) == |ChangePoints(reports, pos)|
  {
    if reports != [] {
      ChangesAreCounted(reports[..|reports| - 1], pos);
      OneChangeMore(reports, pos);
    }
  }

  lemma {:induction false} ReachesAreCounted(reports: seq<Data>, pos: nat)
    ensures Reached(reports, pos) == |ReachPoints(reports, pos)|
  {
    if reports != [] {
      var n := |reports| - 1;
      ReachesAreCounted(reports[..n], pos);
      assert ReachPoints(reports, pos)
             == ReachPoints(reports[..n], pos) + if Reaches(reports[n], pos) then {n} else {};
    }
  }

  lemma OnePointMore(reports: seq<Data>, pos: nat, v: Byte)
    requires reports != []
    ensures var n := |reports| - 1;
            && n !in ValuePoints(reports[..n], pos, v)
            && ValuePoints(reports, pos, v)
               == ValuePoints(reports[..n], pos, v) + if pos < |reports[n]| && reports[n][pos] == v then {n} else {}
  {
    var n := |reports| - 1;
    assert forall i | 0 <= i < n :: reports[..n][i] == reports[i];
  }

  lemma {:induction false} ValuesArePresent(reports: seq<Data>, pos: nat, v: Byte)
    ensures Count(reports, pos, v) == |ValuePoints(reports, pos, v)|
    ensures v in Values(reports, pos) <==> |ValuePoints(reports, pos, v)| > 0
  {
    if reports != [] {
      ValuesArePresent(reports[..|reports| - 1], pos, v);
      OnePointMore(reports, pos, v);
    }
  }

  // ---------- how they agree ----------

  lemma {:induction false} ValuesAreCounted(reports: seq<Data>, pos: nat, v: Byte)
    ensures v in Values(reports, pos) <==> Count(reports, pos, v) > 0
  {
    if reports != [] { ValuesAreCounted(reports[..|reports| - 1], pos, v); }
  }

  lemma {:induction false} CountsAddOne(reports: seq<Data>, pos: nat, n: nat)
    requires reports != [] && n <= 0x100
    ensures var last := reports[|reports| - 1];
            CountsBelow(reports, pos, n) ==
            CountsBelow(reports[..|reports| - 1], pos, n) + if Reaches(last, pos) && last[pos] < n then 1 else 0
  {
    if n > 0 { CountsAddOne(reports, pos, n - 1); }
  }

  lemma {:induction false} NoCounts(pos: nat, n: nat)
    requires n <= 0x100
    ensures CountsBelow([], pos, n) == 0
  {
    if n > 0 { NoCounts(pos, n - 1); }
  }

  /** The value counts of a position sum to the number of reports that reach it. */
  lemma {:induction false} CountsAddUp(reports: seq<Data>, pos: nat)
    ensures CountsBelow(reports, pos, 0x100) == Reached(reports, pos)
  {
    if reports == [] {
      NoCounts(pos, 0x100);
    } else {
      CountsAddUp(reports[..|reports| - 1], pos);
      CountsAddOne(reports, pos, 0x100);
    }
  }

  lemma LastValue(reports: seq<Data>, pos: nat)
    requires reports != [] && Reaches(reports[|reports| - 1], pos)
    ensures reports[|reports| - 1][pos] in Values(reports, pos)
  {
  }

  /** At most one new value comes with every change and with every new stretch. */
  lemma {:induction false} DistinctValues(reports: seq<Data>, pos: nat)
    ensures |Values(reports, pos)| <= Changes(reports, pos) + Stretches(reports, pos)
  {
    if reports != [] {
      var before := reports[..|reports| - 1];
      DistinctValues(before, pos);
      if Reaches(reports[|reports| - 1], pos) && before != [] && Reaches(before[|before| - 1], pos)
         && !Changed(reports, pos) {
        LastValue(before, pos);
        assert Values(reports, pos) == Values(before, pos);
      }
    }
  }

  // A position with one value has no change.
  lemma {:induction false} OneValueNoChange(reports: seq<Data>, pos: nat)
    requires |Values(reports, pos)| <= 1
    ensures Changes(reports, pos) == 0
  {
    if reports != [] {
      var before := reports[..|reports| - 1];
      AtMostOne(Values(before, pos), Values(reports, pos));
      OneValueNoChange(before, pos);
      if Changed(reports, pos) {
        LastValue(before, pos);
        LastValue(reports, pos);
        AtMostOne({before[|before| - 1][pos], reports[|reports| - 1][pos]}, Values(reports, pos));
        assert false;
      }
    }
  }

  lemma AtMostOne(a: set<Byte>, b: set<Byte>)
    requires a <= b && |b| <= 1
    ensures |a| <= 1
    ensures forall x, y | x in a && y in a :: x == y
  {
    Subset(a, b);
    forall x, y | x in a && y in a ensures x == y {
      Subset({x, y}, a);
    }
  }

  lemma {:induction false} Subset(a: set<Byte>, b: set<Byte>)
    requires a <= b
    ensures |a| <= |b|
    decreases |b|
  {
    if a != {} {
      var x :| x in a;
      Subset(a - {x}, b - {x});
    }
  }

  lemma {:induction false} StretchMeansValue(reports: seq<Data>, pos: nat)
    requires Stretches(reports, pos) > 0
    ensures Values(reports, pos) != {}
  {
    if Stretches(reports[..|reports| - 1], pos) > 0 { StretchMeansValue(reports[..|reports| - 1], pos); }
  }

  /** Where the reports reach a position in one stretch, it is static exactly when no change is counted there. */
  lemma StaticIffUnchanged(reports: seq<Data>, pos: nat)
    requires Stretches(reports, pos) == 1
    ensures Static(reports, pos) <==> Changes(reports, pos) == 0
  {
    DistinctValues(reports, pos);
    StretchMeansValue(reports, pos);
    if |Values(reports, pos)| == 1 { OneValueNoChange(reports, pos); }
  }

  // The first value of each stretch.
  function Heads(reports: seq<Data>, pos: nat): set<Byte> {
    if reports == [] then {}
    else Heads(reports[..|reports| - 1], pos)
         + if Reaches(reports[|reports| - 1], pos) && (|reports| == 1 || !Reaches(reports[|reports| - 2], pos))
           then {reports[|reports| - 1][pos]} else {}
  }

  // Without a change every value is the first of its stretch.
  lemma {:induction false} UnchangedValuesAreHeads(reports: seq<Data>, pos: nat)
    requires Changes(reports, pos) == 0
    ensures Values(reports, pos) == Heads(reports, pos)
  {
    if reports != [] {
      var before := reports[..|reports| - 1];
      UnchangedValuesAreHeads(before, pos);
      if Reaches(reports[|reports| - 1], pos) && before != [] && Reaches(before[|before| - 1], pos) {
        LastValue(before, pos);
      }
    }
  }

  /** On any reports whatever, the two loops agree about a position exactly when a change is counted there or all
      stretches begin with one value. */
  lemma LoopsAgreeExactly(reports: seq<Data>, pos: nat)
    ensures (Static(reports, pos) <==> Changes(reports, pos) == 0)
            <==> (Changes(reports, pos) > 0 || |Heads(reports, pos)| == 1)
  {
    if Changes(reports, pos) == 0 {
      UnchangedValuesAreHeads(reports, pos);
    } else if Static(reports, pos) {
      OneValueNoChange(reports, pos);
    }
  }

  /** Reports of one length reach each of their positions in one stretch. */
  lemma {:induction false} EqualLengths(reports: seq<Data>, n: nat, pos: nat)
    requires reports != [] && pos < n && forall r | r in reports :: |r| == n
    ensures Stretches(reports, pos) == 1 && Reached(reports, pos) == |reports|
  {
    if |reports| > 1 {
      EqualLengths(reports[..|reports| - 1], n, pos);
      assert reports[|reports| - 1] in reports && reports[|reports| - 2] in reports;
    } else {
      assert reports[0] in reports && reports[..0] == [];
      assert Stretches(reports[..0], pos) == 0;
    }
  }

  /** Without that the two disagree: a position can have two values and no change. */
  lemma GapHidesChange()
    ensures var reports: seq<Data> := [[1], [], [2]]; Changes(reports, 0) == 0 && |Values(reports, 0)| == 2
  {
    var reports: seq<Data> := [[1], [], [2]];
    assert reports[..2] == [[1], []] && reports[..2][..1] == [[1]] && reports[..2][..1][..0] == [];
    assert Values(reports[..2][..1], 0) == {1};
    assert Values(reports[..2], 0) == {1};
    assert Values(reports, 0) == {1, 2};
    assert Changes(reports[..2][..1], 0) == 0 && Changes(reports[..2], 0) == 0;
  }

  // ---------- byte_frequency ----------

  // What the two tables hold for a position.
  ghost predicate CountedChanges(reports: seq<Data>, changes: map<nat, nat>, pos: nat) {
    if Changes(reports, pos) == 0 then pos !in changes else pos in changes && changes[pos] == Changes(reports, pos)
  }

  predicate CountedValue(reports: seq<Data>, counts: map<Byte, nat>, pos: nat, v: Byte) {
    if Count(reports, pos, v) == 0 then v !in counts else v in counts && counts[v] == Count(reports, pos, v)
  }

  ghost predicate CountedValues(reports: seq<Data>, values: map<nat, map<Byte, nat>>, pos: nat) {
    if Reached(reports, pos) == 0 then pos !in values
    else pos in values && forall v: Byte :: CountedValue(reports, values[pos], pos, v)
  }

  ghost predicate Describes(reports: seq<Data>, changes: map<nat, nat>, values: map<nat, map<Byte, nat>>, pos: nat) {
    CountedChanges(reports, changes, pos) && CountedValues(reports, values, pos)
  }

  /** The change counts and, per position, the value counts. */
  method ByteFrequency(reports: seq<Data>) returns (changes: map<nat, nat>, values: map<nat, map<Byte, nat>>)
    ensures forall pos: nat :: Describes(reports, changes, values, pos)
  {
    changes, values := map[], map[];
    var previous: Data := [];
    for k := 0 to |reports|
      invariant previous == if k == 0 then [] else reports[k - 1]
      invariant forall pos: nat :: Describes(reports[..k], changes, values, pos)
    {
      var data := reports[k];
      ghost var past, now := reports[..k], reports[..k + 1];
      for i := 0 to |data|
        invariant forall pos: nat | pos < i :: Describes(now, changes, values, pos)
        invariant forall pos: nat | pos >= i :: Describes(past, changes, values, pos)
      {
        ghost var changes0, values0 := changes, values;
        var counts := if i in values then values[i] else map[];
        counts := counts[data[i] := (if data[i] in counts then counts[data[i]] else 0) + 1];
        values := values[i := counts];
        if previous != [] && i < |previous| && previous[i] != data[i] {
          changes := changes[i := (if i in changes then changes[i] else 0) + 1];
        }
        Counted(reports, k, changes0, values0, changes, values, i);
        forall pos: nat | pos != i
          ensures Describes(past, changes, values, pos) == Describes(past, changes0, values0, pos)
          ensures Describes(now, changes, values, pos) == Describes(now, changes0, values0, pos)
        {
        }
      }
      forall pos: nat ensures Describes(now, changes, values, pos) {
        if pos >= |data| { Untouched(reports, k, changes, values, pos); }
      }
      previous := data;
    }
    assert reports[..|reports|] == reports;
  }

  // One byte entered in the tables.
  lemma Counted(reports: seq<Data>, k: nat, changes0: map<nat, nat>, values0: map<nat, map<Byte, nat>>,
                changes: map<nat, nat>, values: map<nat, map<Byte, nat>>, i: nat)
    requires k < |reports| && i < |reports[k]| && Describes(reports[..k], changes0, values0, i)
    requires var counts := if i in values0 then values0[i] else map[];
             var b := reports[k][i];
             values == values0[i := counts[b := (if b in counts then counts[b] else 0) + 1]]
    requires changes == if k > 0 && i < |reports[k - 1]| && reports[k - 1][i] != reports[k][i]
                        then changes0[i := (if i in changes0 then changes0[i] else 0) + 1] else changes0
    ensures Describes(reports[..k + 1], changes, values, i)
  {
    var past, now := reports[..k], reports[..k + 1];
    assert now[..k] == past && now[k] == reports[k] && (k > 0 ==> now[k - 1] == reports[k - 1]);
    if Reached(past, i) == 0 { NotReached(past, i); }
    assert CountedChanges(now, changes, i);
    var counts := if i in values0 then values0[i] else map[];
    forall v: Byte ensures CountedValue(now, values[i], i, v) {
      assert CountedValue(past, counts, i, v);
    }
  }

  lemma {:induction false} NotReached(reports: seq<Data>, pos: nat)
    requires Reached(reports, pos) == 0
    ensures forall v: Byte :: Count(reports, pos, v) == 0
  {
    if reports != [] { NotReached(reports[..|reports| - 1], pos); }
  }

  // A report that does not reach a position leaves its entries as they are.
  lemma Untouched(reports: seq<Data>, k: nat, changes: map<nat, nat>, values: map<nat, map<Byte, nat>>, pos: nat)
    requires k < |reports| && pos >= |reports[k]| && Describes(reports[..k], changes, values, pos)
    ensures Describes(reports[..k + 1], changes, values, pos)
  {
    var past, now := reports[..k], reports[..k + 1];
    assert now[..k] == past && now[k] == reports[k];
    forall v: Byte | pos in values ensures CountedValue(now, values[pos], pos, v) {
      assert CountedValue(past, values[pos], pos, v);
    }
  }

  // ---------- summary ----------

  method MaxLength(reports: seq<Data>) returns (n: nat)
    ensures forall r | r in reports :: |r| <= n
    ensures n == 0 || exists r :: r in reports && |r| == n
  {
    n := 0;
    for k := 0 to |reports|
      invariant forall r | r in reports[..k] :: |r| <= n
      invariant n == 0 || exists r :: r in reports && |r| == n
    {
      if |reports[k]| > n { n := |reports[k]|; }
    }
    assert reports[..|reports|] == reports;
  }

  method ValuesAt(reports: seq<Data>, pos: nat) returns (values: set<Byte>)
    ensures values == Values(reports, pos)
  {
    values := {};
    for k := 0 to |reports|
      invariant values == Values(reports[..k], pos)
    {
      assert reports[..k + 1][..k] == reports[..k];
      if pos < |reports[k]| { values := values + {reports[k][pos]}; }
    }
    assert reports[..|reports|] == reports;
  }

  predicate Ascending(s: seq<nat>) {
    forall i, j | 0 <= i < j < |s| :: s[i] < s[j]
  }

  lemma StillAscending(s: seq<nat>, x: nat)
    requires Ascending(s) && forall y | y in s :: y < x
    ensures Ascending(s + [x])
  {
    forall i | 0 <= i < |s| ensures s[i] < x {
      var y := s[i];
      assert y in s;
    }
  }

  /** Every position some report reaches, in order, in one of the two lists: static where all reports that reach it
      agree. */
  method Summary(reports: seq<Data>) returns (statics: seq<nat>, dynamics: seq<nat>)
    ensures forall pos: nat :: pos in statics <==> Reached(reports, pos) > 0 && Static(reports, pos)
    ensures forall pos: nat :: pos in dynamics <==> Reached(reports, pos) > 0 && !Static(reports, pos)
    ensures Ascending(statics)
    ensures Ascending(dynamics)
  {
    statics, dynamics := [], [];
    var n := MaxLength(reports);
    for pos := 0 to n
      invariant forall p: nat :: p in statics <==> p < pos && Static(reports, p)
      invariant forall p: nat :: p in dynamics <==> p < pos && !Static(reports, p)
      invariant Ascending(statics)
      invariant Ascending(dynamics)
    {
      var values := ValuesAt(reports, pos);
      assert (|values| == 1) == Static(reports, pos);
      if |values| == 1 {
        StillAscending(statics, pos);
        statics := statics + [pos];
      } else {
        StillAscending(dynamics, pos);
        dynamics := dynamics + [pos];
      }
    }
    forall pos: nat ensures Reached(reports, pos) > 0 <==> pos < n {
      ReachedBelowMax(reports, n, pos);
    }
  }

  lemma ReachedBelowMax(reports: seq<Data>, n: nat, pos: nat)
    requires forall r | r in reports :: |r| <= n
    requires n == 0 || exists r :: r in reports && |r| == n
    ensures Reached(reports, pos) > 0 <==> pos < n
  {
    ReachedBySome(reports, pos);
  }

  lemma {:induction false} ReachedBySome(reports: seq<Data>, pos: nat)
    ensures Reached(reports, pos) > 0 <==> exists r :: r in reports && Reaches(r, pos)
  {
    if reports != [] {
      var before, last := reports[..|reports| - 1], reports[|reports| - 1];
      ReachedBySome(before, pos);
      assert reports == before + [last];
    }
  }

  /** The two loops agree on reports of one length: a position is listed as static exactly when the change table has
      no entry for it, its distinct values number at most one more than its changes, and its value counts sum to
      the number of reports. */
  lemma LoopsAgree(reports: seq<Data>, n: nat, pos: nat, changes: map<nat, nat>, values: map<nat, map<Byte, nat>>)
    requires reports != [] && pos < n && forall r | r in reports :: |r| == n
    requires Describes(reports, changes, values, pos)
    ensures Static(reports, pos) <==> pos !in changes
    ensures pos in values && values[pos].Keys == Values(reports, pos)
    ensures |values[pos]| <= (if pos in changes then changes[pos] else 0) + 1
    ensures CountsBelow(reports, pos, 0x100) == |reports|
  {
    EqualLengths(reports, n, pos);
    StaticIffUnchanged(reports, pos);
    DistinctValues(reports, pos);
    CountsAddUp(reports, pos);
    forall v: Byte ensures v in Values(reports, pos) <==> v in values[pos] {
      assert CountedValue(reports, values[pos], pos, v);
      ValuesAreCounted(reports, pos, v);
    }
    assert values[pos].Keys == Values(reports, pos);
    assert |values[pos]| == |values[pos].Keys|;
  }

  // ---------- diff_reports ----------

  datatype Difference = Difference(pos: nat, a: Option<Byte>, b: Option<Byte>)

  function ByteAt(d: Data, i: nat): Option<Byte> {
    if i < |d| then Some(d[i]) else None
  }

  // The differences at the first n positions.
  function Differences(a: Data, b: Data, n: nat): seq<Difference> {
    if n == 0 then []
    else Differences(a, b, n - 1) +
         if ByteAt(a, n - 1) != ByteAt(b, n - 1) then [Difference(n - 1, ByteAt(a, n - 1), ByteAt(b, n - 1))] else []
  }

  function Longer(a: Data, b: Data): nat {
    if |a| >= |b| then |a| else |b|
  }

  method DiffReports(a: Data, b: Data) returns (diffs: seq<Difference>)
    ensures diffs == Differences(a, b, Longer(a, b))
  {
    diffs := [];
    for i := 0 to Longer(a, b)
      invariant diffs == Differences(a, b, i)
    {
      var byteA, byteB := ByteAt(a, i), ByteAt(b, i);
      if byteA != byteB { diffs := diffs + [Difference(i, byteA, byteB)]; }
    }
  }

  lemma {:induction false} DifferencesListed(a: Data, b: Data, n: nat, i: nat)
    requires i < n
    ensures ByteAt(a, i) != ByteAt(b, i) <==> Difference(i, ByteAt(a, i), ByteAt(b, i)) in Differences(a, b, n)
    ensures forall d | d in Differences(a, b, n) ::
              d == Difference(d.pos, ByteAt(a, d.pos), ByteAt(b, d.pos)) && d.pos < n
  {
    OnlyBelow(a, b, n);
    OnlyBelow(a, b, n - 1);
    if i < n - 1 { DifferencesListed(a, b, n - 1, i); }
  }

  lemma {:induction false} OnlyBelow(a: Data, b: Data, n: nat)
    ensures forall d | d in Differences(a, b, n) ::
              d == Difference(d.pos, ByteAt(a, d.pos), ByteAt(b, d.pos)) && d.pos < n && d.a != d.b
  {
    if n > 0 { OnlyBelow(a, b, n - 1); }
  }

  /** A report and its differences from another determine the other. */
  lemma DifferencesDetermine(a: Data, b: Data, c: Data)
    ensures Differences(a, b, Longer(a, b)) == Differences(a, c, Longer(a, c)) <==> b == c
  {
    if Differences(a, b, Longer(a, b)) == Differences(a, c, Longer(a, c)) {
      forall i: nat ensures ByteAt(b, i) == ByteAt(c, i) {
        SameAt(a, b, c, i);
        SameAt(a, c, b, i);
      }
      assert ByteAt(b, |b|) == ByteAt(c, |b|) && ByteAt(b, |c|) == ByteAt(c, |c|);
      assert |b| == |c|;
      forall i | 0 <= i < |b| ensures b[i] == c[i] { assert ByteAt(b, i) == ByteAt(c, i); }
    }
  }

  lemma SameAt(a: Data, b: Data, c: Data, i: nat)
    requires Differences(a, b, Longer(a, b)) == Differences(a, c, Longer(a, c))
    ensures ByteAt(a, i) != ByteAt(b, i) ==> ByteAt(b, i) == ByteAt(c, i)
  {
    OnlyBelow(a, c, Longer(a, c));
    if i < Longer(a, b) { DifferencesListed(a, b, Longer(a, b), i); }
  }
}
