/** The catalog's tiers: the curves their thresholds follow, and the numerals that name them. */
module Catalog {

  // ---- Powers ----

  function Power(base: nat, exponent: nat): nat {
    if exponent == 0 then 1 else base * Power(base, exponent - 1)
  }

  method Pow(base: nat, exponent: int) returns (result: nat)
    ensures result == if exponent < 0 then 1 else Power(base, exponent)
  {
    result := 1;
    if exponent > 0 {
      for i := 0 to exponent
        invariant result == Power(base, i)
      {
        result := result * base;
      }
    }
  }

  lemma {:induction false} PowerIsPositive(base: nat, exponent: nat)
    requires base > 0
    ensures Power(base, exponent) > 0
  {
    if exponent > 0 { PowerIsPositive(base, exponent - 1); }
  }

  // ---- Curves ----

  datatype Curve = Easy | Medium | Hard | Infernal | Steps(values: seq<nat>) {
    ghost predicate Valid() {
      Steps? ==> |values| > 0
    }

    function At(tier: nat): nat
      requires Steps? ==> |values| > 0
    {
      match this
      case Easy => Power(10, tier)
      case Medium => Power(2, (tier + 2) / 2) * Power(5, (tier + 1) / 2)
      case Hard => Power(2, tier / 2) * Power(5, (tier + 1) / 2)
      case Infernal => Power(2, if tier < 1 then 0 else (tier - 1) / 2) * (if tier == 1 then 3 else 1) * Power(5, tier / 2)
      case Steps(values) => if tier >= |values| then values[|values| - 1] else values[tier]
    }
  }

  /** The rule that each next tier's step keeps: the curve picks up a factor of two or five. */
  lemma StandardStepsUp(curve: Curve, tier: nat)
    requires !curve.Steps?
    ensures curve.At(tier) < curve.At(tier + 1)
  {
    PowerIsPositive(10, tier);
    match curve
    case Easy =>
    case Medium =>
      PicksUp((tier + 2) / 2, (tier + 1) / 2);
      assert tier % 2 == 0 ==> (tier + 3) / 2 == (tier + 2) / 2 && (tier + 2) / 2 == (tier + 1) / 2 + 1;
      assert tier % 2 == 1 ==> (tier + 3) / 2 == (tier + 2) / 2 + 1 && (tier + 2) / 2 == (tier + 1) / 2;
    case Hard =>
      PicksUp(tier / 2, (tier + 1) / 2);
      assert tier % 2 == 0 ==> (tier + 1) / 2 == tier / 2 && (tier + 2) / 2 == (tier + 1) / 2 + 1;
      assert tier % 2 == 1 ==> (tier + 1) / 2 == tier / 2 + 1 && (tier + 2) / 2 == (tier + 1) / 2;
    case Infernal =>
      InfernalStepsUp(tier);
  }

  lemma PicksUp(twos: nat, fives: nat)
    ensures Power(2, twos) * Power(5, fives) < Power(2, twos + 1) * Power(5, fives)
    ensures Power(2, twos) * Power(5, fives) < Power(2, twos) * Power(5, fives + 1)
  {
    PowerIsPositive(2, twos);
    PowerIsPositive(5, fives);
    var a, b := Power(2, twos), Power(5, fives);
    assert a * b > 0;
    assert Power(2, twos + 1) * b == 2 * (a * b);
    assert a * Power(5, fives + 1) == 5 * (a * b);
  }

  /** The nudged second tier still lies between its neighbours. */
  lemma InfernalStepsUp(tier: nat)
    ensures Infernal.At(tier) < Infernal.At(tier + 1)
  {
    if tier == 0 {
      assert Infernal.At(0) == 1 && Infernal.At(1) == 3;
    } else if tier == 1 {
      assert Power(5, 1) == 5 * Power(5, 0);
      assert Infernal.At(1) == 3 && Infernal.At(2) == 5;
    } else {
      PicksUp((tier - 1) / 2, tier / 2);
      assert tier % 2 == 0 ==> tier / 2 == (tier - 1) / 2 + 1 && (tier + 1) / 2 == tier / 2;
      assert tier % 2 == 1 ==> tier / 2 == (tier - 1) / 2 && (tier + 1) / 2 == tier / 2 + 1;
    }
  }

  lemma {:induction false} StandardCurvesRise(curve: Curve, low: nat, high: nat)
    requires !curve.Steps? && low < high
    ensures curve.At(low) < curve.At(high)
    decreases high
  {
    StandardStepsUp(curve, high - 1);
    if low < high - 1 { StandardCurvesRise(curve, low, high - 1); }
  }

  /** A curve's thresholds rise over a range of tiers. */
  ghost predicate Rises(curve: Curve, min: nat, max: nat)
    requires curve.Valid()
  {
    forall i, j :: min <= i < j <= max ==> curve.At(i) < curve.At(j)
  }

  /** A list of steps rises exactly as far as it goes, provided it does itself. */
  lemma StepsRiseWithinTheirList(values: seq<nat>, min: nat, max: nat)
    requires |values| > 0 && min < max
    ensures Rises(Steps(values), min, max) <==> max < |values| && forall i, j :: min <= i < j <= max ==> values[i] < values[j]
  {
    var curve := Steps(values);
    if max >= |values| {
      var low := if min < |values| - 1 then |values| - 1 else min;
      assert curve.At(low) == curve.At(low + 1);
    } else if Rises(curve, min, max) {
      forall i, j | min <= i < j <= max ensures values[i] < values[j] {
        assert curve.At(i) < curve.At(j);
      }
    }
  }

  const INT64_END := 0x8000_0000_0000_0000

  lemma HighestPowers()
    ensures Power(10, 18) < INT64_END <= Power(10, 19)
  {
    assert Power(10, 5) == 10_0000;
    assert Power(10, 10) == 100_0000_0000;
    assert Power(10, 15) == 1000_0000_0000_0000;
  }

  /** The steepest curve fits a 64-bit threshold up to its 19th tier and no further. */
  lemma EasyFitsExactly(tier: nat)
    ensures Easy.At(tier) < INT64_END <==> tier <= 18
  {
    HighestPowers();
    if tier < 18 { StandardCurvesRise(Easy, tier, 18); }
    if tier > 19 { StandardCurvesRise(Easy, 19, tier); }
    assert Easy.At(18) == Power(10, 18) && Easy.At(19) == Power(10, 19);
  }

  // ---- Numerals ----

  datatype Numeral = Numeral(symbol: string, value: nat)

  const NUMERALS: seq<Numeral> := [
    Numeral("M", 1000), Numeral("CM", 900), Numeral("D", 500), Numeral("CD", 400),
    Numeral("C", 100), Numeral("XC", 90), Numeral("L", 50), Numeral("XL", 40),
    Numeral("X", 10), Numeral("IX", 9), Numeral("V", 5), Numeral("IV", 4), Numeral("I", 1)]

  /** Subtracting down the table from its k-th numeral on. */
  function Roman(n: nat, k: nat): string
    requires k <= |NUMERALS|
    decreases |NUMERALS| - k, n
  {
    if k == |NUMERALS| then ""
    else if n >= NUMERALS[k].value then NUMERALS[k].symbol + Roman(n - NUMERALS[k].value, k)
    else Roman(n, k + 1)
  }

  lemma RomanStep(n: nat, k: nat)
    requires k < |NUMERALS|
    ensures n >= NUMERALS[k].value ==> Roman(n, k) == NUMERALS[k].symbol + Roman(n - NUMERALS[k].value, k)
    ensures n < NUMERALS[k].value ==> Roman(n, k) == Roman(n, k + 1)
    ensures Roman(n, |NUMERALS|) == ""
  {
  }

  method RomanNumeral(tier: int) returns (out: string)
    ensures out == if tier < 1 then "" else Roman(tier, 0)
  {
    hide Roman;
    out := "";
    if tier < 1 {
      return;
    }
    var remaining: nat := tier;
    for k := 0 to |NUMERALS|
      invariant out + Roman(remaining, k) == Roman(tier, 0)
    {
      while remaining >= NUMERALS[k].value
        invariant out + Roman(remaining, k) == Roman(tier, 0)
        decreases remaining
      {
        RomanStep(remaining, k);
        out := out + NUMERALS[k].symbol;
        remaining := remaining - NUMERALS[k].value;
      }
      RomanStep(remaining, k);
    }
    RomanStep(remaining, 0);
  }

  function Letter(c: char): nat {
    if c == 'M' then 1000 else if c == 'D' then 500 else if c == 'C' then 100 else if c == 'L' then 50
    else if c == 'X' then 10 else if c == 'V' then 5 else if c == 'I' then 1 else 0
  }

  /** Reading a numeral: a letter before a greater one counts against it. */
  function Read(s: string): int {
    if s == "" then 0
    else if |s| > 1 && Letter(s[0]) < Letter(s[1]) then Read(s[1..]) - Letter(s[0])
    else Read(s[1..]) + Letter(s[0])
  }

  /** The greatest letter a numeral written from the k-th on can start with. */
  function Cap(k: nat): nat
    requires k <= |NUMERALS|
  {
    if k == 0 then 1000 else if k <= 2 then 500 else if k <= 4 then 100 else if k <= 6 then 50
    else if k <= 8 then 10 else if k <= 10 then 5 else 1
  }

  lemma {:induction false} StartsSmall(n: nat, k: nat)
    requires k <= |NUMERALS|
    ensures Roman(n, k) != "" ==> Letter(Roman(n, k)[0]) <= Cap(k)
    decreases |NUMERALS| - k, n
  {
    if k < |NUMERALS| {
      if n >= NUMERALS[k].value {
        assert Roman(n, k)[0] == NUMERALS[k].symbol[0];
      } else {
        StartsSmall(n, k + 1);
      }
    }
  }

  lemma ReadLetter(c: char, rest: string)
    requires rest != "" ==> Letter(rest[0]) <= Letter(c)
    ensures Read([c] + rest) == Letter(c) + Read(rest)
  {
    assert ([c] + rest)[1..] == rest;
  }

  lemma ReadPair(c: char, d: char, rest: string)
    requires Letter(c) < Letter(d) && (rest != "" ==> Letter(rest[0]) <= Letter(d))
    ensures Read([c, d] + rest) == Letter(d) - Letter(c) + Read(rest)
  {
    assert ([c, d] + rest)[1..] == [d] + rest;
    ReadLetter(d, rest);
  }

  /** A numeral of the table in front of what may follow it adds its value. */
  lemma ReadNumeral(k: nat, rest: string)
    requires k < |NUMERALS| && (rest != "" ==> Letter(rest[0]) <= Cap(k))
    ensures Read(NUMERALS[k].symbol + rest) == NUMERALS[k].value + Read(rest)
  {
    var symbol := NUMERALS[k].symbol;
    if |symbol| == 1 {
      assert symbol == [symbol[0]];
      ReadLetter(symbol[0], rest);
    } else {
      assert symbol == [symbol[0], symbol[1]];
      ReadPair(symbol[0], symbol[1], rest);
    }
  }

  /** Every numeral can be read back. */
  lemma {:induction false} RomanReadsBack(n: nat, k: nat)
    requires k < |NUMERALS|
    ensures Read(Roman(n, k)) == n
    decreases |NUMERALS| - k, n
  {
    if n >= NUMERALS[k].value {
      RomanReadsBack(n - NUMERALS[k].value, k);
      StartsSmall(n - NUMERALS[k].value, k);
      ReadNumeral(k, Roman(n - NUMERALS[k].value, k));
    } else if k + 1 < |NUMERALS| {
      RomanReadsBack(n, k + 1);
    }
  }

  // ---- Templates ----

  /** A title, in two parts around the numeral. */
  datatype Template = Template(before: string, after: string, curve: Curve, expCurve: Curve, minTier: nat, maxTier: nat)

  datatype Entry = Entry(name: string, tier: nat, threshold: nat, exp: nat)

  /** The curves are read at the index, and the name at the number that is displayed. */
  function EntryAt(t: Template, index: nat): Entry
    requires t.minTier <= index && t.curve.Valid() && t.expCurve.Valid()
  {
    var tier := index - t.minTier + 1;
    Entry(t.before + Roman(tier, 0) + t.after, tier, t.curve.At(index), t.expCurve.At(index))
  }

  method Expand(t: Template) returns (entries: seq<Entry>)
    requires t.curve.Valid() && t.expCurve.Valid()
    ensures |entries| == if t.maxTier < t.minTier then 0 else t.maxTier - t.minTier + 1
    ensures forall i :: 0 <= i < |entries| ==> entries[i] == EntryAt(t, t.minTier + i)
  {
    entries := [];
    var index := t.minTier;
    while index <= t.maxTier
      invariant t.minTier <= index && |entries| == index - t.minTier
      invariant index <= t.maxTier + 1 || index == t.minTier
      invariant forall i :: 0 <= i < |entries| ==> entries[i] == EntryAt(t, t.minTier + i)
    {
      var numeral := RomanNumeral(index - t.minTier + 1);
      entries := entries + [Entry(t.before + numeral + t.after, index - t.minTier + 1, t.curve.At(index), t.expCurve.At(index))];
      index := index + 1;
    }
  }

  lemma TitlesRead(before: string, after: string, s: string, t: string)
    requires before + s + after == before + t + after
    ensures s == t
  {
    assert (before + s + after)[|before|..|before + s|] == s;
    assert (before + t + after)[|before|..|before + t|] == t;
  }

  /** Over any range of tiers of a standard curve, names are distinct, and thresholds and tiers rise. */
  lemma {:induction false} TiersAreDistinct(t: Template, i: nat, j: nat)
    requires !t.curve.Steps? && !t.expCurve.Steps? && t.minTier <= i < j <= t.maxTier
    ensures
      var a, b := EntryAt(t, i), EntryAt(t, j);
      a.name != b.name && a.threshold < b.threshold && a.exp < b.exp && a.tier < b.tier
  {
    StandardCurvesRise(t.curve, i, j);
    StandardCurvesRise(t.expCurve, i, j);
    var m, n := i - t.minTier + 1, j - t.minTier + 1;
    if EntryAt(t, i).name == EntryAt(t, j).name {
      TitlesRead(t.before, t.after, Roman(m, 0), Roman(n, 0));
      RomanReadsBack(m, 0);
      RomanReadsBack(n, 0);
    }
  }
}
