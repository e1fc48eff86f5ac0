/** Mitigation of a hit on a player: the scalar `block` of src/combat.cpp, and `block_batch`, which
    computes the hits of an area attack lane by lane before `block` applies them one at a time.
    Formulas are taken over the reals; a random draw is a value handed in. */
module Block {

  datatype ResistanceFormula = Identity | LinearRandom | Parity | Percent
  datatype ResistanceFactors = ResistanceFactors(threshold: real, flatAmount: real, constant: real, formula: ResistanceFormula)

  datatype ResolutionFormula = Subtractive | RatioMitigation | ScaledDivision | Layered
  datatype ResolutionFactors = ResolutionFactors(
    constant: real, multiplier: real, addend: real, flatReduction: real, floor: real, formula: ResolutionFormula)

  datatype BlockType = NoBlock | Defensive | Armor

  datatype Outcome = Damage(value: int) | Blocked(kind: BlockType)

  /** `static_cast<int32_t>` of a floating-point number: towards zero. */
  function Truncate(r: real): int {
    if r >= 0.0 then r.Floor else -((-r).Floor)
  }

  function Max(a: real, b: real): real {
    if a < b then b else a
  }

  /** Division of `int32_t` values: towards zero. */
  function Quotient(a: nat, b: int): int
    requires b != 0
  {
    if b > 0 then a / b else -(a / -b)
  }

  /** `calculate_resistance`; `draw` is what `uniform_random` returned where it is called. */
  function Resistance(f: ResistanceFactors, stat: int, draw: int): int {
    if stat <= 0 then 0
    else
      match f.formula
      case Identity => stat
      case LinearRandom => draw
      case Parity => if stat > Truncate(f.threshold) then draw else Truncate(f.flatAmount)
      case Percent =>
        var divisor := stat + Truncate(f.constant);
        if divisor == 0 then 0 else Quotient(stat * 100, divisor)
  }

  function Ratio(output: real, constant: real, resistance: real): real
    requires constant + resistance != 0.0
  {
    output * constant / (constant + resistance)
  }

  function Times(n: real, k: real): real {
    n * k
  }

  function Over(n: real, d: real): real
    requires d != 0.0
  {
    n / d
  }

  /** `calculate_resolution`. */
  function Resolution(f: ResolutionFactors, output: int, resistance: int): int {
    match f.formula
    case Subtractive => Truncate(Max(f.floor, (output - resistance) as real))
    case RatioMitigation =>
      var r := if resistance < 0 then 0.0 else resistance as real;
      if f.constant + r == 0.0 then 0
      else Truncate(Max(f.floor, Ratio(output as real, f.constant, r)))
    case ScaledDivision =>
      if resistance <= 0 then Truncate(Max(f.floor, Times(output as real, f.multiplier) + f.addend))
      else Truncate(Max(f.floor, Over(Times(output as real, f.multiplier), resistance as real) + f.addend))
    case Layered =>
      Truncate(Max(f.floor, Times(output as real, 1.0 - resistance as real / 100.0) - f.flatReduction))
  }

  /** The combat's side of a hit. */
  datatype Attack = Attack(
    base: nat,
    blockedByDefense: bool,
    blockedByArmor: bool,
    defense: ResistanceFactors,
    armor: ResistanceFactors,
    resolution: ResolutionFactors)

  /** The target's side, with the charge costs already rounded. */
  datatype Stats = Stats(canUseDefense: bool, defense: int, armor: int, defenseCost: nat, armorCost: nat)
  datatype Charges = Charges(defense: nat, armor: nat)
  datatype Draws = Draws(defense: int, armor: int)

  predicate DefenseStage(a: Attack, s: Stats, c: Charges) {
    a.blockedByDefense && s.canUseDefense && (s.defenseCost == 0 || c.defense >= s.defenseCost)
  }

  predicate ArmorStage(a: Attack, s: Stats, c: Charges) {
    a.blockedByArmor && (s.armorCost == 0 || c.armor >= s.armorCost)
  }

  /** Damage leaves `block` unsigned, so that a negative result counts as a huge one. On the way the code casts it
      back before each step; here it stays signed. */
  function Unsigned(n: int): int {
    if n >= 0 then n else n + 0x1_0000_0000
  }

  // ---------------------------------------------------------------- scalar path

  /** `block` outside a batch: the outcome and the charges left. */
  function Scalar(a: Attack, s: Stats, c: Charges, d: Draws): (Outcome, Charges) {
    var c1 := if DefenseStage(a, s, c) then c.(defense := c.defense - s.defenseCost) else c;
    var d1 := if DefenseStage(a, s, c)
              then Resolution(a.resolution, a.base, Resistance(a.defense, s.defense, d.defense)) else a.base;
    if DefenseStage(a, s, c) && d1 == 0 then (Blocked(Defensive), c1)
    else if ArmorStage(a, s, c) then
      var d2 := Resolution(a.resolution, d1, Resistance(a.armor, s.armor, d.armor));
      (if d2 == 0 then Blocked(Armor) else Damage(Unsigned(d2)), c1.(armor := c1.armor - s.armorCost))
    else (Damage(Unsigned(d1)), c1)
  }

  // ---------------------------------------------------------------- batch path

  /** What `block_batch` computes for one lane. */
  function Lane(a: Attack, s: Stats, d: Draws): (int, BlockType) {
    var defense := if a.blockedByDefense && s.canUseDefense then s.defense else 0;
    var d1 := Resolution(a.resolution, a.base, Resistance(a.defense, defense, d.defense));
    var armor := if d1 <= 0 || !a.blockedByArmor then 0 else s.armor;
    var d2 := Resolution(a.resolution, d1, Resistance(a.armor, armor, d.armor));
    var out := if d2 > 0 then d2 else 0;
    (out, if d1 <= 0 then Defensive else if out == 0 then Armor else NoBlock)
  }

  /** `block` inside a batch, on the damage and block type of its lane. */
  function FromLane(a: Attack, s: Stats, c: Charges, lane: (int, BlockType)): (Outcome, Charges) {
    var c1 := if DefenseStage(a, s, c) then c.(defense := c.defense - s.defenseCost) else c;
    var armorOff := DefenseStage(a, s, c) && lane.1 == Defensive;
    var c2 := if ArmorStage(a, s, c) && !armorOff then c1.(armor := c1.armor - s.armorCost) else c1;
    (if lane.1 != NoBlock then Blocked(lane.1) else Damage(lane.0), c2)
  }

  // ---------------------------------------------------------------- agreement

  /** Meeting no resistance changes nothing. */
  predicate Neutral(f: ResolutionFactors, output: int) {
    Resolution(f, output, 0) == output
  }

  predicate EnoughCharges(a: Attack, s: Stats, c: Charges) {
    && (a.blockedByDefense && s.canUseDefense ==> s.defenseCost == 0 || c.defense >= s.defenseCost)
    && (a.blockedByArmor ==> s.armorCost == 0 || c.armor >= s.armorCost)
  }

  /** The damage behind the defense stage. */
  function AfterDefense(a: Attack, s: Stats, d: Draws): int {
    if a.blockedByDefense && s.canUseDefense
    then Resolution(a.resolution, a.base, Resistance(a.defense, s.defense, d.defense)) else a.base
  }

  lemma TruncateMonotone(x: real, y: real)
    requires x <= y
    ensures Truncate(x) <= Truncate(y)
    ensures 0.0 <= x ==> 0 <= Truncate(x)
  {
  }

  /** What the ratio formula divides by. */
  function RatioDivisor(f: ResolutionFactors, resistance: int): real {
    f.constant + if resistance < 0 then 0.0 else resistance as real
  }

  /** No formula goes below its floor, except that of ratio mitigation where it would divide by zero. */
  lemma ResolutionAtLeastFloor(f: ResolutionFactors, output: int, resistance: int)
    requires f.formula.RatioMitigation? ==> RatioDivisor(f, resistance) != 0.0
    ensures Resolution(f, output, resistance) >= Truncate(f.floor)
    ensures 0.0 <= f.floor ==> Truncate(f.floor) >= 0
  {
    match f.formula
    case Subtractive => TruncateMonotone(f.floor, Max(f.floor, (output - resistance) as real));
    case RatioMitigation =>
      var r := if resistance < 0 then 0.0 else resistance as real;
      TruncateMonotone(f.floor, Max(f.floor, Ratio(output as real, f.constant, r)));
    case ScaledDivision =>
      if resistance <= 0 {
        TruncateMonotone(f.floor, Max(f.floor, Times(output as real, f.multiplier) + f.addend));
      } else {
        TruncateMonotone(f.floor, Max(f.floor, Over(Times(output as real, f.multiplier), resistance as real) + f.addend));
      }
    case Layered =>
      TruncateMonotone(f.floor,
        Max(f.floor, Times(output as real, 1.0 - resistance as real / 100.0) - f.flatReduction));
    hide Times;
    hide Over;
    hide Ratio;
  }

  /** What a formula makes of damage that meets no resistance, before the floor and before the fraction is cut off. */
  function Unresisted(f: ResolutionFactors, output: int): real {
    match f.formula
    case Subtractive => output as real
    case RatioMitigation => output as real
    case ScaledDivision => Times(output as real, f.multiplier) + f.addend
    case Layered => output as real - f.flatReduction
  }

  /** Meeting no resistance changes nothing exactly when the formula, or its floor, comes back to the damage. For the
      subtractive and the ratio formula this is so exactly when the floor does not lift the damage, and for layered
      mitigation of some damage exactly when besides the flat reduction adds less than one, and takes nothing unless
      the floor makes up for it. */
  lemma NeutralIff(f: ResolutionFactors, output: nat)
    requires f.formula.RatioMitigation? ==> f.constant > 0.0
    ensures var kept := Max(f.floor, Unresisted(f, output));
            Neutral(f, output) <==> kept < (output + 1) as real && (if output == 0 then -1.0 < kept else output as real <= kept)
    ensures f.formula.Subtractive? || f.formula.RatioMitigation? ==> (Neutral(f, output) <==> f.floor < (output + 1) as real)
    ensures f.formula.Layered? && output > 0 ==>
              (Neutral(f, output) <==> f.floor < (output + 1) as real && -1.0 < f.flatReduction
                                       && (f.flatReduction <= 0.0 || output as real <= f.floor))
  {
    ResolvesUnresisted(f, output);
    hide Resolution;
    var u := Unresisted(f, output);
    KeptIff(f.floor, u, output);
    hide Truncate;
    assert f.formula.Layered? ==> u == output as real - f.flatReduction;
    assert f.formula.Subtractive? || f.formula.RatioMitigation? ==> u == output as real;
    hide Unresisted;
  }

  lemma KeptIff(floor: real, u: real, output: nat)
    ensures var kept := Max(floor, u);
            Truncate(kept) == output <==>
            kept < (output + 1) as real && (if output == 0 then -1.0 < kept else output as real <= kept)
  {
  }

  lemma ResolvesUnresisted(f: ResolutionFactors, output: int)
    requires f.formula.RatioMitigation? ==> f.constant > 0.0
    ensures Resolution(f, output, 0) == Truncate(Max(f.floor, Unresisted(f, output)))
  {
    var x := output as real;
    match f.formula
    case Subtractive =>
    case RatioMitigation => NoRatio(x, f.constant);
    case ScaledDivision =>
    case Layered => assert Times(x, 1.0 - 0 as real / 100.0) == x;
    hide Times;
    hide Ratio;
    hide Over;
    hide Max;
    hide Truncate;
  }

  lemma NoRatio(x: real, k: real)
    requires k > 0.0
    ensures Ratio(x, k, 0.0) == x
  {
    assert k + 0.0 == k;
    assert x * k / k == x;
  }

  /** The damage behind the armor stage. */
  function AfterArmor(a: Attack, s: Stats, d: Draws): int {
    if a.blockedByArmor then Resolution(a.resolution, AfterDefense(a, s, d), Resistance(a.armor, s.armor, d.armor))
    else AfterDefense(a, s, d)
  }

  /** With enough charges, and a resolution formula that leaves damage alone where there is no resistance, a hit
      applied from the batch equals the hit computed on its own, outcome and charges, for every resistance formula
      and every draw: unless a stage takes the damage below zero, which the batch takes for a full block. */
  lemma LaneEqualsScalar(a: Attack, s: Stats, c: Charges, d: Draws)
    requires a.base > 0 && EnoughCharges(a, s, c)
    requires !(a.blockedByDefense && s.canUseDefense) ==> Neutral(a.resolution, a.base)
    requires !a.blockedByArmor && AfterDefense(a, s, d) > 0 ==> Neutral(a.resolution, AfterDefense(a, s, d))
    ensures FromLane(a, s, c, Lane(a, s, d)) == Scalar(a, s, c, d)
            <==> AfterDefense(a, s, d) == 0 || (AfterDefense(a, s, d) > 0 && AfterArmor(a, s, d) >= 0)
  {
    hide Resistance;
    hide Resolution;
    NoStat(a, d);
  }

  /** The case the default formulas are in: subtractive or ratio mitigation whose floor does not
      exceed the base damage. */
  lemma BatchRefinesScalar(a: Attack, s: Stats, c: Charges, d: Draws)
    requires a.base > 0 && EnoughCharges(a, s, c)
    requires a.resolution.formula.Subtractive? || (a.resolution.formula.RatioMitigation? && a.resolution.constant > 0.0)
    requires 0.0 <= a.resolution.floor < (a.base + 1) as real
    ensures FromLane(a, s, c, Lane(a, s, d)) == Scalar(a, s, c, d)
  {
    NeutralIff(a.resolution, a.base);
    var d1 := AfterDefense(a, s, d);
    ResolutionAtLeastFloor(a.resolution, a.base, Resistance(a.defense, s.defense, d.defense));
    assert d1 >= Truncate(a.resolution.floor) ==> a.resolution.floor < (d1 + 1) as real;
    if d1 > 0 { NeutralIff(a.resolution, d1); }
    LaneEqualsScalar(a, s, c, d);
  }

  // ---------------------------------------------------------------- the formulas in plain arithmetic

  lemma TruncateIs(r: real)
    ensures r >= 0.0 ==> Truncate(r) as real <= r < (Truncate(r) + 1) as real && Truncate(r) >= 0
    ensures r <= 0.0 ==> (Truncate(r) - 1) as real < r <= Truncate(r) as real && Truncate(r) <= 0
  {
  }

  /** Without a stat there is no resistance; otherwise the formula decides. */
  lemma ResistanceIs(f: ResistanceFactors, stat: int, draw: int)
    ensures stat <= 0 ==> Resistance(f, stat, draw) == 0
    ensures stat > 0 && f.formula.Identity? ==> Resistance(f, stat, draw) == stat
    ensures stat > 0 && f.formula.LinearRandom? ==> Resistance(f, stat, draw) == draw
    ensures stat > 0 && f.formula.Parity? && stat as real >= f.threshold + 1.0 && f.threshold >= 0.0 ==>
              Resistance(f, stat, draw) == draw
    ensures stat > 0 && f.formula.Parity? && stat as real <= f.threshold ==> Resistance(f, stat, draw) == Truncate(f.flatAmount)
  {
    TruncateIs(f.threshold);
  }

  /** A percent resistance reaches `percent` exactly if a hundred times the stat is that many times the stat and the constant
      together. So it is half at the constant, grows with the stat, and never reaches a hundred. */
  lemma PercentReaches(f: ResistanceFactors, stat: int, draw: int, percent: int)
    requires f.formula.Percent? && stat > 0 && f.constant >= 0.0
    ensures var k := Truncate(f.constant);
            && (Resistance(f, stat, draw) >= percent <==> stat * 100 >= percent * (stat + k))
            && 0 <= Resistance(f, stat, draw) <= 100
            && (stat == k ==> Resistance(f, stat, draw) == 50)
            && (k > 0 ==> Resistance(f, stat, draw) < 100)
  {
    var k := Truncate(f.constant);
    TruncateIs(f.constant);
    QuotientReaches(stat * 100, stat + k, percent);
    QuotientReaches(stat * 100, stat + k, 100);
    QuotientReaches(stat * 100, stat + k, 101);
    QuotientReaches(stat * 100, stat + k, 50);
    QuotientReaches(stat * 100, stat + k, 51);
    assert Resistance(f, stat, draw) == Quotient(stat * 100, stat + k);
  }

  /** A constant so negative that it outweighs the stat gives a negative percentage, cut towards zero. */
  lemma PercentBelowZero(f: ResistanceFactors, stat: int, draw: int)
    requires f.formula.Percent? && stat > 0
    ensures var r, divisor := Resistance(f, stat, draw), stat + Truncate(f.constant);
            divisor < 0 ==> r <= 0 && r * divisor <= stat * 100 < r * divisor - divisor
  {
    var divisor := stat + Truncate(f.constant);
    if divisor < 0 {
      QuotientIs(stat * 100, -divisor);
      var q := Quotient(stat * 100, -divisor);
      assert Resistance(f, stat, draw) == -q;
      assert -q * divisor == q * -divisor;
    }
  }

  lemma QuotientReaches(a: nat, b: nat, q: int)
    requires b > 0
    ensures Quotient(a, b) >= 0 && (Quotient(a, b) >= q <==> a >= q * b)
  {
    QuotientIs(a, b);
    var r := a / b;
    hide Quotient;
    if r >= q {
      TimesMonotone(q, r, b);
    } else {
      TimesMonotone(r + 1, q, b);
      assert (r + 1) * b == r * b + b;
    }
  }

  lemma QuotientIs(a: nat, b: nat)
    requires b > 0
    ensures Quotient(a, b) == a / b >= 0 && (a / b) * b <= a < (a / b) * b + b
  {
    assert a == (a / b) * b + a % b;
  }

  lemma TimesMonotone(q: int, r: int, b: nat)
    requires q <= r
    ensures q * b <= r * b
  {
    assert (r - q) * b == r * b - q * b && (r - q) * b >= 0;
  }

  lemma PercentGrows(f: ResistanceFactors, low: int, high: int, draw: int)
    requires f.formula.Percent? && 0 < low <= high && f.constant >= 0.0
    ensures Resistance(f, low, draw) <= Resistance(f, high, draw)
  {
    var k, r := Truncate(f.constant), Resistance(f, low, draw);
    TruncateIs(f.constant);
    PercentReaches(f, low, draw, r);
    PercentReaches(f, high, draw, r);
    hide Resistance;
    StillReached(low, high - low, k, r);
  }

  lemma StillReached(low: int, more: nat, k: int, r: int)
    requires r <= 100 && low * 100 >= r * (low + k)
    ensures (low + more) * 100 >= r * (low + more + k)
  {
    TimesMonotone(r, 100, more);
    assert r * (low + more + k) == r * (low + k) + r * more;
  }

  /** What the formulas make of damage, where the floor does not lift it and nothing is negative. The ratio: the whole part
      of the share that the constant has in constant and resistance together. */
  lemma RatioIs(f: ResolutionFactors, output: int, resistance: nat, together: real)
    requires f.formula.RatioMitigation? && f.constant > 0.0 && f.floor >= 0.0 && together == f.constant + resistance as real
    requires f.floor * together <= output as real * f.constant
    ensures var r := Resolution(f, output, resistance);
            r as real * together <= output as real * f.constant < r as real * together + together
  {
    var n := output as real * f.constant;
    WholePart(f.floor, n, together);
    assert Ratio(output as real, f.constant, resistance as real) == n / together;
    hide Ratio;
    hide Truncate;
  }

  /** The division: the whole part of the quotient and the addend, undivided where there is no resistance. */
  lemma DivisionIs(f: ResolutionFactors, output: int, resistance: nat)
    requires f.formula.ScaledDivision? && f.floor >= 0.0 && resistance > 0
    requires f.floor * resistance as real <= output as real * f.multiplier + f.addend * resistance as real
    ensures var r, d := Resolution(f, output, resistance), resistance as real;
            r as real * d <= output as real * f.multiplier + f.addend * d < r as real * d + d
  {
    DivisionUnfolds(f, output, resistance);
    hide Resolution;
    TopsFloor(f.floor, Times(output as real, f.multiplier), f.addend, resistance as real);
    hide Truncate;
    hide Max;
    hide Over;
  }

  lemma DivisionUnfolds(f: ResolutionFactors, output: int, resistance: int)
    requires f.formula.ScaledDivision? && resistance > 0
    ensures Resolution(f, output, resistance) ==
            Truncate(Max(f.floor, Over(Times(output as real, f.multiplier), resistance as real) + f.addend))
  {
    hide Truncate;
    hide Max;
    hide Over;
    hide Times;
  }

  lemma UndividedIs(f: ResolutionFactors, output: int)
    requires f.formula.ScaledDivision? && 0.0 <= f.floor <= output as real * f.multiplier + f.addend
    ensures Resolution(f, output, 0) as real <= output as real * f.multiplier + f.addend < (Resolution(f, output, 0) + 1) as real
  {
    TruncateIs(output as real * f.multiplier + f.addend);
  }

  lemma TopsFloor(floor: real, m: real, b: real, d: real)
    requires floor >= 0.0 && d > 0.0 && floor * d <= m + b * d
    ensures var r := Truncate(Max(floor, Over(m, d) + b));
            r as real * d <= m + b * d < r as real * d + d
  {
    SumOver(m, b, d);
    WholePart(floor, m + b * d, d);
  }

  lemma SumOver(m: real, b: real, d: real)
    requires d > 0.0
    ensures (m + b * d) / d == m / d + b
  {
    assert (m / d + b) * d == m + b * d;
  }

  /** In layers: the whole part of what the percentage leaves less the flat reduction. */
  lemma LayersAre(f: ResolutionFactors, output: int, resistance: int, kept: real)
    requires f.formula.Layered? && f.floor >= 0.0 && kept == (100 - resistance) as real
    requires 100.0 * f.floor <= output as real * kept - 100.0 * f.flatReduction
    ensures var r := Resolution(f, output, resistance);
            100.0 * r as real <= output as real * kept - 100.0 * f.flatReduction < 100.0 * (r + 1) as real
  {
    var x := output as real * kept;
    Layer(output as real, resistance, kept);
    hide Times;
    assert Resolution(f, output, resistance) == Truncate(Max(f.floor, x / 100.0 - f.flatReduction));
    hide Resolution;
    Hundredth(f.floor, x, f.flatReduction);
    hide Truncate;
    hide Max;
  }

  lemma Hundredth(floor: real, x: real, flat: real)
    requires 0.0 <= 100.0 * floor <= x - 100.0 * flat
    ensures var r := Truncate(Max(floor, x / 100.0 - flat));
            100.0 * r as real <= x - 100.0 * flat < 100.0 * (r + 1) as real
  {
    TruncateIs(x / 100.0 - flat);
  }

  lemma Layer(out: real, resistance: int, kept: real)
    requires kept == (100 - resistance) as real
    ensures Times(out, 1.0 - resistance as real / 100.0) == out * kept / 100.0
  {
    assert 1.0 - resistance as real / 100.0 == kept / 100.0;
    assert out * (kept / 100.0) == out * kept / 100.0;
  }

  lemma WholePart(floor: real, n: real, d: real)
    requires 0.0 <= floor && d > 0.0 && floor * d <= n
    ensures floor <= n / d
    ensures Truncate(n / d) as real * d <= n < Truncate(n / d) as real * d + d
  {
    if n / d < floor { RealTimes(n / d, floor, d); }
    TruncateIs(n / d);
    Between(Truncate(n / d) as real, n / d, n, d);
  }

  lemma Between(low: real, q: real, n: real, d: real)
    requires d > 0.0 && n == q * d && low <= q < low + 1.0
    ensures low * d <= n < low * d + d
  {
    var high := low + 1.0;
    if low < q { RealTimes(low, q, d); }
    RealTimes(q, high, d);
    assert n < high * d;
    assert high * d == low * d + d;
  }

  lemma RealTimes(a: real, b: real, d: real)
    requires d > 0.0 && a < b
    ensures a * d < b * d
  {
    assert (b - a) * d > 0.0;
    assert (b - a) * d == b * d - a * d;
  }

  /** Whoever can pay pays exactly the cost of each stage that applies; the armor is not paid for where the defense has
      stopped the hit. So it is on its own, and so it is in the batch. */
  lemma ChargesPaid(a: Attack, s: Stats, c: Charges, d: Draws, lane: (int, BlockType))
    ensures var (r, left) := Scalar(a, s, c, d);
            var paid := a.blockedByDefense && s.canUseDefense && s.defenseCost <= c.defense;
            var armored := a.blockedByArmor && s.armorCost <= c.armor && r != Blocked(Defensive);
            && left.defense == c.defense - (if paid then s.defenseCost else 0)
            && left.armor == c.armor - (if armored then s.armorCost else 0)
    ensures var (r, left) := FromLane(a, s, c, lane);
            var paid := a.blockedByDefense && s.canUseDefense && s.defenseCost <= c.defense;
            var armored := a.blockedByArmor && s.armorCost <= c.armor && !(paid && lane.1 == Defensive);
            && left.defense == c.defense - (if paid then s.defenseCost else 0)
            && left.armor == c.armor - (if armored then s.armorCost else 0)
            && r == (if lane.1 == NoBlock then Damage(lane.0) else Blocked(lane.1))
  {
    hide Resistance;
    hide Resolution;
  }

  /** Subtraction without a floor, on its own: defense and then armor are taken off by who can pay for them, and what
      brings the damage to nothing has blocked it. */
  lemma SubtractiveAlone(a: Attack, s: Stats, c: Charges, d: Draws)
    requires a.resolution.formula.Subtractive? && a.resolution.floor == 0.0 && a.base > 0
    ensures var defends := a.blockedByDefense && s.canUseDefense && s.defenseCost <= c.defense;
            var armored := a.blockedByArmor && s.armorCost <= c.armor;
            var behind := a.base - if defends then Resistance(a.defense, s.defense, d.defense) else 0;
            var left := behind - if armored then Resistance(a.armor, s.armor, d.armor) else 0;
            Scalar(a, s, c, d).0 ==
            if defends && behind <= 0 then Blocked(Defensive) else if armored && left <= 0 then Blocked(Armor) else Damage(left)
  {
    hide Resistance;
    SubtractiveIs(a.resolution, a.base, Resistance(a.defense, s.defense, d.defense));
    SubtractiveIs(a.resolution, a.base - Resistance(a.defense, s.defense, d.defense), Resistance(a.armor, s.armor, d.armor));
    SubtractiveIs(a.resolution, a.base, Resistance(a.armor, s.armor, d.armor));
    hide Resolution;
  }

  /** A floor below zero lets a hit become a huge one on its own, where the batch has it blocked. */
  lemma BelowZeroIsHuge(a: Attack, s: Stats, c: Charges, d: Draws)
    requires a.resolution.formula.Subtractive? && a.resolution.floor == -5.0 && a.base == 10
    requires a.blockedByDefense && !a.blockedByArmor && a.defense.formula.Identity? && s == Stats(true, 12, 0, 0, 0)
    ensures Scalar(a, s, c, d).0 == Damage(4294967294) && FromLane(a, s, c, Lane(a, s, d)).0 == Blocked(Defensive)
  {
    SubtractiveIs(a.resolution, 10, 12);
    assert Truncate(-5.0) == -5;
    SubtractiveIs(a.resolution, -2, Resistance(a.armor, s.armor, d.armor));
    hide Resolution;
    hide Truncate;
  }

  // ---------------------------------------------------------------- stages that are not paid for

  function AtLeast(floor: int, n: int): int {
    if n < floor then floor else n
  }

  /** Subtraction in whole numbers: the difference, but not below the floor. */
  lemma SubtractiveIs(f: ResolutionFactors, output: int, resistance: int)
    requires f.formula.Subtractive?
    ensures Resolution(f, output, resistance) == AtLeast(Truncate(f.floor), output - resistance)
  {
  }

  /** What the batch counts for a stage, whether or not it is paid for, and what `block` counts on its own. */
  function Counted(on: bool, resistance: int): int {
    if on then resistance else 0
  }

  /** The resistances that a target would meet the hit with. */
  function DefenseMet(a: Attack, s: Stats, d: Draws): int {
    Counted(a.blockedByDefense && s.canUseDefense, Resistance(a.defense, s.defense, d.defense))
  }

  function ArmorMet(a: Attack, s: Stats, d: Draws): int {
    Counted(a.blockedByArmor, Resistance(a.armor, s.armor, d.armor))
  }

  /** The target would defend itself but cannot pay. */
  predicate DefenseUnpaid(a: Attack, s: Stats, c: Charges) {
    a.blockedByDefense && s.canUseDefense && !DefenseStage(a, s, c)
  }

  predicate ArmorUnpaid(a: Attack, s: Stats, c: Charges) {
    a.blockedByArmor && !ArmorStage(a, s, c)
  }

  /** The damage that meets the armor: in the batch, and on its own. */
  function LaneBehindDefense(a: Attack, s: Stats, d: Draws): int {
    AtLeast(Truncate(a.resolution.floor), a.base - DefenseMet(a, s, d))
  }

  function BehindDefense(a: Attack, s: Stats, c: Charges, d: Draws): int {
    if DefenseUnpaid(a, s, c) then a.base else LaneBehindDefense(a, s, d)
  }

  /** The damage behind the armor: in the batch, which makes zero of anything negative, and on its own. */
  function LaneBehindArmor(a: Attack, s: Stats, d: Draws): int {
    AtLeast(0, AtLeast(Truncate(a.resolution.floor), LaneBehindDefense(a, s, d) - ArmorMet(a, s, d)))
  }

  function BehindArmor(a: Attack, s: Stats, c: Charges, d: Draws): int {
    AtLeast(Truncate(a.resolution.floor), BehindDefense(a, s, c, d) - if ArmorUnpaid(a, s, c) then 0 else ArmorMet(a, s, d))
  }

  lemma SubtractiveLane(a: Attack, s: Stats, d: Draws)
    requires a.base > 0 && a.resolution.formula.Subtractive? && a.resolution.floor < (a.base + 1) as real
    ensures var batch, left := LaneBehindDefense(a, s, d), LaneBehindArmor(a, s, d);
            && Lane(a, s, d).1 == (if batch <= 0 then Defensive else if left == 0 then Armor else NoBlock)
            && (batch > 0 ==> Lane(a, s, d).0 == left)
  {
    hide Resistance;
    hide Truncate;
    FloorFits(a.resolution.floor, a.base);
    NoStat(a, d);
    var batch := LaneBehindDefense(a, s, d);
    SubtractiveIs(a.resolution, a.base, Resistance(a.defense, s.defense, d.defense));
    SubtractiveIs(a.resolution, a.base, 0);
    SubtractiveIs(a.resolution, batch, Resistance(a.armor, s.armor, d.armor));
    SubtractiveIs(a.resolution, batch, 0);
    hide Resolution;
  }

  /** The batch with subtraction and a floor at most the base damage, whoever can pay and whatever the signs: a hit
      comes out as it would on its own exactly if an unpaid defense is not counted as a full block, what a paid one
      stops is not below zero, and what gets through is the same in both ways. (Where the floor is negative, damages
      have to fit 32 bits.) */
  lemma SubtractiveIff(a: Attack, s: Stats, c: Charges, d: Draws)
    requires a.base > 0 && a.resolution.formula.Subtractive?
    requires a.resolution.floor < (a.base + 1) as real
    requires a.resolution.floor < 0.0 ==> -0x8000_0000 <= Truncate(a.resolution.floor) && LaneBehindArmor(a, s, d) < 0x8000_0000
    ensures FromLane(a, s, c, Lane(a, s, d)) == Scalar(a, s, c, d) <==>
            if LaneBehindDefense(a, s, d) <= 0 then LaneBehindDefense(a, s, d) == 0 && !DefenseUnpaid(a, s, c)
            else LaneBehindArmor(a, s, d) == BehindArmor(a, s, c, d)
  {
    hide Resistance;
    hide Truncate;
    FloorFits(a.resolution.floor, a.base);
    SubtractiveLane(a, s, d);
    var alone := BehindDefense(a, s, c, d);
    SubtractiveIs(a.resolution, a.base, Resistance(a.defense, s.defense, d.defense));
    SubtractiveIs(a.resolution, alone, Resistance(a.armor, s.armor, d.armor));
    hide Resolution;
    hide Lane;
  }

  lemma NoStat(a: Attack, d: Draws)
    ensures Resistance(a.defense, 0, d.defense) == 0 && Resistance(a.armor, 0, d.armor) == 0
  {
  }

  lemma FloorFits(floor: real, base: nat)
    requires floor < (base + 1) as real
    ensures Truncate(floor) <= base && (0.0 <= floor ==> 0 <= Truncate(floor))
  {
  }

  /** Where no resistance is negative: exactly if an unpaid defense would not stop the hit by itself, and what
      the unpaid stages would take is nothing, or the damage is at the floor even without them. */
  lemma UnpaidStagesIff(a: Attack, s: Stats, c: Charges, d: Draws)
    requires a.base > 0 && a.resolution.formula.Subtractive?
    requires 0.0 <= a.resolution.floor < (a.base + 1) as real
    requires DefenseMet(a, s, d) >= 0 && ArmorMet(a, s, d) >= 0
    ensures var floor := Truncate(a.resolution.floor);
            var unpaid := Counted(DefenseUnpaid(a, s, c), DefenseMet(a, s, d)) + Counted(ArmorUnpaid(a, s, c), ArmorMet(a, s, d));
            var paid := DefenseMet(a, s, d) + ArmorMet(a, s, d) - unpaid;
            FromLane(a, s, c, Lane(a, s, d)) == Scalar(a, s, c, d) <==>
            && (DefenseUnpaid(a, s, c) ==> floor > 0 || DefenseMet(a, s, d) < a.base)
            && (unpaid == 0 || a.base - paid <= floor)
  {
    SubtractiveIff(a, s, c, d);
    FloorFits(a.resolution.floor, a.base);
    hide FromLane;
    hide Lane;
    hide Scalar;
    hide Truncate;
    hide Resistance;
  }

  /** A target that cannot pay for its defense shows why the charges matter: the batch has already
      counted the defense in. */
  lemma BatchIgnoresCharges()
    ensures var r := ResistanceFactors(0.0, 0.0, 100.0, Identity);
            var a := Attack(10, true, false, r, r, ResolutionFactors(100.0, 1.0, 0.0, 0.0, 0.0, Subtractive));
            var s, c, d := Stats(true, 4, 0, 1, 0), Charges(0, 0), Draws(0, 0);
            Scalar(a, s, c, d).0 == Damage(10) && FromLane(a, s, c, Lane(a, s, d)).0 == Damage(6)
  {
  }

  /** And layered mitigation with a flat reduction is not neutral: a target without any defense loses
      the reduction in the batch although no stage applies to it on its own. */
  lemma LayeredIsNotNeutral()
    ensures var r := ResistanceFactors(0.0, 0.0, 100.0, Identity);
            var a := Attack(10, false, false, r, r, ResolutionFactors(100.0, 1.0, 0.0, 3.0, 0.0, Layered));
            var s, c, d := Stats(false, 0, 0, 0, 0), Charges(0, 0), Draws(0, 0);
            Scalar(a, s, c, d).0 == Damage(10) && FromLane(a, s, c, Lane(a, s, d)).0 == Damage(4)
  {
  }

  // ---------------------------------------------------------------- the code

  class Target {
    const stats: Stats
    var charges: Charges

    constructor (stats: Stats, charges: Charges)
      ensures this.stats == stats && this.charges == charges
    {
      this.stats := stats;
      this.charges := charges;
    }
  }

  class Combat {
    const attack: Attack
    // g_batch_ctx
    var damages: array<int>
    var blockTypes: array<BlockType>
    var index: nat
    var active: bool

    constructor (attack: Attack)
      ensures this.attack == attack && !active && fresh(damages) && fresh(blockTypes)
    {
      this.attack := attack;
      damages := new int[0];
      blockTypes := new BlockType[0];
      index, active := 0, false;
    }

    /** `block` against a player. */
    method Block(t: Target, d: Draws) returns (r: Outcome)
      requires active ==> index < damages.Length == blockTypes.Length
      modifies this`index, t
      ensures index == if active then old(index) + 1 else old(index)
      ensures (r, t.charges) ==
              if active then FromLane(attack, t.stats, old(t.charges), (damages[old(index)], blockTypes[old(index)]))
              else Scalar(attack, t.stats, old(t.charges), d)
    {
      var s := t.stats;
      var computed, kind, applyArmor := attack.base, NoBlock, attack.blockedByArmor;
      if active {
        computed, kind := damages[index], blockTypes[index];
        index := index + 1;
        if attack.blockedByDefense && s.canUseDefense && (s.defenseCost == 0 || t.charges.defense >= s.defenseCost) {
          if s.defenseCost > 0 { t.charges := t.charges.(defense := t.charges.defense - s.defenseCost); }
          if kind == Defensive { applyArmor := false; }
        }
        if applyArmor && (s.armorCost == 0 || t.charges.armor >= s.armorCost) {
          if s.armorCost > 0 { t.charges := t.charges.(armor := t.charges.armor - s.armorCost); }
        }
      } else {
        if attack.blockedByDefense && s.canUseDefense && (s.defenseCost == 0 || t.charges.defense >= s.defenseCost) {
          if s.defenseCost > 0 { t.charges := t.charges.(defense := t.charges.defense - s.defenseCost); }
          computed := Resolution(attack.resolution, computed, Resistance(attack.defense, s.defense, d.defense));
          if computed == 0 { kind, applyArmor := Defensive, false; }
        }
        if applyArmor && (s.armorCost == 0 || t.charges.armor >= s.armorCost) {
          if s.armorCost > 0 { t.charges := t.charges.(armor := t.charges.armor - s.armorCost); }
          computed := Resolution(attack.resolution, computed, Resistance(attack.armor, s.armor, d.armor));
          if computed == 0 { kind := Armor; }
        }
      }
      r := if kind != NoBlock then Blocked(kind) else Damage(if active then computed else Unsigned(computed));
    }

    /** Stats of the targets that can defend, zero for the others. */
    method GatherDefense(targets: seq<Target>, stats: array<int>)
      requires stats.Length == |targets|
      modifies stats
      ensures forall k :: 0 <= k < |targets| ==> stats[k] == DefenseStat(attack, targets[k].stats)
    {
      for k := 0 to |targets|
        invariant forall j :: 0 <= j < k ==> stats[j] == DefenseStat(attack, targets[j].stats)
      {
        var s := targets[k].stats;
        stats[k] := if !attack.blockedByDefense then 0 else if s.canUseDefense then s.defense else 0;
      }
    }

    /** Block types after the defense stage, and the armor stats that still count. */
    method GatherArmor(targets: seq<Target>, values: array<int>, stats: array<int>, types: array<BlockType>)
      requires stats.Length == values.Length == types.Length == |targets| && stats != values
      modifies stats, types
      ensures forall k :: 0 <= k < |targets| ==>
        types[k] == (if values[k] <= 0 then Defensive else NoBlock)
        && stats[k] == (if values[k] <= 0 || !attack.blockedByArmor then 0 else targets[k].stats.armor)
    {
      for k := 0 to |targets|
        invariant forall j :: 0 <= j < k ==>
          types[j] == (if values[j] <= 0 then Defensive else NoBlock)
          && stats[j] == (if values[j] <= 0 || !attack.blockedByArmor then 0 else targets[j].stats.armor)
      {
        if values[k] <= 0 {
          types[k], stats[k] := Defensive, 0;
        } else {
          types[k] := NoBlock;
          stats[k] := if !attack.blockedByArmor then 0 else targets[k].stats.armor;
        }
      }
    }

    /** The defense half of `block_batch`: stats, resistance, resolution of the base damage. */
    method DefensePass(targets: seq<Target>, draws: seq<Draws>) returns (values: array<int>)
      requires |draws| == |targets|
      ensures fresh(values) && values.Length == |targets|
      ensures forall k :: 0 <= k < |targets| ==> values[k] == LaneDefense(attack, targets[k].stats, draws[k])
    {
      hide Resolution;
      hide Resistance;
      var n := |targets|;
      var stats, resist := new int[n], new int[n];
      values := new int[n](_ => attack.base);
      GatherDefense(targets, stats);
      BatchResistance(stats, attack.defense, seq(n, k requires 0 <= k < n => draws[k].defense), resist);
      BatchResolve(values, resist, attack.resolution);
    }

    /** The armor half, on the values the defense half left. */
    method ArmorPass(targets: seq<Target>, draws: seq<Draws>, values: array<int>) returns (types: array<BlockType>)
      requires |draws| == |targets| == values.Length
      modifies values
      ensures fresh(types) && types.Length == |targets|
      ensures forall k :: 0 <= k < |targets| ==>
        values[k] == LaneArmor(attack, targets[k].stats, draws[k], old(values[k]))
        && types[k] == (if old(values[k]) <= 0 then Defensive else NoBlock)
    {
      hide Resolution;
      hide Resistance;
      var n := |targets|;
      var stats, resist := new int[n], new int[n];
      types := new BlockType[n];
      GatherArmor(targets, values, stats, types);
      BatchResistance(stats, attack.armor, seq(n, k requires 0 <= k < n => draws[k].armor), resist);
      BatchResolve(values, resist, attack.resolution);
    }

    /** `block_batch`: one array pass per stage, then the context is switched on. */
    method BlockBatch(targets: seq<Target>, draws: seq<Draws>)
      requires |draws| == |targets|
      modifies this`damages, this`blockTypes, this`index, this`active
      ensures fresh(damages) && fresh(blockTypes) && damages.Length == blockTypes.Length == |targets|
      ensures forall k :: 0 <= k < |targets| ==> (damages[k], blockTypes[k]) == Lane(attack, targets[k].stats, draws[k])
      ensures active && index == 0
    {
      hide Lane;
      hide LaneDefense;
      hide LaneArmor;
      var n := |targets|;
      var values := DefensePass(targets, draws);
      ghost var first := values[..];
      var outTypes := ArmorPass(targets, draws, values);
      var outDamages := new int[n];
      FinishLanes(values, outDamages, outTypes);
      forall k | 0 <= k < n ensures (outDamages[k], outTypes[k]) == Lane(attack, targets[k].stats, draws[k]) {
        LaneParts(attack, targets[k].stats, draws[k]);
        assert first[k] == LaneDefense(attack, targets[k].stats, draws[k]);
      }
      damages, blockTypes, index, active := outDamages, outTypes, 0, true;
    }

    /** The strikes of an area attack in order: every one of them comes out as if it were on its own. */
    method StrikeAll(targets: seq<Target>, draws: seq<Draws>) returns (outcomes: seq<Outcome>)
      requires |draws| == |targets|
      requires forall i, j :: 0 <= i < j < |targets| ==> targets[i] != targets[j]
      requires attack.base > 0 && 0.0 <= attack.resolution.floor < (attack.base + 1) as real
      requires attack.resolution.formula.Subtractive?
               || (attack.resolution.formula.RatioMitigation? && attack.resolution.constant > 0.0)
      requires forall k :: 0 <= k < |targets| ==> EnoughCharges(attack, targets[k].stats, targets[k].charges)
      modifies this, targets
      ensures |outcomes| == |targets| && !active
      ensures forall k :: 0 <= k < |targets| ==>
        (outcomes[k], targets[k].charges) == Scalar(attack, targets[k].stats, old(targets[k].charges), draws[k])
    {
      BlockBatch(targets, draws);
      hide Lane;
      hide FromLane;
      hide Scalar;
      outcomes := [];
      for k := 0 to |targets|
        invariant |outcomes| == k && active && index == k
        invariant fresh(damages) && fresh(blockTypes) && damages.Length == blockTypes.Length == |targets|
        invariant forall j :: 0 <= j < |targets| ==>
          (damages[j], blockTypes[j]) == Lane(attack, targets[j].stats, draws[j])
        invariant forall j :: k <= j < |targets| ==> targets[j].charges == old(targets[j].charges)
        invariant forall j :: 0 <= j < k ==>
          (outcomes[j], targets[j].charges) == Scalar(attack, targets[j].stats, old(targets[j].charges), draws[j])
      {
        BatchRefinesScalar(attack, targets[k].stats, targets[k].charges, draws[k]);
        var r := Block(targets[k], draws[k]);
        outcomes := outcomes + [r];
      }
      active := false;
    }
  }

  function LaneArmor(a: Attack, s: Stats, d: Draws, d1: int): int {
    Resolution(a.resolution, d1, Resistance(a.armor, if d1 <= 0 || !a.blockedByArmor then 0 else s.armor, d.armor))
  }

  lemma LaneParts(a: Attack, s: Stats, d: Draws)
    ensures var d1 := LaneDefense(a, s, d);
            var d2 := LaneArmor(a, s, d, d1);
            var out := if d2 > 0 then d2 else 0;
            Lane(a, s, d) == (out, if d1 <= 0 then Defensive else if out == 0 then Armor else NoBlock)
  {
  }

  /** The final copy: damage is not negative, and a hit that armor stopped is marked so. */
  method FinishLanes(values: array<int>, damages: array<int>, types: array<BlockType>)
    requires values.Length == damages.Length == types.Length && values != damages
    modifies damages, types
    ensures forall k :: 0 <= k < values.Length ==>
      damages[k] == (if values[k] > 0 then values[k] else 0)
      && types[k] == (if old(types[k]) == NoBlock && damages[k] == 0 then Armor else old(types[k]))
  {
    for k := 0 to values.Length
      invariant forall j :: k <= j < values.Length ==> types[j] == old(types[j])
      invariant forall j :: 0 <= j < k ==>
        damages[j] == (if values[j] > 0 then values[j] else 0)
        && types[j] == (if old(types[j]) == NoBlock && damages[j] == 0 then Armor else old(types[j]))
    {
      damages[k] := if values[k] > 0 then values[k] else 0;
      if types[k] == NoBlock && damages[k] == 0 { types[k] := Armor; }
    }
  }

  /** `SIMD::batch_resistance`, lane by lane. */
  method BatchResistance(stats: array<int>, f: ResistanceFactors, draws: seq<int>, resist: array<int>)
    requires |draws| == stats.Length == resist.Length && stats != resist
    modifies resist
    ensures forall k :: 0 <= k < stats.Length ==> resist[k] == Resistance(f, stats[k], draws[k])
  {
    hide Resistance;
    for k := 0 to stats.Length
      invariant forall j :: 0 <= j < k ==> resist[j] == Resistance(f, stats[j], draws[j])
    {
      resist[k] := Resistance(f, stats[k], draws[k]);
    }
  }

  /** `SIMD::batch_resolve` writing its result over its first input. */
  method BatchResolve(values: array<int>, resist: array<int>, f: ResolutionFactors)
    requires values.Length == resist.Length && values != resist
    modifies values
    ensures forall k :: 0 <= k < values.Length ==> values[k] == Resolution(f, old(values[k]), resist[k])
  {
    hide Resolution;
    for k := 0 to values.Length
      invariant forall j :: k <= j < values.Length ==> values[j] == old(values[j])
      invariant forall j :: 0 <= j < k ==> values[j] == Resolution(f, old(values[j]), resist[j])
    {
      values[k] := Resolution(f, values[k], resist[k]);
    }
  }

  function DefenseStat(a: Attack, s: Stats): int {
    if a.blockedByDefense && s.canUseDefense then s.defense else 0
  }

  function LaneDefense(a: Attack, s: Stats, d: Draws): int {
    Resolution(a.resolution, a.base, Resistance(a.defense, DefenseStat(a, s), d.defense))
  }
}
