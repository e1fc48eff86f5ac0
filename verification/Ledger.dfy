/** The conditions of a creature and what they have changed (src/creature.cpp, src/condition.cpp): the
    offsets of skills, special skills and stats, and the speed, are a ledger of the active conditions. */
module Ledger {
  import opened Lists

  const CONDITION_HASTE: nat := 0x10
  const CONDITION_PARALYZE: nat := 0x20
  const CONDITION_OUTFIT: nat := 0x40
  const CONDITION_DRUNK: nat := 0x800
  const CONDITION_ATTRIBUTES: nat := 0x80000

  const SKILLS: nat := 7
  const SPECIAL_SKILLS: nat := 6
  const STATS: nat := 4
  const SLOTS: nat := 18
  const SPEED_SLOT: nat := 17

  /** Which class `createCondition` makes of a type, as far as the ledger goes. */
  datatype Kind = Attributes | Speed | Damage | Drunk | Other

  function KindOf(ctype: nat): Kind {
    if ctype == CONDITION_ATTRIBUTES then Attributes
    else if ctype == CONDITION_HASTE || ctype == CONDITION_PARALYZE then Speed
    else if ctype in {0x1, 0x2, 0x4, 0x8, 0x8000, 0x10_0000, 0x20_0000, 0x40_0000} then Damage
    else if ctype == CONDITION_DRUNK then Drunk
    else Other
  }

  /** Conditions that always start, and that do nothing while active but let time pass. */
  predicate OnlyTimed(ctype: nat) {
    KindOf(ctype) == Attributes || KindOf(ctype) == Speed || KindOf(ctype) == Drunk
  }

  /** What a damage condition has: the portions still to come, or the damage of each period, or the bounds of what is
      drawn at random; and whether it takes over from another one whatever that does. */
  datatype Pain = Pain(list: seq<int>, period: int, minDamage: int, maxDamage: int, delayed: bool, forced: bool)

  function Portions(list: seq<int>): int {
    if list == [] then 0 else Portions(list[..|list| - 1]) + list[|list| - 1]
  }

  /** Division by two of `int32_t`: towards zero. */
  function Half(n: int): int {
    if n >= 0 then n / 2 else -(-n / 2)
  }

  /** `getTotalDamage`. */
  function TotalDamage(p: Pain): nat {
    var total := if p.list != [] then Portions(p.list) else p.minDamage + Half(p.maxDamage - p.minDamage);
    if total < 0 then -total else total
  }

  /** The portions behind a refresh: the first one is dealt at once, unless it has to wait or stays for ever. */
  function AfterFirst(p: Pain, ticks: int): seq<int> {
    if !p.delayed && p.period == 0 && p.list != [] && ticks != -1 then p.list[1..] else p.list
  }

  /** A list of portions comes to their sum. */
  lemma {:induction false} PortionsAdd(a: seq<int>, b: seq<int>, n: int)
    ensures Portions([]) == 0 && Portions([n]) == n && Portions(a + b) == Portions(a) + Portions(b)
  {
    assert [n][..0] == [];
    if b == [] {
      assert a + b == a;
    } else {
      assert (a + b)[..|a + b| - 1] == a + b[..|b| - 1];
      PortionsAdd(a, b[..|b| - 1], n);
    }
  }

  /** The total is the size of the sum of the portions; where there are none it is the middle of the bounds, a half
      left out towards zero. */
  lemma TotalDamageIs(p: Pain)
    ensures p.list != [] ==> TotalDamage(p) == (if Portions(p.list) < 0 then -Portions(p.list) else Portions(p.list))
    ensures p.list == [] && 0 <= p.minDamage <= p.maxDamage ==>
              2 * TotalDamage(p) <= p.minDamage + p.maxDamage <= 2 * TotalDamage(p) + 1
    ensures p.list == [] && p.maxDamage <= p.minDamage <= 0 ==>
              2 * TotalDamage(p) <= -(p.minDamage + p.maxDamage) <= 2 * TotalDamage(p) + 1
  {
  }

  /** The types of each class. */
  lemma KindsOfTypes(ctype: nat)
    ensures KindOf(ctype) == Attributes <==> ctype == 0x80000
    ensures KindOf(ctype) == Speed <==> ctype in {0x10, 0x20}
    ensures KindOf(ctype) == Damage <==> ctype in {0x1, 0x2, 0x4, 0x8, 0x8000, 0x10_0000, 0x20_0000, 0x40_0000}
    ensures KindOf(ctype) == Drunk <==> ctype == 0x800
    ensures OnlyTimed(ctype) <==> ctype in {0x10, 0x20, 0x800, 0x80000}
  {
  }

  /** The times and strengths of a condition. */
  datatype Snapshot = Snapshot(ticks: int, endTime: int, speedDelta: int, drunkenness: nat, pain: Pain, values: seq<int>)

  /** What becomes of an active condition when one of the same key, `c`, is added at `now`, in terms of their times and
      strengths. Of two limited ones the later end counts, except for speed, damage and drunkenness. */
  ghost predicate Settles(ctype: nat, was: Snapshot, got: Snapshot, c: Snapshot, now: int) {
    match KindOf(ctype)
    case Attributes => LaterEnd(was, got, c, now)
    case Other =>
      && LaterEnd(was, got, c, now)
      && got.values == if (was.ticks == -1 && c.ticks > 0) || (c.ticks >= 0 && was.endTime > now + c.ticks) then was.values
                      else c.values
    case Speed =>
      if was.ticks == -1 && c.ticks > 0 then got == was
      else got.ticks == c.ticks && got.endTime == now + c.ticks && (c.speedDelta != 0 ==> got.speedDelta == c.speedDelta)
    case Drunk =>
      && got.drunkenness == was.drunkenness
      && (c.drunkenness <= was.drunkenness ==> got == was)
      && (c.drunkenness > was.drunkenness ==> got.ticks == c.ticks && got.endTime == now + c.ticks)
    case Damage => DamageSettles(was, got, c, now)
  }

  /** Unlimited stays unlimited; of two limited ones the later end is kept. */
  ghost predicate LaterEnd(was: Snapshot, got: Snapshot, c: Snapshot, now: int) {
    && (was.ticks == -1 && c.ticks > 0 ==> got == was)
    && (c.ticks >= 0 && !(was.ticks == -1 && c.ticks > 0) ==>
          && got.endTime == (if was.endTime > now + c.ticks then was.endTime else now + c.ticks)
          && got.ticks == if was.endTime > now + c.ticks then was.ticks else c.ticks)
    && (c.ticks < 0 ==> got.ticks == c.ticks && got.endTime == now + c.ticks)
  }

  /** By force, or by more damage in total, whatever the ends. */
  ghost predicate DamageSettles(was: Snapshot, got: Snapshot, c: Snapshot, now: int) {
    && got.pain.delayed == was.pain.delayed && got.pain.forced == was.pain.forced
    && if !c.pain.forced && ((was.ticks == -1 && c.ticks > 0) || TotalDamage(c.pain) <= TotalDamage(was.pain)) then got == was
       else
         && got.pain.period == c.pain.period && got.pain.minDamage == c.pain.minDamage && got.pain.maxDamage == c.pain.maxDamage
         && (c.pain.period != 0 || c.pain.list != [] ==>
               && got.ticks == c.ticks && got.endTime == now + c.ticks
               && got.pain.list == if c.pain.period == 0 && c.ticks != -1 && !was.pain.delayed then c.pain.list[1..] else c.pain.list)
  }

  type Skills = r: seq<int> | |r| == SKILLS witness seq(SKILLS, i => 0)
  type SpecialSkills = r: seq<int> | |r| == SPECIAL_SKILLS witness seq(SPECIAL_SKILLS, i => 0)
  type Stats = r: seq<int> | |r| == STATS witness seq(STATS, i => 0)

  /** One row of the ledger: skills, special skills, stats and speed, in this order. */
  type Row = r: seq<int> | |r| == SLOTS witness seq(SLOTS, i => 0)

  function RowOf(skills: Skills, specialSkills: SpecialSkills, stats: Stats, speed: int): Row {
    skills + specialSkills + stats + [speed]
  }

  ghost function TotalAt(book: seq<Row>, k: nat): int
    requires k < SLOTS
  {
    if book == [] then 0 else TotalAt(book[..|book| - 1], k) + book[|book| - 1][k]
  }

  lemma {:induction false} TotalConcat(a: seq<Row>, b: seq<Row>, k: nat)
    requires k < SLOTS
    ensures TotalAt(a + b, k) == TotalAt(a, k) + TotalAt(b, k)
  {
    if b == [] {
      assert a + b == a;
    } else {
      assert (a + b)[..|a + b| - 1] == a + b[..|b| - 1];
      TotalConcat(a, b[..|b| - 1], k);
    }
  }

  lemma TotalRemove(book: seq<Row>, at: nat, k: nat)
    requires at < |book| && k < SLOTS
    ensures TotalAt(RemoveAt(book, at), k) == TotalAt(book, k) - book[at][k]
  {
    assert book == book[..at] + [book[at]] + book[at + 1..];
    TotalConcat(book[..at] + [book[at]], book[at + 1..], k);
    TotalConcat(book[..at], [book[at]], k);
    TotalConcat(book[..at], book[at + 1..], k);
    assert TotalAt([book[at]], k) == book[at][k];
  }

  lemma TotalUpdate(book: seq<Row>, at: nat, row: Row, k: nat)
    requires at < |book| && k < SLOTS
    ensures TotalAt(book[at := row], k) == TotalAt(book, k) - book[at][k] + row[k]
  {
    var book' := book[at := row];
    TotalRemove(book, at, k);
    TotalRemove(book', at, k);
    assert RemoveAt(book, at) == RemoveAt(book', at);
  }

  lemma TotalPush(book: seq<Row>, row: Row, k: nat)
    requires k < SLOTS
    ensures TotalAt(book + [row], k) == TotalAt(book, k) + row[k]
  {
    assert (book + [row])[..|book|] == book;
  }

  datatype CreatureKind = Player | Npc | Monster

  /** Haste and paralysis drive each other out. */
  function Opposite(ctype: nat): nat {
    if ctype == CONDITION_HASTE then CONDITION_PARALYZE else CONDITION_HASTE
  }

  class Condition {
    const ctype: nat
    const id: int
    const subId: nat
    var ticks: int
    var endTime: int
    var skills: Skills
    var skillsPercent: Skills
    var specialSkills: SpecialSkills
    var stats: Stats
    var statsPercent: Stats
    var speedDelta: int
    var pain: Pain
    var drunkenness: nat
    /** Gains and ticks of regeneration and soul, level and color of a light, an outfit; nothing for other types. */
    var values: seq<int>

    constructor (ctype: nat, id: int, subId: nat, ticks: int, skills: Skills, skillsPercent: Skills,
                 specialSkills: SpecialSkills, stats: Stats, statsPercent: Stats, speedDelta: int, pain: Pain, drunkenness: nat,
                 values: seq<int>)
      ensures this.ctype == ctype && this.id == id && this.subId == subId && this.ticks == ticks && endTime == 0
      ensures this.speedDelta == speedDelta
    {
      this.pain, this.drunkenness, this.values := pain, drunkenness, values;
      this.ctype, this.id, this.subId, this.ticks, endTime := ctype, id, subId, ticks, 0;
      this.skills, this.skillsPercent, this.specialSkills := skills, skillsPercent, specialSkills;
      this.stats, this.statsPercent, this.speedDelta := stats, statsPercent, speedDelta;
    }

    /** What an active condition of this kind has added to its creature. */
    ghost function Added(isPlayer: bool): Row
      reads this
    {
      match KindOf(ctype)
      case Attributes => if isPlayer then RowOf(skills, specialSkills, stats, 0) else NoRow()
      case Speed => RowOf(seq(SKILLS, i => 0), seq(SPECIAL_SKILLS, i => 0), seq(STATS, i => 0), speedDelta)
      case _ => NoRow()
    }

    /** The values of `that`, except where they are worked out again from the player. */
    ghost predicate Takes(skills0: Skills, specialSkills0: SpecialSkills, stats0: Stats)
      reads this
    {
      && specialSkills == specialSkills0
      && (forall i :: 0 <= i < SKILLS && skillsPercent[i] == 0 ==> skills[i] == skills0[i])
      && (forall i :: 0 <= i < STATS && statsPercent[i] == 0 ==> stats[i] == stats0[i])
    }

    /** Neither unlimited nor run out: `executeCondition` of a condition that does nothing else. */
    predicate Lasts(now: int)
      reads this
    {
      ticks == -1 || endTime >= now
    }

    predicate SameKey(that: Condition) {
      ctype == that.ctype && id == that.id && subId == that.subId
    }

    /** `Condition::startCondition`. */
    method StartTimer(now: int)
      modifies this`endTime
      ensures endTime == if ticks > 0 then ticks + now else old(endTime)
    {
      if ticks > 0 {
        endTime := ticks + now;
      }
    }

    ghost function Now(): Snapshot
      reads this
    {
      Snapshot(ticks, endTime, speedDelta, drunkenness, pain, values)
    }

    /** The times of a condition that has just started. */
    ghost predicate Started(ticks0: int, endTime0: int, now: int)
      reads this
    {
      ticks == ticks0 && endTime == if ticks > 0 then ticks + now else endTime0
    }

    /** `setTicks`. */
    method SetTicks(newTicks: int, now: int)
      modifies this`ticks, this`endTime
      ensures ticks == newTicks && endTime == newTicks + now
    {
      ticks, endTime := newTicks, newTicks + now;
    }

    /** `Condition::updateCondition`: a condition does not give way to one that ends earlier. */
    predicate MayUpdate(that: Condition, now: int)
      reads this, that
    {
      && ctype == that.ctype
      && !(ticks == -1 && that.ticks > 0)
      && !(that.ticks >= 0 && endTime > now + that.ticks)
    }

    /** May `that`, of the same type, refresh this one? A speed condition does not ask which ends later, a damage
        condition asks which does more damage, and a drunk one which is stronger. */
    predicate Accepts(that: Condition, now: int)
      reads this, that
    {
      match KindOf(ctype)
      case Speed => !(ticks == -1 && that.ticks > 0)
      case Damage => that.pain.forced || (!(ticks == -1 && that.ticks > 0) && TotalDamage(that.pain) > TotalDamage(pain))
      case Drunk => that.drunkenness > drunkenness
      case _ => MayUpdate(that, now)
    }

    ghost predicate TimedBy(that: Condition, now: int)
      reads this, that
    {
      ticks == that.ticks && endTime == that.ticks + now
    }

    /** What a refresh leaves: the times and the values of `that`. A damage condition that has nothing to deal yet
        draws its portions, and its time with them, at random. */
    ghost predicate RefreshedBy(that: Condition, now: int)
      reads this, that
    {
      match KindOf(ctype)
      case Attributes =>
        && TimedBy(that, now)
        && skillsPercent == that.skillsPercent && statsPercent == that.statsPercent
        && Takes(that.skills, that.specialSkills, that.stats)
      case Speed => TimedBy(that, now) && (that.speedDelta != 0 ==> speedDelta == that.speedDelta)
      case Damage =>
        && pain.period == that.pain.period && pain.minDamage == that.pain.minDamage && pain.maxDamage == that.pain.maxDamage
        && (that.pain.period != 0 || that.pain.list != [] ==>
              TimedBy(that, now) && pain.list == AfterFirst(that.pain.(delayed := pain.delayed), that.ticks))
      case Drunk => TimedBy(that, now)
      case Other => TimedBy(that, now) && values == that.values
    }

    /** `updatePercentSkills` and `updatePercentStats`, for one of the two: the slots given in percent
        are worked out again from the player. */
    static method UpdatePercent(values: seq<int>, percents: seq<int>) returns (r: seq<int>)
      requires |values| == |percents|
      ensures |r| == |values| && forall i :: 0 <= i < |r| && percents[i] == 0 ==> r[i] == values[i]
    {
      r := values;
      for i := 0 to |values|
        invariant |r| == |values| && forall k :: 0 <= k < |r| && percents[k] == 0 ==> r[k] == values[k]
      {
        if percents[i] != 0 {
          var again: int := *;
          r := r[i := again];
        }
      }
    }
  }

  function NoRow(): Row {
    seq(SLOTS, i => 0)
  }

  class Creature {
    const kind: CreatureKind
    const isPlayer: bool := kind.Player?
    /** What equipment adds to the offsets, and what the mount adds to the speed. */
    const equipment: Row
    const mountSpeed: nat
    var mounted: bool
    var conditions: seq<Condition>
    var varSkills: Skills
    var varSpecialSkills: SpecialSkills
    var varStats: Stats
    var varSpeed: int
    ghost var book: seq<Row>

    ghost function Offsets(): Row
      reads this`varSkills, this`varSpecialSkills, this`varStats, this`varSpeed
    {
      RowOf(varSkills, varSpecialSkills, varStats, varSpeed)
    }

    /** One object for each place in the list, and one condition for each type, id and sub-id. */
    ghost predicate Distinct()
      reads this`conditions
    {
      forall i, j :: 0 <= i < j < |conditions| ==>
                       conditions[i] != conditions[j] && !conditions[i].SameKey(conditions[j])
    }

    /** The book says what each active condition has added. */
    ghost predicate Kept()
      reads this`conditions, this`book, conditions
    {
      && |book| == |conditions|
      && forall i :: 0 <= i < |conditions| ==> conditions[i].Added(isPlayer) == book[i]
    }

    /** What an offset is without any condition. */
    ghost function Unconditioned(k: nat): int
      requires k < SLOTS
      reads this`mounted
    {
      equipment[k] + if k == SPEED_SLOT && mounted then mountSpeed else 0
    }

    /** Every offset is what equipment and mount add, and the sum over the active conditions. */
    ghost predicate Balanced()
      reads this`varSkills, this`varSpecialSkills, this`varStats, this`varSpeed, this`book, this`mounted
    {
      forall k :: 0 <= k < SLOTS ==> Offsets()[k] == Unconditioned(k) + TotalAt(book, k)
    }

    ghost predicate Valid()
      reads this, conditions
    {
      Distinct() && Kept() && Balanced()
    }

    constructor (kind: CreatureKind, equipment: Row, mounted: bool, mountSpeed: nat)
      ensures Valid() && conditions == []
      ensures this.kind == kind && this.equipment == equipment && this.mounted == mounted && this.mountSpeed == mountSpeed
    {
      this.kind, this.equipment, this.mounted, this.mountSpeed := kind, equipment, mounted, mountSpeed;
      conditions, book := [], [];
      varSkills, varSpecialSkills, varStats := equipment[..7], equipment[7..13], equipment[13..17];
      varSpeed := equipment[SPEED_SLOT] + if mounted then mountSpeed else 0;
    }

    /** When all conditions have ended, nothing of them is left. */
    lemma NothingLeft()
      requires Valid() && conditions == []
      ensures varSkills == equipment[..7] && varSpecialSkills == equipment[7..13] && varStats == equipment[13..17]
      ensures varSpeed == equipment[17] + if mounted then mountSpeed else 0
    {
      assert book == [];
      forall k | 0 <= k < SLOTS
        ensures Offsets()[k] == equipment[k] + if k == 17 && mounted then mountSpeed else 0
      {
        assert Offsets()[k] == Unconditioned(k) + TotalAt(book, k);
      }
      assert forall i :: 0 <= i < SKILLS ==> varSkills[i] == Offsets()[i];
      assert forall i :: 0 <= i < SPECIAL_SKILLS ==> varSpecialSkills[i] == Offsets()[7 + i];
      assert forall i :: 0 <= i < STATS ==> varStats[i] == Offsets()[13 + i];
      assert varSpeed == Offsets()[17];
    }

    /** The loop of `setVarSkill` and its like, over one family of slots: zeros are skipped. */
    static method AddEach(offsets: seq<int>, values: seq<int>, sign: int) returns (r: seq<int>)
      requires |offsets| == |values|
      ensures |r| == |offsets| && forall i :: 0 <= i < |r| ==> r[i] == offsets[i] + sign * values[i]
    {
      r := offsets;
      for i := 0 to |values|
        invariant |r| == |offsets|
        invariant forall k :: 0 <= k < i ==> r[k] == offsets[k] + sign * values[k]
        invariant forall k :: i <= k < |r| ==> r[k] == offsets[k]
      {
        if values[i] != 0 {
          r := r[i := r[i] + sign * values[i]];
        }
      }
    }

    /** The two loops of `updateSkills` (`sign` 1), and their undoing in `endCondition` (-1). */
    method UpdateSkills(c: Condition, sign: int)
      modifies this`varSkills, this`varSpecialSkills
      ensures forall i :: 0 <= i < SKILLS ==> varSkills[i] == old(varSkills[i]) + sign * c.skills[i]
      ensures forall i :: 0 <= i < SPECIAL_SKILLS ==> varSpecialSkills[i] == old(varSpecialSkills[i]) + sign * c.specialSkills[i]
    {
      varSkills := AddEach(varSkills, c.skills, sign);
      varSpecialSkills := AddEach(varSpecialSkills, c.specialSkills, sign);
    }

    /** `updateStats`, and its undoing. */
    method UpdateStats(c: Condition, sign: int)
      modifies this`varStats
      ensures forall i :: 0 <= i < STATS ==> varStats[i] == old(varStats[i]) + sign * c.stats[i]
    {
      varStats := AddEach(varStats, c.stats, sign);
    }

    /** The percent slots worked out from the player, then everything added. */
    method ApplyAttributes(c: Condition)
      requires KindOf(c.ctype) == Attributes
      modifies c`skills, c`stats, this`varSkills, this`varSpecialSkills, this`varStats
      ensures c.Takes(old(c.skills), old(c.specialSkills), old(c.stats))
      ensures isPlayer ==>
                && (forall i :: 0 <= i < SKILLS ==> varSkills[i] == old(varSkills[i]) + c.skills[i])
                && (forall i :: 0 <= i < SPECIAL_SKILLS ==> varSpecialSkills[i] == old(varSpecialSkills[i]) + c.specialSkills[i])
                && (forall i :: 0 <= i < STATS ==> varStats[i] == old(varStats[i]) + c.stats[i])
      ensures !isPlayer ==>
                varSkills == old(varSkills) && varSpecialSkills == old(varSpecialSkills) && varStats == old(varStats)
      ensures forall k :: 0 <= k < SLOTS ==> Offsets()[k] == old(Offsets())[k] + c.Added(isPlayer)[k]
    {
      if isPlayer {
        c.skills := Condition.UpdatePercent(c.skills, c.skillsPercent);
        UpdateSkills(c, 1);
        c.stats := Condition.UpdatePercent(c.stats, c.statsPercent);
        UpdateStats(c, 1);
      }
    }

    /** `startCondition`; one of another kind may refuse, and a damage condition may draw its portions. */
    method StartCondition(c: Condition, now: int) returns (ok: bool)
      modifies c`skills, c`stats, c`speedDelta, c`ticks, c`endTime, c`pain, this`varSkills, this`varSpecialSkills, this`varStats, this`varSpeed
      ensures c.Takes(old(c.skills), old(c.specialSkills), old(c.stats))
      ensures old(c.speedDelta) != 0 ==> c.speedDelta == old(c.speedDelta)
      ensures KindOf(c.ctype) != Damage ==>
                c.pain == old(c.pain) && c.ticks == old(c.ticks) && c.endTime == if c.ticks > 0 then c.ticks + now else old(c.endTime)
      ensures OnlyTimed(c.ctype) ==> ok
      ensures ok ==> forall k :: 0 <= k < SLOTS ==> Offsets()[k] == old(Offsets())[k] + c.Added(isPlayer)[k]
      ensures !ok ==> Offsets() == old(Offsets())
      ensures c.ctype in {CONDITION_HASTE, CONDITION_PARALYZE} ==>
                varSpeed == old(varSpeed) + c.speedDelta && varSkills == old(varSkills)
                && varSpecialSkills == old(varSpecialSkills) && varStats == old(varStats)
      ensures c.ctype == CONDITION_ATTRIBUTES && isPlayer ==>
                varSpeed == old(varSpeed)
                && (forall i :: 0 <= i < SKILLS ==> varSkills[i] == old(varSkills[i]) + c.skills[i])
                && (forall i :: 0 <= i < SPECIAL_SKILLS ==> varSpecialSkills[i] == old(varSpecialSkills[i]) + c.specialSkills[i])
                && (forall i :: 0 <= i < STATS ==> varStats[i] == old(varStats[i]) + c.stats[i])
      ensures c.ctype !in {CONDITION_HASTE, CONDITION_PARALYZE} && !(c.ctype == CONDITION_ATTRIBUTES && isPlayer) ==>
                varSpeed == old(varSpeed) && varSkills == old(varSkills)
                && varSpecialSkills == old(varSpecialSkills) && varStats == old(varStats)
    {
      ok := true;
      c.StartTimer(now);
      match KindOf(c.ctype)
      case Attributes => ApplyAttributes(c);
      case Speed =>
        if c.speedDelta == 0 {
          c.speedDelta := *;
        }
        varSpeed := varSpeed + c.speedDelta;
      case Drunk =>
      case Damage =>
        c.ticks, c.endTime, c.pain := *, *, *;
        ok := *;
      case Other => ok := *;
    }

    /** `endCondition`: what was added is taken back. */
    method EndCondition(c: Condition)
      modifies this`varSkills, this`varSpecialSkills, this`varStats, this`varSpeed
      ensures forall k :: 0 <= k < SLOTS ==> Offsets()[k] == old(Offsets())[k] - c.Added(isPlayer)[k]
      ensures c.ctype in {CONDITION_HASTE, CONDITION_PARALYZE} ==>
                varSpeed == old(varSpeed) - c.speedDelta && varSkills == old(varSkills)
                && varSpecialSkills == old(varSpecialSkills) && varStats == old(varStats)
      ensures c.ctype == CONDITION_ATTRIBUTES && isPlayer ==>
                varSpeed == old(varSpeed)
                && (forall i :: 0 <= i < SKILLS ==> varSkills[i] == old(varSkills[i]) - c.skills[i])
                && (forall i :: 0 <= i < SPECIAL_SKILLS ==> varSpecialSkills[i] == old(varSpecialSkills[i]) - c.specialSkills[i])
                && (forall i :: 0 <= i < STATS ==> varStats[i] == old(varStats[i]) - c.stats[i])
      ensures c.ctype !in {CONDITION_HASTE, CONDITION_PARALYZE} && !(c.ctype == CONDITION_ATTRIBUTES && isPlayer) ==>
                varSpeed == old(varSpeed) && varSkills == old(varSkills)
                && varSpecialSkills == old(varSpecialSkills) && varStats == old(varStats)
    {
      match KindOf(c.ctype)
      case Attributes =>
        if isPlayer {
          UpdateSkills(c, -1);
          UpdateStats(c, -1);
        }
      case Speed => varSpeed := varSpeed - c.speedDelta;
      case _ =>
    }

    /** `addCondition` of the condition that is already active: it takes over what `that` says. */
    method Refresh(c: Condition, that: Condition, now: int)
      requires c != that && c.ctype == that.ctype
      modifies c, this`varSkills, this`varSpecialSkills, this`varStats, this`varSpeed
      ensures forall k :: 0 <= k < SLOTS ==>
                Offsets()[k] == old(Offsets())[k] - old(c.Added(isPlayer))[k] + c.Added(isPlayer)[k]
      ensures old(!c.Accepts(that, now)) ==> unchanged(c)
      ensures old(c.Accepts(that, now)) ==> c.RefreshedBy(that, now)
      ensures c.drunkenness == old(c.drunkenness) && c.pain.delayed == old(c.pain.delayed) && c.pain.forced == old(c.pain.forced)
      ensures Settles(c.ctype, old(c.Now()), c.Now(), that.Now(), now)
    {
      match KindOf(c.ctype)
      case Attributes => RefreshAttributes(c, that, now);
      case Speed => RefreshSpeed(c, that, now);
      case Damage => RefreshDamage(c, that, now);
      case Drunk =>
        // the stronger drunkenness goes to the creature, the condition keeps its own
        if that.drunkenness > c.drunkenness {
          c.SetTicks(that.ticks, now);
        }
      case Other =>
        if c.MayUpdate(that, now) {
          c.SetTicks(that.ticks, now);
          c.values := that.values;
        }
    }

    /** `ConditionAttributes::addCondition`. */
    method RefreshAttributes(c: Condition, that: Condition, now: int)
      requires c != that && c.ctype == that.ctype && KindOf(c.ctype) == Attributes
      modifies c`ticks, c`endTime, c`skills, c`specialSkills, c`skillsPercent, c`stats, c`statsPercent
      modifies this`varSkills, this`varSpecialSkills, this`varStats, this`varSpeed
      ensures forall k :: 0 <= k < SLOTS ==>
                Offsets()[k] == old(Offsets())[k] - old(c.Added(isPlayer))[k] + c.Added(isPlayer)[k]
      ensures old(!c.Accepts(that, now)) ==> unchanged(c)
      ensures old(c.Accepts(that, now)) ==> c.RefreshedBy(that, now)
      ensures Settles(c.ctype, old(c.Now()), c.Now(), that.Now(), now)
    {
      if c.MayUpdate(that, now) {
        c.SetTicks(that.ticks, now);
        EndCondition(c);
        c.skills, c.specialSkills, c.skillsPercent := that.skills, that.specialSkills, that.skillsPercent;
        c.stats, c.statsPercent := that.stats, that.statsPercent;
        ApplyAttributes(c);
      }
    }

    /** `ConditionSpeed::addCondition`. */
    method RefreshSpeed(c: Condition, that: Condition, now: int)
      requires c != that && c.ctype == that.ctype && KindOf(c.ctype) == Speed
      modifies c`ticks, c`endTime, c`speedDelta, this`varSpeed
      ensures forall k :: 0 <= k < SLOTS ==>
                Offsets()[k] == old(Offsets())[k] - old(c.Added(isPlayer))[k] + c.Added(isPlayer)[k]
      ensures old(!c.Accepts(that, now)) ==> unchanged(c)
      ensures old(c.Accepts(that, now)) ==> c.RefreshedBy(that, now)
      ensures Settles(c.ctype, old(c.Now()), c.Now(), that.Now(), now)
    {
      if c.ticks == -1 && that.ticks > 0 { return; }
      c.SetTicks(that.ticks, now);
      var oldSpeedDelta := c.speedDelta;
      c.speedDelta := that.speedDelta;
      if c.speedDelta == 0 {
        c.speedDelta := *;
      }
      var newSpeedChange := c.speedDelta - oldSpeedDelta;
      if newSpeedChange != 0 {
        varSpeed := varSpeed + newSpeedChange;
      }
    }

    /** `ConditionDamage::addCondition`. */
    method RefreshDamage(c: Condition, that: Condition, now: int)
      requires c != that && c.ctype == that.ctype && KindOf(c.ctype) == Damage
      modifies c`ticks, c`endTime, c`pain
      ensures !old(c.Accepts(that, now)) ==> c.ticks == old(c.ticks) && c.endTime == old(c.endTime) && c.pain == old(c.pain)
      ensures old(c.Accepts(that, now)) ==> c.RefreshedBy(that, now)
      ensures Settles(c.ctype, old(c.Now()), c.Now(), that.Now(), now)
      ensures c.pain.delayed == old(c.pain.delayed) && c.pain.forced == old(c.pain.forced)
    {
      if !that.pain.forced && ((c.ticks == -1 && that.ticks > 0) || TotalDamage(that.pain) <= TotalDamage(c.pain)) { return; }
      c.SetTicks(that.ticks, now);
      c.pain := that.pain.(delayed := c.pain.delayed, forced := c.pain.forced);
      if c.pain.period == 0 && c.pain.list == [] {
        var ticks: int, endTime: int, list: seq<int> := *, *, *;
        c.ticks, c.endTime, c.pain := ticks, endTime, c.pain.(list := list);
      }
      c.pain := c.pain.(list := AfterFirst(c.pain, c.ticks));
    }

    /** `getCondition(type, id, subId)`: where it is, or -1. */
    method GetCondition(c: Condition) returns (index: int)
      ensures -1 <= index < |conditions| && (index >= 0 ==> conditions[index].SameKey(c))
      ensures index < 0 ==> forall i :: 0 <= i < |conditions| ==> !conditions[i].SameKey(c)
      ensures index >= 0 <==> exists x :: x in conditions && x.ctype == c.ctype && x.id == c.id && x.subId == c.subId
    {
      for i := 0 to |conditions|
        invariant forall k :: 0 <= k < i ==> !conditions[k].SameKey(c)
      {
        if conditions[i].SameKey(c) { return i; }
      }
      index := -1;
    }

    method RefreshAt(at: nat, that: Condition, now: int)
      requires Valid() && at < |conditions| && that !in conditions && conditions[at].ctype == that.ctype
      modifies this`varSkills, this`varSpecialSkills, this`varStats, this`varSpeed, this`book, conditions[at]
      ensures Valid()
      ensures old(conditions[at].Accepts(that, now)) ==> conditions[at].RefreshedBy(that, now)
      ensures !old(conditions[at].Accepts(that, now)) ==> unchanged(conditions[at])
      ensures Settles(that.ctype, old(conditions[at].Now()), conditions[at].Now(), that.Now(), now)
    {
      hide Condition.RefreshedBy;
      hide Condition.Accepts;
      hide TotalAt;
      hide KindOf;
      hide OnlyTimed;
      hide RowOf;
      hide Condition.Added;
      var c := conditions[at];
      ghost var was := Offsets();
      assert forall i :: 0 <= i < |conditions| && i != at ==> conditions[i] != c;
      Refresh(c, that, now);
      assert forall i :: 0 <= i < |conditions| && i != at ==> conditions[i].Added(isPlayer) == book[i];
      forall k | 0 <= k < SLOTS ensures Offsets()[k] == Unconditioned(k) + TotalAt(book[at := c.Added(isPlayer)], k) {
        TotalUpdate(book, at, c.Added(isPlayer), k);
        assert was[k] == Unconditioned(k) + TotalAt(book, k);
      }
      book := book[at := c.Added(isPlayer)];
      assert Kept();
    }

    /** Takes one condition off the list and ends it. */
    method EndAt(at: nat)
      requires Valid() && at < |conditions|
      modifies `conditions, `book, `varSkills, `varSpecialSkills, `varStats, `varSpeed
      ensures Valid() && conditions == RemoveAt(old(conditions), at)
    {
      hide TotalAt;
      hide KindOf;
      hide OnlyTimed;
      hide RowOf;
      hide Condition.Added;
      ghost var was := Offsets();
      var c := conditions[at];
      conditions := RemoveAt(conditions, at);
      EndCondition(c);
      forall k | 0 <= k < SLOTS ensures Offsets()[k] == Unconditioned(k) + TotalAt(RemoveAt(book, at), k) {
        TotalRemove(book, at, k);
        assert was[k] == Unconditioned(k) + TotalAt(book, k);
      }
      book := RemoveAt(book, at);
    }

    /** The places of the list that a removal by type, or by type and id, is after. */
    static predicate Matches(c: Condition, ctype: nat, anyId: bool, id: int) {
      c.ctype == ctype && (anyId || c.id == id)
    }

    static function Without(cs: seq<Condition>, ctype: nat, anyId: bool, id: int): seq<Condition> {
      if cs == [] then [] else
        (if Matches(cs[0], ctype, anyId, id) then [] else [cs[0]]) + Without(cs[1..], ctype, anyId, id)
    }

    /** `removeCondition` by type (`anyId`), or by type and id. */
    method RemoveCondition(ctype: nat, anyId: bool, id: int, force: bool, walkDelay: int)
      requires Valid()
      modifies `conditions, `book, `varSkills, `varSpecialSkills, `varStats, `varSpeed
      ensures Valid()
      ensures conditions == if !force && ctype == CONDITION_PARALYZE && walkDelay > 0 then old(conditions)
                            else Without(old(conditions), ctype, anyId, id)
      ensures force || ctype != CONDITION_PARALYZE || walkDelay <= 0 ==>
                forall x :: x in conditions <==> x in old(conditions) && !(x.ctype == ctype && (anyId || x.id == id))
    {
      hide Valid;
      hide RemoveAt;
      hide Without;
      hide Matches;
      var it := 0;
      WithoutSplit(conditions, 0, ctype, anyId, id);
      while it < |conditions|
        invariant it <= |conditions| && Valid()
        invariant conditions[..it] + Without(conditions[it..], ctype, anyId, id) == Without(old(conditions), ctype, anyId, id)
        invariant !force && ctype == CONDITION_PARALYZE && walkDelay > 0 ==> conditions == old(conditions)
        decreases |conditions| - it
      {
        WithoutSplit(conditions, it, ctype, anyId, id);
        if !Matches(conditions[it], ctype, anyId, id) {
          it := it + 1;
          continue;
        }
        if !force && ctype == CONDITION_PARALYZE && walkDelay > 0 { return; }
        EndAt(it);
      }
      WithoutSplit(conditions, it, ctype, anyId, id);
      WithoutIsIn(old(conditions), ctype, anyId, id);
    }

    /** The list with what is to be removed from place `at` on left out, one place at a time. */
    static lemma WithoutSplit(cs: seq<Condition>, at: nat, ctype: nat, anyId: bool, id: int)
      requires at <= |cs|
      ensures at == 0 ==> cs[..at] + Without(cs[at..], ctype, anyId, id) == Without(cs, ctype, anyId, id)
      ensures at == |cs| ==> cs[..at] + Without(cs[at..], ctype, anyId, id) == cs
      ensures at < |cs| && !Matches(cs[at], ctype, anyId, id) ==>
                cs[..at + 1] + Without(cs[at + 1..], ctype, anyId, id) == cs[..at] + Without(cs[at..], ctype, anyId, id)
      ensures at < |cs| && Matches(cs[at], ctype, anyId, id) ==>
                var rest := RemoveAt(cs, at);
                at <= |rest| && |rest| < |cs|
                && rest[..at] + Without(rest[at..], ctype, anyId, id) == cs[..at] + Without(cs[at..], ctype, anyId, id)
    {
      if at == 0 { assert cs[0..] == cs; }
      if at < |cs| {
        assert cs[at..][1..] == cs[at + 1..];
        var more := Without(cs[at + 1..], ctype, anyId, id);
        assert cs[..at + 1] + more == cs[..at] + ([cs[at]] + more);
        var rest := RemoveAt(cs, at);
        assert rest[at..] == cs[at + 1..] && rest[..at] == cs[..at];
        assert [] + more == more;
      }
    }

    /** An active condition of a type that equipment does not suppress: what `hasCondition` is after. */
    ghost predicate Has(ctype: nat, suppressed: set<nat>, now: int)
      reads this`conditions, conditions
    {
      ctype !in suppressed
      && exists i :: 0 <= i < |conditions| && conditions[i].ctype == ctype && conditions[i].subId == 0 && conditions[i].Lasts(now)
    }

    lemma HasMeans(ctype: nat, suppressed: set<nat>, now: int)
      ensures Has(ctype, suppressed, now) <==>
              ctype !in suppressed && exists x :: x in conditions && x.ctype == ctype && x.subId == 0
                                                  && (x.ticks == -1 || x.endTime >= now)
    {
      if exists x :: x in conditions && x.ctype == ctype && x.subId == 0 && (x.ticks == -1 || x.endTime >= now) {
        var x :| x in conditions && x.ctype == ctype && x.subId == 0 && (x.ticks == -1 || x.endTime >= now);
        var i :| 0 <= i < |conditions| && conditions[i] == x;
        assert conditions[i].Lasts(now);
      }
    }

    /** `hasCondition`. */
    method HasCondition(ctype: nat, suppressed: set<nat>, now: int) returns (r: bool)
      ensures r == Has(ctype, suppressed, now)
      ensures r <==> ctype !in suppressed && exists x :: x in conditions && x.ctype == ctype && x.subId == 0
                                                         && (x.ticks == -1 || x.endTime >= now)
    {
      HasMeans(ctype, suppressed, now);
      if ctype in suppressed { return false; }
      for i := 0 to |conditions|
        invariant forall k :: 0 <= k < i ==> !(conditions[k].ctype == ctype && conditions[k].subId == 0 && conditions[k].Lasts(now))
      {
        if conditions[i].ctype == ctype && conditions[i].subId == 0 && conditions[i].Lasts(now) { return true; }
      }
      r := false;
    }

    /** Does a new condition drive out the one that is opposite to it? It does so on no monster, and a paralysis
        stays while the creature has to wait for its next step. */
    ghost predicate DrivesOut(ctype: nat, suppressed: set<nat>, walkDelay: int, now: int)
      reads this`conditions, conditions
    {
      && !kind.Monster?
      && (ctype == CONDITION_HASTE || ctype == CONDITION_PARALYZE) && Has(Opposite(ctype), suppressed, now)
      && (ctype == CONDITION_HASTE ==> walkDelay <= 0)
    }

    /** The list behind `onAddCondition`. */
    static function Joined(cs: seq<Condition>, ctype: nat, drivesOut: bool): seq<Condition> {
      if drivesOut then Without(cs, Opposite(ctype), true, 0) else cs
    }

    static ghost predicate AnyOf(cs: seq<Condition>, ctype: nat) {
      exists x :: x in cs && x.ctype == ctype
    }

    /** Beside a haste or a paralysis that has been added, one of the opposite type is left exactly if there was one
        and it was not driven out. What was added stays. */
    static lemma BesideIff(cs: seq<Condition>, c: Condition, drivesOut: bool)
      requires c.ctype == CONDITION_HASTE || c.ctype == CONDITION_PARALYZE
      ensures var joined, other := Joined(cs + [c], c.ctype, drivesOut), Opposite(c.ctype);
              && c in joined
              && (AnyOf(joined, other) <==> AnyOf(cs, other) && !drivesOut)
    {
      var joined, other := Joined(cs + [c], c.ctype, drivesOut), Opposite(c.ctype);
      assert c in cs + [c];
      WithoutIsIn(cs + [c], other, true, 0);
      if drivesOut {
        assert !AnyOf(joined, other);
      } else if AnyOf(cs, other) {
        var x :| x in cs && x.ctype == other;
        assert x in joined;
      }
    }

    /** `Creature::onAddCondition`, as players extend it and monsters replace it. */
    method OnAddCondition(ctype: nat, suppressed: set<nat>, walkDelay: int, now: int)
      requires Valid()
      modifies `conditions, `book, `varSkills, `varSpecialSkills, `varStats, `varSpeed, `mounted
      ensures Valid()
      ensures conditions == Joined(old(conditions), ctype, old(DrivesOut(ctype, suppressed, walkDelay, now)))
      ensures mounted == (old(mounted) && !(isPlayer && ctype == CONDITION_OUTFIT))
    {
      hide Valid;
      if kind.Monster? { return; }
      var hasted := HasCondition(CONDITION_HASTE, suppressed, now);
      var paralyzed := HasCondition(CONDITION_PARALYZE, suppressed, now);
      if ctype == CONDITION_PARALYZE && hasted {
        RemoveCondition(CONDITION_HASTE, true, 0, false, walkDelay);
      } else if ctype == CONDITION_HASTE && paralyzed {
        RemoveCondition(CONDITION_PARALYZE, true, 0, false, walkDelay);
      }
      if isPlayer && ctype == CONDITION_OUTFIT && mounted {
        Dismount();
      }
    }

    /** `dismount`. */
    method Dismount()
      requires Valid() && mounted
      modifies `varSpeed, `mounted
      ensures Valid() && !mounted && varSpeed == old(varSpeed) - mountSpeed
    {
      hide TotalAt;
      if mountSpeed > 0 {
        varSpeed := varSpeed - mountSpeed;
      }
      mounted := false;
    }

    static lemma JoinedIsIn(cs: seq<Condition>, ctype: nat, drivesOut: bool)
      ensures forall x :: x in Joined(cs, ctype, drivesOut) ==> x in cs
    {
      if drivesOut {
        forall x | x in Joined(cs, ctype, drivesOut) ensures x in cs { WithoutHas(cs, x, Opposite(ctype), true, 0); }
      }
    }

    /** A condition that starts goes to the end of the list. */
    method Push(c: Condition, now: int) returns (ok: bool)
      requires Valid() && c !in conditions && forall i :: 0 <= i < |conditions| ==> !conditions[i].SameKey(c)
      modifies `conditions, `book, `varSkills, `varSpecialSkills, `varStats, `varSpeed, c
      ensures Valid() && conditions == if ok then old(conditions) + [c] else old(conditions)
      ensures OnlyTimed(c.ctype) ==> ok && c.Started(old(c.ticks), old(c.endTime), now)
      ensures old(c.speedDelta) != 0 ==> c.speedDelta == old(c.speedDelta)
    {
      hide TotalAt;
      hide KindOf;
      hide Condition.Added;
      hide RowOf;
      ghost var was := Offsets();
      ok := StartCondition(c, now);
      if ok {
        forall k | 0 <= k < SLOTS ensures Offsets()[k] == Unconditioned(k) + TotalAt(book + [c.Added(isPlayer)], k) {
          TotalPush(book, c.Added(isPlayer), k);
          assert was[k] == Unconditioned(k) + TotalAt(book, k);
        }
        book := book + [c.Added(isPlayer)];
        conditions := conditions + [c];
      }
    }

    /** The end of `addCondition`: a condition that starts joins the list, and may drive out its opposite. */
    method StartAndPush(c: Condition, suppressed: set<nat>, walkDelay: int, now: int) returns (ok: bool)
      requires Valid() && c !in conditions && forall i :: 0 <= i < |conditions| ==> !conditions[i].SameKey(c)
      modifies `conditions, `book, `varSkills, `varSpecialSkills, `varStats, `varSpeed, `mounted, c
      ensures Valid()
      ensures conditions ==
              if ok then Joined(old(conditions) + [c], c.ctype, old(DrivesOut(c.ctype, suppressed, walkDelay, now)))
              else old(conditions)
      ensures mounted == (old(mounted) && !(ok && isPlayer && c.ctype == CONDITION_OUTFIT))
      ensures ok && (kind.Monster? || c.ctype !in {CONDITION_HASTE, CONDITION_PARALYZE}) ==> conditions == old(conditions) + [c]
      ensures c.ctype == CONDITION_PARALYZE && !kind.Monster? && CONDITION_HASTE !in suppressed
              && old(exists x :: x in conditions && x.ctype == CONDITION_HASTE && x.subId == 0 && (x.ticks == -1 || x.endTime >= now)) ==>
                forall x :: x in conditions <==> x == c || (x in old(conditions) && x.ctype != CONDITION_HASTE)
      ensures c.ctype == CONDITION_HASTE && !kind.Monster? && CONDITION_PARALYZE !in suppressed && walkDelay <= 0
              && old(exists x :: x in conditions && x.ctype == CONDITION_PARALYZE && x.subId == 0 && (x.ticks == -1 || x.endTime >= now)) ==>
                forall x :: x in conditions <==> x == c || (x in old(conditions) && x.ctype != CONDITION_PARALYZE)
      ensures OnlyTimed(c.ctype) ==> ok && c.Started(old(c.ticks), old(c.endTime), now)
      ensures old(c.speedDelta) != 0 ==> c.speedDelta == old(c.speedDelta)
    {
      hide Valid;
      hide Condition.Started;
      hide Condition.Lasts;
      HasMeans(CONDITION_HASTE, suppressed, now);
      HasMeans(CONDITION_PARALYZE, suppressed, now);
      ghost var was, drivesOut := conditions, DrivesOut(c.ctype, suppressed, walkDelay, now);
      ghost var running := set x | x in was && x.Lasts(now);
      ok := Push(c, now);
      if ok {
        assert forall x :: x in was ==> (x.Lasts(now) <==> x in running);
        assert drivesOut == DrivesOut(c.ctype, suppressed, walkDelay, now) by {
          assert forall i :: 0 <= i < |was| ==> conditions[i] == was[i] && was[i] in was;
        }
        OnAddCondition(c.ctype, suppressed, walkDelay, now);
        forall x: Condition ensures x in Without(was + [c], Opposite(c.ctype), true, 0) <==> x in was + [c] && x.ctype != Opposite(c.ctype) {
          WithoutHas(was + [c], x, Opposite(c.ctype), true, 0);
        }
      }
    }

    /** `addCondition`. `walkDelay` is the time to the next step before, and `delayAfter` the one when the condition
        has started; `suppressed` is what equipment suppresses. */
    method AddCondition(c: Condition?, force: bool, suppressed: set<nat>, walkDelay: int, delayAfter: int, now: int) returns (ok: bool)
      requires Valid() && c !in conditions
      modifies `conditions, `book, `varSkills, `varSpecialSkills, `varStats, `varSpeed, `mounted, conditions, c
      ensures Valid()
      ensures c == null || (!force && c.ctype == CONDITION_HASTE && old(Has(CONDITION_PARALYZE, suppressed, now)) && walkDelay > 0) ==>
                !ok && conditions == old(conditions) && Offsets() == old(Offsets()) && mounted == old(mounted)
                && forall x :: x in conditions ==> unchanged(x)
      ensures c != null && !(!force && c.ctype == CONDITION_HASTE && old(Has(CONDITION_PARALYZE, suppressed, now)) && walkDelay > 0) ==>
                if exists i :: 0 <= i < |old(conditions)| && old(conditions)[i].SameKey(c) then
                  ok && conditions == old(conditions) && mounted == old(mounted) && unchanged(c)
                else if ok then
                  && conditions == Joined(old(conditions) + [c], c.ctype, old(DrivesOut(c.ctype, suppressed, delayAfter, now)))
                  && mounted == (old(mounted) && !(isPlayer && c.ctype == CONDITION_OUTFIT))
                else !OnlyTimed(c.ctype) && conditions == old(conditions) && mounted == old(mounted)
      ensures c != null && c in conditions && OnlyTimed(c.ctype) ==> c.Started(old(c.ticks), old(c.endTime), now)
      ensures c != null && old(c.speedDelta) != 0 ==> c.speedDelta == old(c.speedDelta)
      ensures c != null && !(!force && c.ctype == CONDITION_HASTE && old(Has(CONDITION_PARALYZE, suppressed, now)) && walkDelay > 0) ==>
                forall x :: x in old(conditions) && x in conditions ==>
                              if x.SameKey(c) && old(x.Accepts(c, now)) then x.RefreshedBy(c, now) else unchanged(x)
      ensures c != null && !(!force && c.ctype == CONDITION_HASTE && old(Has(CONDITION_PARALYZE, suppressed, now)) && walkDelay > 0) ==>
                forall x :: x in old(conditions) && x in conditions ==>
                              if x.ctype == c.ctype && x.id == c.id && x.subId == c.subId then
                                Settles(c.ctype, old(x.Now()), x.Now(), c.Now(), now)
                              else unchanged(x)
    {
      hide Condition.RefreshedBy;
      hide Settles;
      hide Has;
      hide Joined;
      hide Condition.Accepts;
      hide Condition.Started;
      hide Condition.Lasts;
      hide Kept;
      hide Balanced;
      hide DrivesOut;
      if c == null { return false; }
      ghost var was, drivesOut := conditions, DrivesOut(c.ctype, suppressed, delayAfter, now);
      var paralyzed := HasCondition(CONDITION_PARALYZE, suppressed, now);
      if !force && c.ctype == CONDITION_HASTE && paralyzed && walkDelay > 0 { return false; }
      var index := GetCondition(c);
      if index >= 0 {
        RefreshAt(index, c, now);
        return true;
      }
      ok := StartAndPush(c, suppressed, delayAfter, now);
      JoinedIsIn(was + [c], c.ctype, drivesOut);
    }

    /** `removeCondition` of one condition. */
    method RemoveThis(c: Condition, force: bool, walkDelay: int)
      requires Valid()
      modifies this
      ensures Valid()
      ensures c !in old(conditions) || (!force && c.ctype == CONDITION_PARALYZE && walkDelay > 0) ==>
                conditions == old(conditions)
      ensures forall i :: 0 <= i < |old(conditions)| && old(conditions)[i] == c
                          && !(!force && c.ctype == CONDITION_PARALYZE && walkDelay > 0) ==>
                            conditions == RemoveAt(old(conditions), i)
    {
      var index := Find(c);
      if index < 0 { return; }
      if !force && c.ctype == CONDITION_PARALYZE && walkDelay > 0 { return; }
      EndAt(index);
    }

    /** `find_if` by address. */
    method Find(c: Condition) returns (index: int)
      ensures -1 <= index < |conditions|
      ensures if index >= 0 then conditions[index] == c else c !in conditions
    {
      for i := 0 to |conditions|
        invariant c !in conditions[..i]
      {
        if conditions[i] == c { return i; }
      }
      index := -1;
    }

    /** `executeCondition`: time passes; one of another kind may also add and remove conditions, its own
        included, and may come to its end at once. */
    method Execute(c: Condition, interval: int, now: int) returns (goesOn: bool)
      requires Valid() && c in conditions
      modifies this, conditions
      ensures Valid()
      ensures forall k :: 0 <= k < |conditions| ==> conditions[k] in old(conditions) || fresh(conditions[k])
      ensures OnlyTimed(c.ctype) ==> goesOn == (old(c.ticks) == -1 || old(c.endTime) >= now)
      ensures OnlyTimed(c.ctype) ==>
                goesOn == old(c.Lasts(now)) && conditions == old(conditions) && Offsets() == old(Offsets())
                && forall x :: x in conditions && x != c ==> x.Lasts(now) == old(x.Lasts(now))
    {
      if !OnlyTimed(c.ctype) {
        var n: nat := *;
        c.ticks, c.endTime, c.pain := *, *, *;
        Disturb(n, now);
        goesOn := *;
      } else if c.ticks == -1 {
        goesOn := true;
      } else {
        c.ticks := if c.ticks - interval > 0 then c.ticks - interval else 0;
        goesOn := c.endTime >= now;
      }
    }

    /** Any number of additions and removals, of any conditions. */
    method Disturb(n: nat, now: int)
      requires Valid()
      modifies this, conditions
      ensures Valid()
      ensures forall k :: 0 <= k < |conditions| ==> conditions[k] in old(conditions) || fresh(conditions[k])
    {
      for i := 0 to n
        invariant Valid()
        invariant forall k :: 0 <= k < |conditions| ==> conditions[k] in old(conditions) || fresh(conditions[k])
      {
        var add: bool := *;
        if add { DisturbByAdding(now); } else { DisturbByRemoving(); }
      }
    }

    method DisturbByAdding(now: int)
      requires Valid()
      modifies this, conditions
      ensures Valid()
      ensures forall k :: 0 <= k < |conditions| ==> conditions[k] in old(conditions) || fresh(conditions[k])
    {
      var ctype: nat, id: int, subId: nat, ticks: int, skills: Skills, skillsPercent: Skills := *, *, *, *, *, *;
      var specialSkills: SpecialSkills, stats: Stats, statsPercent: Stats, speedDelta: int := *, *, *, *;
      var pain: Pain, drunkenness: nat, values: seq<int> := *, *, *;
      var c := new Condition(ctype, id, subId, ticks, skills, skillsPercent, specialSkills, stats, statsPercent, speedDelta,
                             pain, drunkenness, values);
      var force: bool, suppressed: set<nat>, walkDelay: int, delayAfter: int := *, *, *, *;
      ghost var was := conditions;
      JoinedIsIn(was + [c], ctype, DrivesOut(ctype, suppressed, delayAfter, now));
      hide Joined;
      hide DrivesOut;
      hide Condition.RefreshedBy;
      hide Condition.Accepts;
      var _ := AddCondition(c, force, suppressed, walkDelay, delayAfter, now);
      assert forall x :: x in conditions ==> x in was || x == c;
    }

    method DisturbByRemoving()
      requires Valid()
      modifies this
      ensures Valid() && forall k :: 0 <= k < |conditions| ==> conditions[k] in old(conditions)
    {
      var ctype: nat, anyId: bool, id: int, force: bool, walkDelay: int := *, *, *, *, *;
      RemoveCondition(ctype, anyId, id, force, walkDelay);
      WithoutIsIn(old(conditions), ctype, anyId, id);
    }

    static lemma {:induction false} WithoutHas(cs: seq<Condition>, x: Condition, ctype: nat, anyId: bool, id: int)
      ensures x in Without(cs, ctype, anyId, id) <==> x in cs && !(x.ctype == ctype && (anyId || x.id == id))
    {
      if cs == [] {
      } else {
        WithoutHas(cs[1..], x, ctype, anyId, id);
        assert cs == [cs[0]] + cs[1..];
      }
    }

    static lemma WithoutIsIn(cs: seq<Condition>, ctype: nat, anyId: bool, id: int)
      ensures forall x :: x in Without(cs, ctype, anyId, id) <==> x in cs && !(x.ctype == ctype && (anyId || x.id == id))
    {
      forall x: Condition
        ensures x in Without(cs, ctype, anyId, id) <==> x in cs && !(x.ctype == ctype && (anyId || x.id == id))
      {
        WithoutHas(cs, x, ctype, anyId, id);
      }
    }

    /** One round of `executeConditions`: `c` is executed if it is still there, and ended if it is over. */
    method ExecuteOne(c: Condition, interval: int, now: int, ghost at: nat, ghost rest: seq<Condition>,
                      ghost alive: set<Condition>)
      requires Valid()
      modifies this, conditions
      ensures Valid()
      ensures forall k :: 0 <= k < |conditions| ==> conditions[k] in old(conditions) || fresh(conditions[k])
      ensures at < |old(conditions)| && old(conditions)[at] == c && OnlyTimed(c.ctype) ==>
                conditions == if old(c.Lasts(now)) then old(conditions) else RemoveAt(old(conditions), at)
      ensures (OnlyTimed(c.ctype) && Others(rest, old(conditions), c)
               && old(StillTimed(rest, alive, now))) ==> StillTimed(rest, alive, now)
    {
      hide Kept;
      hide Balanced;
      hide KindOf;
      hide OnlyTimed;
      var index := Find(c);
      if index < 0 { return; }
      var goesOn := Execute(c, interval, now);
      if !goesOn {
        index := Find(c);
        if index >= 0 {
          EndAt(index);
        }
      }
    }

    static ghost function Lasting(cs: seq<Condition>, alive: set<Condition>): seq<Condition> {
      if cs == [] then [] else
        Lasting(cs[..|cs| - 1], alive) + if cs[|cs| - 1] in alive then [cs[|cs| - 1]] else []
    }

    ghost function Alive(now: int): set<Condition>
      reads this`conditions, conditions
    {
      set c | c in conditions && c.Lasts(now)
    }

    static ghost predicate Others(rest: seq<Condition>, cs: seq<Condition>, c: Condition) {
      forall x :: x in rest ==> x in cs && x != c
    }

    /** One round, on the list: what lasts of the first `i`, and all from `i` on. */
    static lemma Round(cs: seq<Condition>, alive: set<Condition>, i: nat)
      requires i < |cs| && forall j, k :: 0 <= j < k < |cs| ==> cs[j] != cs[k]
      ensures var now, at := Lasting(cs[..i], alive) + cs[i..], |Lasting(cs[..i], alive)|;
              && at < |now| && now[at] == cs[i]
              && (if cs[i] in alive then now else RemoveAt(now, at)) == Lasting(cs[..i + 1], alive) + cs[i + 1..]
              && Others(cs[i + 1..], now, cs[i])
      ensures cs[i] in cs[i..] && forall x :: x in cs[i + 1..] ==> x in cs[i..]
    {
      var kept, rest := Lasting(cs[..i], alive), cs[i + 1..];
      assert cs[..i + 1][..i] == cs[..i];
      assert cs[i..] == [cs[i]] + rest;
      assert RemoveAt(kept + ([cs[i]] + rest), |kept|) == kept + rest;
      assert kept + ([cs[i]] + rest) == (kept + [cs[i]]) + rest;
    }

    /** How far `executeConditions` has come, where every condition only lets time pass. */
    ghost predicate Progress(cs: seq<Condition>, i: nat, alive: set<Condition>, now: int)
      requires i <= |cs|
      reads this`conditions, cs
    {
      conditions == Lasting(cs[..i], alive) + cs[i..] && StillTimed(cs[i..], alive, now)
    }

    method ExecuteRound(cs: seq<Condition>, i: nat, interval: int, now: int, ghost alive: set<Condition>)
      requires Valid() && i < |cs| && forall j, k :: 0 <= j < k < |cs| ==> cs[j] != cs[k]
      modifies this, conditions
      ensures Valid()
      ensures forall k :: 0 <= k < |conditions| ==> conditions[k] in old(conditions) || fresh(conditions[k])
      ensures OnlyTimed(cs[i].ctype) && old(Progress(cs, i, alive, now)) ==> Progress(cs, i + 1, alive, now)
    {
      hide RemoveAt;
      hide Lasting;
      hide KindOf;
      hide OnlyTimed;
      hide Others;
      hide Valid;
      ghost var on := OnlyTimed(cs[i].ctype) && Progress(cs, i, alive, now);
      Round(cs, alive, i);
      assert on ==> StillTimed(cs[i + 1..], alive, now) && (cs[i].Lasts(now) <==> cs[i] in alive);
      hide StillTimed;
      hide Condition.Lasts;
      ExecuteOne(cs[i], interval, now, |Lasting(cs[..i], alive)|, cs[i + 1..], alive);
    }

    /** `executeConditions`, over the list as it was at the start. Where no condition does more than let
        time pass, exactly those that have not run out remain, in order. */
    method ExecuteConditions(interval: int, now: int)
      requires Valid()
      modifies this, conditions
      ensures Valid()
      ensures forall k :: 0 <= k < |conditions| ==> conditions[k] in old(conditions) || fresh(conditions[k])
      ensures (forall c :: c in old(conditions) ==> OnlyTimed(c.ctype)) ==>
                conditions == Lasting(old(conditions), old(Alive(now)))
    {
      hide Lasting;
      hide KindOf;
      hide OnlyTimed;
      hide Valid;
      hide Progress;
      hide StillTimed;
      hide Alive;
      var snapshot := conditions;
      ghost var alive := Alive(now);
      ghost var quiet := forall c :: c in conditions ==> OnlyTimed(c.ctype);
      Beginning(now);
      for i := 0 to |snapshot|
        invariant Valid()
        invariant forall k :: 0 <= k < |conditions| ==> conditions[k] in old(conditions) || fresh(conditions[k])
        invariant quiet ==> Progress(snapshot, i, alive, now)
      {
        ExecuteRound(snapshot, i, interval, now, alive);
      }
      Ending(snapshot, alive, now);
    }

    lemma Beginning(now: int)
      requires Valid()
      ensures forall j, k :: 0 <= j < k < |conditions| ==> conditions[j] != conditions[k]
      ensures Progress(conditions, 0, Alive(now), now)
    {
      hide Kept;
      hide Balanced;
      assert conditions == Lasting(conditions[..0], Alive(now)) + conditions[0..];
    }

    lemma Ending(cs: seq<Condition>, alive: set<Condition>, now: int)
      ensures Progress(cs, |cs|, alive, now) ==> conditions == Lasting(cs, alive)
    {
      assert cs[..|cs|] == cs;
    }

    static ghost predicate StillTimed(cs: seq<Condition>, alive: set<Condition>, now: int)
      reads cs
    {
      forall x :: x in cs ==> (x.Lasts(now) <==> x in alive)
    }
  }

  method NewSpeed(ctype: nat, ticks: int, speedDelta: int) returns (c: Condition)
    requires ctype == CONDITION_HASTE || ctype == CONDITION_PARALYZE
    ensures fresh(c) && c.ctype == ctype && c.id == 0 && c.subId == 0 && c.ticks == ticks && c.speedDelta == speedDelta
  {
    var pain := Pain([], 0, 0, 0, false, false);
    c := new Condition(ctype, 0, 0, ticks, seq(SKILLS, i => 0), seq(SKILLS, i => 0), seq(SPECIAL_SKILLS, i => 0),
                       seq(STATS, i => 0), seq(STATS, i => 0), speedDelta, pain, 0, []);
  }

  /** A haste that has run out, and waits for the next round of conditions, is not driven out by a paralysis. */
  method StaleHasteStays() returns (creature: Creature, haste: Condition, paralysis: Condition)
    ensures fresh(creature) && fresh(haste) && fresh(paralysis)
    ensures creature.Valid() && creature.kind.Player? && creature.conditions == [haste, paralysis]
    ensures haste.ctype == CONDITION_HASTE && haste.id == 0 && haste.subId == 0 && haste.ticks == 1000
    ensures paralysis.ctype == CONDITION_PARALYZE && paralysis.subId == 0 && paralysis.Lasts(2000)
  {
    hide Creature.Valid;
    hide Creature.Without;
    hide Creature.Unconditioned;
    hide RowOf;
    creature := new Creature(Player, seq(SLOTS, i => 0), false, 0);
    haste := NewSpeed(CONDITION_HASTE, 1000, 50);
    var _ := creature.AddCondition(haste, false, {}, 0, 0, 0);
    assert creature.conditions == [haste] && haste.endTime == 1000;
    paralysis := NewSpeed(CONDITION_PARALYZE, 5000, -50);
    var _ := creature.AddCondition(paralysis, false, {}, 0, 0, 2000);
  }

  /** So haste and paralysis can run side by side: a new haste of the same key refreshes the one that has run out. */
  method StaleHasteReturns() returns (creature: Creature)
    ensures creature.Valid() && creature.kind.Player? && |creature.conditions| == 2
    ensures creature.Has(CONDITION_HASTE, {}, 2000) && creature.Has(CONDITION_PARALYZE, {}, 2000)
  {
    hide Creature.Valid;
    hide Creature.Joined;
    var haste, paralysis;
    creature, haste, paralysis := StaleHasteStays();
    var again := NewSpeed(CONDITION_HASTE, 4000, 50);
    assert creature.conditions[1] == paralysis && !paralysis.SameKey(again);
    assert creature.conditions[0] == haste && haste.SameKey(again) && haste.Accepts(again, 2000);
    var _ := creature.AddCondition(again, false, {}, 0, 0, 2000);
    assert creature.conditions == [haste, paralysis] && haste.RefreshedBy(again, 2000);
    assert creature.conditions[0].Lasts(2000) && creature.conditions[1].Lasts(2000);
  }
}
