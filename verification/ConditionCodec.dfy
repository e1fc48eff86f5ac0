/** Saving conditions as tagged values and reading them back (src/condition.cpp, src/fileloader.h,
    src/iologindata.cpp). */
module ConditionCodec {

  import opened Options
  import opened Bytes
  import opened Words

  // ---------------------------------------------------------------- conditions

  const CONDITIONATTR_TYPE: byte := 1
  const CONDITIONATTR_ID: byte := 2
  const CONDITIONATTR_TICKS: byte := 3
  const CONDITIONATTR_HEALTHTICKS: byte := 4
  const CONDITIONATTR_HEALTHGAIN: byte := 5
  const CONDITIONATTR_MANATICKS: byte := 6
  const CONDITIONATTR_MANAGAIN: byte := 7
  const CONDITIONATTR_DELAYED: byte := 8
  const CONDITIONATTR_OWNER: byte := 9
  const CONDITIONATTR_INTERVALDATA: byte := 10
  const CONDITIONATTR_SPEEDDELTA: byte := 11
  const CONDITIONATTR_FORMULA_MINA: byte := 12
  const CONDITIONATTR_FORMULA_MINB: byte := 13
  const CONDITIONATTR_FORMULA_MAXA: byte := 14
  const CONDITIONATTR_FORMULA_MAXB: byte := 15
  const CONDITIONATTR_LIGHTCOLOR: byte := 16
  const CONDITIONATTR_LIGHTLEVEL: byte := 17
  const CONDITIONATTR_LIGHTTICKS: byte := 18
  const CONDITIONATTR_LIGHTINTERVAL: byte := 19
  const CONDITIONATTR_SOULTICKS: byte := 20
  const CONDITIONATTR_SOULGAIN: byte := 21
  const CONDITIONATTR_SKILLS: byte := 22
  const CONDITIONATTR_STATS: byte := 23
  const CONDITIONATTR_OUTFIT: byte := 24
  const CONDITIONATTR_PERIODDAMAGE: byte := 25
  const CONDITIONATTR_ISBUFF: byte := 26
  const CONDITIONATTR_SUBID: byte := 27
  const CONDITIONATTR_ISAGGRESSIVE: byte := 28
  const CONDITIONATTR_DISABLEDEFENSE: byte := 29
  const CONDITIONATTR_SPECIALSKILLS: byte := 30
  const CONDITIONATTR_END: byte := 254

  const SKILLS: nat := 7
  const SPECIAL_SKILLS: nat := 6
  const STATS: nat := 4

  /** One portion of damage still to come. */
  datatype Interval = Interval(timeLeft: int32, value: int32, interval: int32)

  /** A `float`, by its four bytes; an `Outfit_t`, by its twelve (the last one is padding). */
  type Raw4 = b: seq<byte> | |b| == 4 witness [0, 0, 0, 0]
  type Raw12 = b: seq<byte> | |b| == 12 witness [0, 0, 0, 0, 0, 0, 0, 0, 0, 0, 0, 0]

  /** What the classes of conditions have of their own, as far as it is saved. `front` is where the
      damage list goes on; the three counters say how far the arrays have been read. */
  datatype Body =
    | Plain
    | Damage(delayed: bool, periodDamage: int32, list: seq<Interval>, front: nat)
    | Speed(speedDelta: int32, minA: Raw4, minB: Raw4, maxA: Raw4, maxB: Raw4)
    | Regeneration(healthTicks: uint32, healthGain: uint32, manaTicks: uint32, manaGain: uint32)
    | Soul(soulTicks: uint32, soulGain: uint32)
    | Light(color: byte, level: byte, lightTicks: uint32, lightInterval: uint32)
    | Outfit(outfit: Raw12)
    | Attributes(skills: seq<int32>, stats: seq<int32>, disableDefense: bool, specialSkills: seq<int32>,
                 currentSkill: nat, currentStat: nat, currentSpecialSkill: nat)

  datatype Cond = Cond(ctype: uint32, id: int8, ticks: int32, isBuff: bool, subId: uint32, aggressive: bool, body: Body)

  datatype Class = DamageClass | SpeedClass | RegenerationClass | SoulClass | LightClass | OutfitClass
                 | AttributesClass | PlainClass | NoClass

  /** The class `createCondition` picks for a type; types are single bits. */
  function ClassOf(ctype: uint32): Class {
    if ctype in {0x1, 0x2, 0x4, 0x8, 0x8000, 0x10_0000, 0x20_0000, 0x40_0000} then DamageClass
    else if ctype in {0x10, 0x20} then SpeedClass
    else if ctype == 0x2000 then RegenerationClass
    else if ctype == 0x4000 then SoulClass
    else if ctype == 0x100 then LightClass
    else if ctype == 0x40 then OutfitClass
    else if ctype == 0x8_0000 then AttributesClass
    else if ctype in {0x80, 0x200, 0x400, 0x800, 0x1000, 0x1_0000, 0x2_0000, 0x4_0000, 0x80_0000, 0x100_0000,
                      0x200_0000, 0x400_0000, 0x800_0000} then PlainClass
    else NoClass
  }

  function Zeros(n: nat): (r: seq<int32>)
    ensures |r| == n
  {
    seq(n, i => 0)
  }

  function NewBody(k: Class): Body
    requires k != NoClass
  {
    match k
    case DamageClass => Damage(false, 0, [], 0)
    case SpeedClass => Speed(0, [0, 0, 0, 0], [0, 0, 0, 0], [0, 0, 0, 0], [0, 0, 0, 0])
    case RegenerationClass => Regeneration(1000, 0, 1000, 0)
    case SoulClass => Soul(0, 0)
    case LightClass => Light(0, 0, 0, 0)
    case OutfitClass => Outfit([0, 0, 0, 0, 0, 0, 0, 0, 0, 0, 0, 0])
    case AttributesClass => Attributes(Zeros(SKILLS), Zeros(STATS), false, Zeros(SPECIAL_SKILLS), 0, 0, 0)
    case PlainClass => Plain
  }

  predicate BodyOk(k: Class, body: Body) {
    match k
    case DamageClass => body.Damage? && body.front <= |body.list|
    case SpeedClass => body.Speed?
    case RegenerationClass => body.Regeneration?
    case SoulClass => body.Soul?
    case LightClass => body.Light?
    case OutfitClass => body.Outfit?
    case AttributesClass =>
      body.Attributes? && |body.skills| == SKILLS && |body.stats| == STATS && |body.specialSkills| == SPECIAL_SKILLS
    case PlainClass => body.Plain?
    case NoClass => false
  }

  /** A condition of the class that belongs to its type. */
  predicate CondOk(c: Cond) {
    BodyOk(ClassOf(c.ctype), c.body)
  }

  // ---------------------------------------------------------------- writing

  function Tagged(tag: byte, payload: seq<byte>): seq<byte> {
    [tag] + payload
  }

  function Header(c: Cond): seq<byte> {
    Tagged(CONDITIONATTR_TYPE, Le32(c.ctype)) + Tagged(CONDITIONATTR_ID, LeInt(c.id)) + Tagged(CONDITIONATTR_TICKS, LeInt(c.ticks))
    + Tagged(CONDITIONATTR_ISBUFF, [Flag(c.isBuff)]) + Tagged(CONDITIONATTR_SUBID, Le32(c.subId))
    + Tagged(CONDITIONATTR_ISAGGRESSIVE, [Flag(c.aggressive)])
  }

  /** A tag and the bytes of its value. */
  datatype Prop = Prop(tag: byte, payload: seq<byte>)

  function IntProps(tag: byte, values: seq<int32>): seq<Prop> {
    if values == [] then [] else [Prop(tag, LeInt(values[0]))] + IntProps(tag, values[1..])
  }

  function IntervalBytes(i: Interval): seq<byte> {
    LeInt(i.timeLeft) + LeInt(i.value) + LeInt(i.interval)
  }

  function IntervalProps(list: seq<Interval>): seq<Prop> {
    if list == [] then [] else [Prop(CONDITIONATTR_INTERVALDATA, IntervalBytes(list[0]))] + IntervalProps(list[1..])
  }

  /** What `serialize` of each class writes after the header, in its order. */
  function Props(body: Body): seq<Prop>
    requires body.Damage? ==> body.front <= |body.list|
  {
    match body
    case Plain => []
    case Damage(delayed, periodDamage, list, front) =>
      [Prop(CONDITIONATTR_DELAYED, [Flag(delayed)]), Prop(CONDITIONATTR_PERIODDAMAGE, LeInt(periodDamage))]
      + IntervalProps(list[front..])
    case Speed(speedDelta, minA, minB, maxA, maxB) =>
      [Prop(CONDITIONATTR_SPEEDDELTA, LeInt(speedDelta)), Prop(CONDITIONATTR_FORMULA_MINA, minA),
       Prop(CONDITIONATTR_FORMULA_MINB, minB), Prop(CONDITIONATTR_FORMULA_MAXA, maxA), Prop(CONDITIONATTR_FORMULA_MAXB, maxB)]
    case Regeneration(healthTicks, healthGain, manaTicks, manaGain) =>
      [Prop(CONDITIONATTR_HEALTHTICKS, Le32(healthTicks)), Prop(CONDITIONATTR_HEALTHGAIN, Le32(healthGain)),
       Prop(CONDITIONATTR_MANATICKS, Le32(manaTicks)), Prop(CONDITIONATTR_MANAGAIN, Le32(manaGain))]
    case Soul(soulTicks, soulGain) =>
      [Prop(CONDITIONATTR_SOULGAIN, Le32(soulGain)), Prop(CONDITIONATTR_SOULTICKS, Le32(soulTicks))]
    case Light(color, level, lightTicks, lightInterval) =>
      [Prop(CONDITIONATTR_LIGHTCOLOR, Le32(color)), Prop(CONDITIONATTR_LIGHTLEVEL, Le32(level)),
       Prop(CONDITIONATTR_LIGHTTICKS, Le32(lightTicks)), Prop(CONDITIONATTR_LIGHTINTERVAL, Le32(lightInterval))]
    case Outfit(outfit) => [Prop(CONDITIONATTR_OUTFIT, outfit)]
    case Attributes(skills, stats, disableDefense, specialSkills, _, _, _) =>
      IntProps(CONDITIONATTR_SKILLS, skills) + IntProps(CONDITIONATTR_STATS, stats)
      + [Prop(CONDITIONATTR_DISABLEDEFENSE, [Flag(disableDefense)])] + IntProps(CONDITIONATTR_SPECIALSKILLS, specialSkills)
  }

  function PropBytes(ps: seq<Prop>): seq<byte> {
    if ps == [] then [] else Tagged(ps[0].tag, ps[0].payload) + PropBytes(ps[1..])
  }

  /** `serialize`. */
  function Encode(c: Cond): seq<byte>
    requires CondOk(c)
  {
    Header(c) + PropBytes(Props(c.body))
  }

  /** The number in the four bytes from place `i` on, lowest byte first. */
  ghost function WordAt(b: seq<byte>, i: nat): nat
    requires i + 4 <= |b|
  {
    b[i] as nat + 0x100 * b[i + 1] as nat + 0x1_0000 * b[i + 2] as nat + 0x100_0000 * b[i + 3] as nat
  }

  lemma WordOfBytes(n: uint32)
    ensures |Le32(n)| == 4 && WordAt(Le32(n), 0) == n
  {
    LeRoundTrip(n);
  }

  /** The header as it is stored: six tags in this order, numbers lowest byte first and negative ones counted from the
      top, flags as 0 or 1. */
  lemma HeaderStored(c: Cond)
    ensures var h := Header(c);
            && |h| == 24
            && h[0] == 1 && WordAt(h, 1) == c.ctype
            && h[5] == 2 && WordAt(h, 6) == (if c.id < 0 then c.id as int + 0x1_0000_0000 else c.id)
            && h[10] == 3 && WordAt(h, 11) == (if c.ticks < 0 then c.ticks as int + 0x1_0000_0000 else c.ticks)
            && h[15] == 26 && h[16] == (if c.isBuff then 1 else 0)
            && h[17] == 27 && WordAt(h, 18) == c.subId
            && h[22] == 28 && h[23] == (if c.aggressive then 1 else 0)
  {
    WordOfBytes(c.ctype);
    WordOfBytes(Bits(c.id));
    WordOfBytes(Bits(c.ticks));
    WordOfBytes(c.subId);
    hide Le32;
  }

  ghost function Tags(ps: seq<Prop>): seq<byte> {
    seq(|ps|, i requires 0 <= i < |ps| => ps[i].tag)
  }

  /** The tags that each class stores behind the header, in order. */
  lemma TagsStored(body: Body)
    requires body.Damage? ==> body.front <= |body.list|
    ensures var tags := Tags(Props(body));
            match body
            case Plain => tags == []
            case Damage(_, _, list, front) => tags == [8, 25] + seq(|list| - front, i => 10)
            case Speed(_, _, _, _, _) => tags == [11, 12, 13, 14, 15]
            case Regeneration(_, _, _, _) => tags == [4, 5, 6, 7]
            case Soul(_, _) => tags == [21, 20]
            case Light(_, _, _, _) => tags == [16, 17, 18, 19]
            case Outfit(_) => tags == [24]
            case Attributes(skills, stats, _, specialSkills, _, _, _) =>
              tags == seq(|skills|, i => 22) + seq(|stats|, i => 23) + [29] + seq(|specialSkills|, i => 30)
  {
    hide IntProps;
    hide IntervalProps;
    hide LeInt;
    hide Le32;
    hide Flag;
    match body
    case Damage(delayed, periodDamage, list, front) =>
      IntervalTags(list[front..]);
      TagsOfBoth([Prop(8, [Flag(delayed)]), Prop(25, LeInt(periodDamage))], IntervalProps(list[front..]));
    case Attributes(skills, stats, disableDefense, specialSkills, _, _, _) =>
      IntTags(22, skills);
      IntTags(23, stats);
      IntTags(30, specialSkills);
      var flag := [Prop(29, [Flag(disableDefense)])];
      TagsOfBoth(IntProps(22, skills), IntProps(23, stats));
      TagsOfBoth(IntProps(22, skills) + IntProps(23, stats), flag);
      TagsOfBoth(IntProps(22, skills) + IntProps(23, stats) + flag, IntProps(30, specialSkills));
    case _ =>
  }

  lemma TagsOfBoth(a: seq<Prop>, b: seq<Prop>)
    ensures Tags(a + b) == Tags(a) + Tags(b)
  {
  }

  lemma {:induction false} IntTags(tag: byte, values: seq<int32>)
    ensures Tags(IntProps(tag, values)) == seq(|values|, i => tag)
  {
    if values == [] {
    } else {
      IntTags(tag, values[1..]);
      assert Tags(IntProps(tag, values)) == [tag] + Tags(IntProps(tag, values[1..]));
    }
  }

  lemma {:induction false} IntervalTags(list: seq<Interval>)
    ensures Tags(IntervalProps(list)) == seq(|list|, i => 10)
  {
    if list == [] {
    } else {
      IntervalTags(list[1..]);
      assert Tags(IntervalProps(list)) == [10] + Tags(IntervalProps(list[1..]));
    }
  }

  // ---------------------------------------------------------------- reading

  /** What one property, its value `v` read, does to a condition (`unserializeProp`); None where the
      tag is refused. */
  function Width(body: Body, tag: byte): Option<nat> {
    if body.Damage? && tag == CONDITIONATTR_DELAYED then Some(1)
    else if body.Damage? && tag in {CONDITIONATTR_PERIODDAMAGE, CONDITIONATTR_OWNER} then Some(4)
    else if body.Damage? && tag == CONDITIONATTR_INTERVALDATA then Some(12)
    else if body.Speed? && CONDITIONATTR_SPEEDDELTA <= tag <= CONDITIONATTR_FORMULA_MAXB then Some(4)
    else if body.Regeneration? && CONDITIONATTR_HEALTHTICKS <= tag <= CONDITIONATTR_MANAGAIN then Some(4)
    else if body.Soul? && tag in {CONDITIONATTR_SOULTICKS, CONDITIONATTR_SOULGAIN} then Some(4)
    else if body.Light? && CONDITIONATTR_LIGHTCOLOR <= tag <= CONDITIONATTR_LIGHTINTERVAL then Some(4)
    else if body.Outfit? && tag == CONDITIONATTR_OUTFIT then Some(12)
    else if body.Attributes? && tag == CONDITIONATTR_DISABLEDEFENSE then Some(1)
    else if body.Attributes? && tag == CONDITIONATTR_SKILLS && body.currentSkill < |body.skills| then Some(4)
    else if body.Attributes? && tag == CONDITIONATTR_STATS && body.currentStat < |body.stats| then Some(4)
    else if body.Attributes? && tag == CONDITIONATTR_SPECIALSKILLS && body.currentSpecialSkill < |body.specialSkills| then Some(4)
    else if tag in {CONDITIONATTR_TYPE, CONDITIONATTR_ID, CONDITIONATTR_TICKS, CONDITIONATTR_SUBID} then Some(4)
    else if tag in {CONDITIONATTR_ISBUFF, CONDITIONATTR_ISAGGRESSIVE} then Some(1)
    else if tag == CONDITIONATTR_END then Some(0)
    else None
  }

  function Absorb(c: Cond, tag: byte, v: seq<byte>): Cond
    requires Width(c.body, tag) == Some(|v|)
  {
    if c.body.Damage? && tag == CONDITIONATTR_DELAYED then c.(body := c.body.(delayed := v[0] != 0))
    else if c.body.Damage? && tag == CONDITIONATTR_PERIODDAMAGE then c.(body := c.body.(periodDamage := Signed(FromLe32(v))))
    else if c.body.Damage? && tag == CONDITIONATTR_OWNER then c
    else if c.body.Damage? && tag == CONDITIONATTR_INTERVALDATA then
      var info := Interval(Signed(FromLe32(v[..4])), Signed(FromLe32(v[4..8])), Signed(FromLe32(v[8..])));
      c.(body := c.body.(list := c.body.list + [info]),
         ticks := if c.ticks != -1 then Add32(c.ticks, info.interval) else c.ticks)
    else if c.body.Speed? && tag == CONDITIONATTR_SPEEDDELTA then c.(body := c.body.(speedDelta := Signed(FromLe32(v))))
    else if c.body.Speed? && tag == CONDITIONATTR_FORMULA_MINA then c.(body := c.body.(minA := v))
    else if c.body.Speed? && tag == CONDITIONATTR_FORMULA_MINB then c.(body := c.body.(minB := v))
    else if c.body.Speed? && tag == CONDITIONATTR_FORMULA_MAXA then c.(body := c.body.(maxA := v))
    else if c.body.Speed? && tag == CONDITIONATTR_FORMULA_MAXB then c.(body := c.body.(maxB := v))
    else if c.body.Regeneration? && tag == CONDITIONATTR_HEALTHTICKS then c.(body := c.body.(healthTicks := FromLe32(v)))
    else if c.body.Regeneration? && tag == CONDITIONATTR_HEALTHGAIN then c.(body := c.body.(healthGain := FromLe32(v)))
    else if c.body.Regeneration? && tag == CONDITIONATTR_MANATICKS then c.(body := c.body.(manaTicks := FromLe32(v)))
    else if c.body.Regeneration? && tag == CONDITIONATTR_MANAGAIN then c.(body := c.body.(manaGain := FromLe32(v)))
    else if c.body.Soul? && tag == CONDITIONATTR_SOULTICKS then c.(body := c.body.(soulTicks := FromLe32(v)))
    else if c.body.Soul? && tag == CONDITIONATTR_SOULGAIN then c.(body := c.body.(soulGain := FromLe32(v)))
    else if c.body.Light? && tag == CONDITIONATTR_LIGHTCOLOR then c.(body := c.body.(color := FromLe32(v) % 0x100))
    else if c.body.Light? && tag == CONDITIONATTR_LIGHTLEVEL then c.(body := c.body.(level := FromLe32(v) % 0x100))
    else if c.body.Light? && tag == CONDITIONATTR_LIGHTTICKS then c.(body := c.body.(lightTicks := FromLe32(v)))
    else if c.body.Light? && tag == CONDITIONATTR_LIGHTINTERVAL then c.(body := c.body.(lightInterval := FromLe32(v)))
    else if c.body.Outfit? && tag == CONDITIONATTR_OUTFIT then c.(body := c.body.(outfit := v))
    else if c.body.Attributes? && tag == CONDITIONATTR_DISABLEDEFENSE then c.(body := c.body.(disableDefense := v[0] != 0))
    else if c.body.Attributes? && tag == CONDITIONATTR_SKILLS && c.body.currentSkill < |c.body.skills| then
      c.(body := c.body.(skills := c.body.skills[c.body.currentSkill := Signed(FromLe32(v))],
                         currentSkill := c.body.currentSkill + 1))
    else if c.body.Attributes? && tag == CONDITIONATTR_STATS && c.body.currentStat < |c.body.stats| then
      c.(body := c.body.(stats := c.body.stats[c.body.currentStat := Signed(FromLe32(v))],
                         currentStat := c.body.currentStat + 1))
    else if c.body.Attributes? && tag == CONDITIONATTR_SPECIALSKILLS && c.body.currentSpecialSkill < |c.body.specialSkills| then
      c.(body := c.body.(specialSkills := c.body.specialSkills[c.body.currentSpecialSkill := Signed(FromLe32(v))],
                         currentSpecialSkill := c.body.currentSpecialSkill + 1))
    else if tag == CONDITIONATTR_TYPE then c.(ctype := FromLe32(v))
    else if tag == CONDITIONATTR_ID then c.(id := Signed8(FromLe32(v)))
    else if tag == CONDITIONATTR_TICKS then c.(ticks := Signed(FromLe32(v)))
    else if tag == CONDITIONATTR_ISBUFF then c.(isBuff := v[0] != 0)
    else if tag == CONDITIONATTR_SUBID then c.(subId := FromLe32(v))
    else if tag == CONDITIONATTR_ISAGGRESSIVE then c.(aggressive := v[0] != 0)
    else c
  }

  /** The outcome of the loop in `unserialize`: whether it went well, the condition, what is left. */
  datatype Outcome = Outcome(ok: bool, c: Cond, rest: seq<byte>)

  function Unserialize(c: Cond, b: seq<byte>): (o: Outcome)
    ensures |o.rest| <= |b|
    decreases |b|
  {
    if b == [] then Outcome(true, c, b)
    else if b[0] == CONDITIONATTR_END then Outcome(true, c, b[1..])
    else match Width(c.body, b[0])
      case None => Outcome(false, c, b[1..])
      case Some(n) =>
        match Take(b[1..], n)
        case None => Outcome(false, c, b[1..])
        case Some(taken) => Unserialize(Absorb(c, b[0], taken.0), taken.1)
  }

  /** All the properties of a list, one after the other. */
  function AbsorbAll(c: Cond, ps: seq<Prop>): Option<Cond>
    decreases |ps|
  {
    if ps == [] then Some(c)
    else if ps[0].tag == CONDITIONATTR_END || Width(c.body, ps[0].tag) != Some(|ps[0].payload|) then None
    else AbsorbAll(Absorb(c, ps[0].tag, ps[0].payload), ps[1..])
  }

  /** Reading what was written, up to the end tag, absorbs each property and leaves what follows. */
  lemma {:induction false} ReadsProps(c: Cond, ps: seq<Prop>, rest: seq<byte>)
    requires AbsorbAll(c, ps).Some?
    ensures Unserialize(c, PropBytes(ps) + [CONDITIONATTR_END] + rest) == Outcome(true, AbsorbAll(c, ps).value, rest)
    decreases |ps|
  {
    hide Width;
    hide Absorb;
    var b := PropBytes(ps) + [CONDITIONATTR_END] + rest;
    if ps == [] {
      assert b == [CONDITIONATTR_END] + rest;
    } else {
      var p, tail := ps[0], PropBytes(ps[1..]) + [CONDITIONATTR_END] + rest;
      assert b == [p.tag] + p.payload + tail;
      assert b[1..] == p.payload + tail;
      assert b[1..][..|p.payload|] == p.payload && b[1..][|p.payload|..] == tail;
      ReadsProps(Absorb(c, p.tag, p.payload), ps[1..], rest);
    }
  }

  lemma {:induction false} AbsorbConcat(c: Cond, ps: seq<Prop>, qs: seq<Prop>)
    requires AbsorbAll(c, ps).Some?
    ensures AbsorbAll(c, ps + qs) == AbsorbAll(AbsorbAll(c, ps).value, qs)
    decreases |ps|
  {
    hide Width;
    hide Absorb;
    if ps == [] {
      assert ps + qs == qs;
    } else {
      assert (ps + qs)[1..] == ps[1..] + qs;
      AbsorbConcat(Absorb(c, ps[0].tag, ps[0].payload), ps[1..], qs);
    }
  }

  // ---------------------------------------------------------------- the header

  function ReadTagged(b: seq<byte>, tag: byte, n: nat): (r: Option<(seq<byte>, seq<byte>)>)
    ensures r.Some? ==> |r.value.0| == n && |r.value.1| < |b|
  {
    if b == [] || b[0] != tag then None else Take(b[1..], n)
  }

  lemma ReadsTagged(tag: byte, payload: seq<byte>, rest: seq<byte>)
    ensures ReadTagged(Tagged(tag, payload) + rest, tag, |payload|) == Some((payload, rest))
  {
    var b := Tagged(tag, payload) + rest;
    assert b[1..] == payload + rest;
    assert b[1..][..|payload|] == payload && b[1..][|payload|..] == rest;
  }

  /** What the second `createCondition` makes of the six fields: a damage condition starts with no ticks. */
  function Fresh(ctype: uint32, id: int8, ticks: int32, isBuff: bool, subId: uint32, aggressive: bool): Option<Cond> {
    if ClassOf(ctype) == NoClass then None
    else Some(Cond(ctype, id, if ClassOf(ctype) == DamageClass then 0 else ticks, isBuff, subId, aggressive,
                   NewBody(ClassOf(ctype))))
  }

  /** `createCondition` from a stream. */
  function Create(b: seq<byte>): (r: Option<(Cond, seq<byte>)>)
    ensures r.Some? ==> |r.value.1| < |b|
  {
    var ctype := ReadTagged(b, CONDITIONATTR_TYPE, 4);
    if ctype.None? then None else
    var id := ReadTagged(ctype.value.1, CONDITIONATTR_ID, 4);
    if id.None? then None else
    var ticks := ReadTagged(id.value.1, CONDITIONATTR_TICKS, 4);
    if ticks.None? then None else
    var buff := ReadTagged(ticks.value.1, CONDITIONATTR_ISBUFF, 1);
    if buff.None? then None else
    var subId := ReadTagged(buff.value.1, CONDITIONATTR_SUBID, 4);
    if subId.None? then None else
    var aggressive := ReadTagged(subId.value.1, CONDITIONATTR_ISAGGRESSIVE, 1);
    if aggressive.None? then None else
    var c := Fresh(FromLe32(ctype.value.0), Signed8(FromLe32(id.value.0)), Signed(FromLe32(ticks.value.0)),
                   buff.value.0[0] != 0, FromLe32(subId.value.0), aggressive.value.0[0] != 0);
    if c.None? then None else Some((c.value, aggressive.value.1))
  }

  lemma ReadsHeader(c: Cond, rest: seq<byte>)
    requires CondOk(c)
    ensures Create(Header(c) + rest) ==
            Some((Fresh(c.ctype, c.id, c.ticks, c.isBuff, c.subId, c.aggressive).value, rest))
  {
    hide Le32;
    hide FromLe32;
    hide Tagged;
    hide ReadTagged;
    hide ClassOf;
    var t6 := Tagged(CONDITIONATTR_ISAGGRESSIVE, [Flag(c.aggressive)]) + rest;
    var t5 := Tagged(CONDITIONATTR_SUBID, Le32(c.subId)) + t6;
    var t4 := Tagged(CONDITIONATTR_ISBUFF, [Flag(c.isBuff)]) + t5;
    var t3 := Tagged(CONDITIONATTR_TICKS, LeInt(c.ticks)) + t4;
    var t2 := Tagged(CONDITIONATTR_ID, LeInt(c.id)) + t3;
    var t1 := Tagged(CONDITIONATTR_TYPE, Le32(c.ctype)) + t2;
    assert Header(c) + rest == t1;
    ReadsTagged(CONDITIONATTR_TYPE, Le32(c.ctype), t2);
    ReadsTagged(CONDITIONATTR_ID, LeInt(c.id), t3);
    ReadsTagged(CONDITIONATTR_TICKS, LeInt(c.ticks), t4);
    ReadsTagged(CONDITIONATTR_ISBUFF, [Flag(c.isBuff)], t5);
    ReadsTagged(CONDITIONATTR_SUBID, Le32(c.subId), t6);
    ReadsTagged(CONDITIONATTR_ISAGGRESSIVE, [Flag(c.aggressive)], rest);
    IntRoundTrip(c.ticks);
    IntRoundTrip(c.id);
    IdRoundTrip(c.id);
    LeRoundTrip(c.ctype);
    LeRoundTrip(c.subId);
    assert |Le32(c.ctype)| == |Le32(c.subId)| == |LeInt(c.id)| == |LeInt(c.ticks)| == 4 by { Le32Size(); }
  }

  lemma IdRoundTrip(n: int8)
    ensures Signed8(Bits(n)) == n
  {
  }

  // ---------------------------------------------------------------- the round trip

  /** The ticks after reading intervals: each adds its own, as long as they are not -1. */
  function TicksAfter(ticks: int32, list: seq<Interval>): int32
    decreases |list|
  {
    if list == [] then ticks
    else TicksAfter(if ticks != -1 then Add32(ticks, list[0].interval) else ticks, list[1..])
  }

  /** What comes back: everything that was written; of a damage list, what was still to come. */
  function Restored(c: Cond): Cond
    requires CondOk(c)
  {
    match c.body
    case Damage(delayed, periodDamage, list, front) =>
      c.(ticks := TicksAfter(0, list[front..]), body := Damage(delayed, periodDamage, list[front..], 0))
    case Attributes(_, _, _, _, _, _, _) =>
      c.(body := c.body.(currentSkill := SKILLS, currentStat := STATS, currentSpecialSkill := SPECIAL_SKILLS))
    case _ => c
  }

  lemma {:induction false} AbsorbsIntervals(c: Cond, list: seq<Interval>)
    requires c.body.Damage?
    ensures AbsorbAll(c, IntervalProps(list)) ==
            Some(c.(ticks := TicksAfter(c.ticks, list), body := c.body.(list := c.body.list + list)))
    decreases |list|
  {
    hide FromLe32;
    hide Le32;
    if list == [] {
      assert c.body.list + list == c.body.list;
    } else {
      var i := list[0];
      IntRoundTrip(i.timeLeft);
      IntRoundTrip(i.value);
      IntRoundTrip(i.interval);
      var v := IntervalBytes(i);
      assert v[..4] == LeInt(i.timeLeft) && v[4..8] == LeInt(i.value) && v[8..] == LeInt(i.interval);
      var c' := Absorb(c, CONDITIONATTR_INTERVALDATA, v);
      AbsorbsIntervals(c', list[1..]);
      assert c.body.list + [i] + list[1..] == c.body.list + list;
      assert IntervalProps(list)[1..] == IntervalProps(list[1..]);
    }
  }

  /** `xs` with `values` written over it from `at` on. */
  function Splice<T>(xs: seq<T>, at: nat, values: seq<T>): seq<T>
    requires at + |values| <= |xs|
  {
    xs[..at] + values + xs[at + |values|..]
  }

  lemma SpliceStep<T>(xs: seq<T>, at: nat, values: seq<T>)
    requires at + |values| <= |xs| && values != []
    ensures Splice(xs[at := values[0]], at + 1, values[1..]) == Splice(xs, at, values)
  {
  }

  lemma SpliceNone<T>(xs: seq<T>, at: nat)
    requires at <= |xs|
    ensures Splice(xs, at, []) == xs
  {
  }

  lemma {:induction false} AbsorbsSkills(c: Cond, values: seq<int32>)
    requires c.body.Attributes? && c.body.currentSkill + |values| <= |c.body.skills|
    ensures var at := c.body.currentSkill;
            AbsorbAll(c, IntProps(CONDITIONATTR_SKILLS, values)) ==
            Some(c.(body := c.body.(skills := Splice(c.body.skills, at, values),
                                    currentSkill := at + |values|)))
    decreases |values|
  {
    hide FromLe32;
    hide Le32;
    hide AbsorbAll;
    if values == [] {
      AbsorbNone(c);
      SpliceNone(c.body.skills, c.body.currentSkill);
    } else {
      var c' := c.(body := c.body.(skills := c.body.skills[c.body.currentSkill := values[0]],
                                  currentSkill := c.body.currentSkill + 1));
      IntRoundTrip(values[0]);
      AbsorbCons(c, Prop(CONDITIONATTR_SKILLS, LeInt(values[0])), IntProps(CONDITIONATTR_SKILLS, values[1..]));
      AbsorbsSkills(c', values[1..]);
      SpliceStep(c.body.skills, c.body.currentSkill, values);
    }
  }

  lemma {:induction false} AbsorbsStats(c: Cond, values: seq<int32>)
    requires c.body.Attributes? && c.body.currentStat + |values| <= |c.body.stats|
    ensures var at := c.body.currentStat;
            AbsorbAll(c, IntProps(CONDITIONATTR_STATS, values)) ==
            Some(c.(body := c.body.(stats := Splice(c.body.stats, at, values),
                                    currentStat := at + |values|)))
    decreases |values|
  {
    hide FromLe32;
    hide Le32;
    hide AbsorbAll;
    if values == [] {
      AbsorbNone(c);
      SpliceNone(c.body.stats, c.body.currentStat);
    } else {
      var c' := c.(body := c.body.(stats := c.body.stats[c.body.currentStat := values[0]],
                                  currentStat := c.body.currentStat + 1));
      IntRoundTrip(values[0]);
      AbsorbCons(c, Prop(CONDITIONATTR_STATS, LeInt(values[0])), IntProps(CONDITIONATTR_STATS, values[1..]));
      AbsorbsStats(c', values[1..]);
      SpliceStep(c.body.stats, c.body.currentStat, values);
    }
  }

  lemma {:induction false} AbsorbsSpecialSkills(c: Cond, values: seq<int32>)
    requires c.body.Attributes? && c.body.currentSpecialSkill + |values| <= |c.body.specialSkills|
    ensures var at := c.body.currentSpecialSkill;
            AbsorbAll(c, IntProps(CONDITIONATTR_SPECIALSKILLS, values)) ==
            Some(c.(body := c.body.(specialSkills := Splice(c.body.specialSkills, at, values),
                                    currentSpecialSkill := at + |values|)))
    decreases |values|
  {
    hide FromLe32;
    hide Le32;
    hide AbsorbAll;
    if values == [] {
      AbsorbNone(c);
      SpliceNone(c.body.specialSkills, c.body.currentSpecialSkill);
    } else {
      var c' := c.(body := c.body.(specialSkills := c.body.specialSkills[c.body.currentSpecialSkill := values[0]],
                                  currentSpecialSkill := c.body.currentSpecialSkill + 1));
      IntRoundTrip(values[0]);
      AbsorbCons(c, Prop(CONDITIONATTR_SPECIALSKILLS, LeInt(values[0])), IntProps(CONDITIONATTR_SPECIALSKILLS, values[1..]));
      AbsorbsSpecialSkills(c', values[1..]);
      SpliceStep(c.body.specialSkills, c.body.currentSpecialSkill, values);
    }
  }

  lemma AbsorbsAttributes(c: Cond, skills: seq<int32>, stats: seq<int32>, disableDefense: bool, specialSkills: seq<int32>)
    requires c.body == NewBody(AttributesClass) && |skills| == SKILLS && |stats| == STATS && |specialSkills| == SPECIAL_SKILLS
    ensures AbsorbAll(c, Props(Attributes(skills, stats, disableDefense, specialSkills, 0, 0, 0))) ==
            Some(c.(body := Attributes(skills, stats, disableDefense, specialSkills, SKILLS, STATS, SPECIAL_SKILLS)))
  {
    hide Le32;
    hide FromLe32;
    hide AbsorbAll;
    var ps1 := IntProps(CONDITIONATTR_SKILLS, skills);
    var ps2 := IntProps(CONDITIONATTR_STATS, stats);
    var ps3 := [Prop(CONDITIONATTR_DISABLEDEFENSE, [Flag(disableDefense)])];
    var ps4 := IntProps(CONDITIONATTR_SPECIALSKILLS, specialSkills);
    var c1 := c.(body := c.body.(skills := skills, currentSkill := SKILLS));
    var c2 := c1.(body := c1.body.(stats := stats, currentStat := STATS));
    var c3 := c2.(body := c2.body.(disableDefense := disableDefense));
    AbsorbsSkills(c, skills);
    assert Splice(Zeros(SKILLS), 0, skills) == skills;
    AbsorbsStats(c1, stats);
    assert Splice(Zeros(STATS), 0, stats) == stats;
    AbsorbsOne(c2, CONDITIONATTR_DISABLEDEFENSE, [Flag(disableDefense)]);
    AbsorbsSpecialSkills(c3, specialSkills);
    assert Splice(Zeros(SPECIAL_SKILLS), 0, specialSkills) == specialSkills;
    AbsorbConcat(c, ps1, ps2);
    AbsorbConcat(c, ps1 + ps2, ps3);
    AbsorbConcat(c, ps1 + ps2 + ps3, ps4);
  }

  lemma AbsorbsOne(c: Cond, tag: byte, v: seq<byte>)
    requires tag != CONDITIONATTR_END && Width(c.body, tag) == Some(|v|)
    ensures AbsorbAll(c, [Prop(tag, v)]) == Some(Absorb(c, tag, v))
  {
    hide Width;
    hide Absorb;
    assert [Prop(tag, v)][1..] == [];
  }

  lemma AbsorbCons(c: Cond, p: Prop, ps: seq<Prop>)
    requires p.tag != CONDITIONATTR_END && Width(c.body, p.tag) == Some(|p.payload|)
    ensures AbsorbAll(c, [p] + ps) == AbsorbAll(Absorb(c, p.tag, p.payload), ps)
  {
    hide Width;
    hide Absorb;
    assert ([p] + ps)[1..] == ps;
  }

  lemma AbsorbNone(c: Cond)
    ensures AbsorbAll(c, []) == Some(c)
  {
  }

  lemma AbsorbsRegeneration(c: Cond, body: Body)
    requires c.body.Regeneration? && body.Regeneration?
    ensures AbsorbAll(c, Props(body)) == Some(c.(body := body))
  {
    hide FromLe32;
    hide Le32;
    hide AbsorbAll;
    LeRoundTrip(body.healthTicks);
    LeRoundTrip(body.healthGain);
    LeRoundTrip(body.manaTicks);
    LeRoundTrip(body.manaGain);
    Le32Size();
    var ps := Props(body);
    var c1 := c.(body := c.body.(healthTicks := body.healthTicks));
    var c2 := c1.(body := c1.body.(healthGain := body.healthGain));
    var c3 := c2.(body := c2.body.(manaTicks := body.manaTicks));
    AbsorbCons(c, ps[0], [ps[1], ps[2], ps[3]]);
    AbsorbCons(c1, ps[1], [ps[2], ps[3]]);
    AbsorbCons(c2, ps[2], [ps[3]]);
    AbsorbsOne(c3, ps[3].tag, ps[3].payload);
    assert ps == [ps[0]] + [ps[1], ps[2], ps[3]] && [ps[1], ps[2], ps[3]] == [ps[1]] + [ps[2], ps[3]]
           && [ps[2], ps[3]] == [ps[2]] + [ps[3]];
  }

  lemma AbsorbsLight(c: Cond, body: Body)
    requires c.body.Light? && body.Light?
    ensures AbsorbAll(c, Props(body)) == Some(c.(body := body))
  {
    hide FromLe32;
    hide Le32;
    hide AbsorbAll;
    LeRoundTrip(body.color);
    LeRoundTrip(body.level);
    LeRoundTrip(body.lightTicks);
    LeRoundTrip(body.lightInterval);
    Le32Size();
    var ps := Props(body);
    var c1 := c.(body := c.body.(color := body.color));
    var c2 := c1.(body := c1.body.(level := body.level));
    var c3 := c2.(body := c2.body.(lightTicks := body.lightTicks));
    AbsorbCons(c, ps[0], [ps[1], ps[2], ps[3]]);
    AbsorbCons(c1, ps[1], [ps[2], ps[3]]);
    AbsorbCons(c2, ps[2], [ps[3]]);
    AbsorbsOne(c3, ps[3].tag, ps[3].payload);
    assert ps == [ps[0]] + [ps[1], ps[2], ps[3]] && [ps[1], ps[2], ps[3]] == [ps[1]] + [ps[2], ps[3]]
           && [ps[2], ps[3]] == [ps[2]] + [ps[3]];
  }

  lemma AbsorbsSoul(c: Cond, body: Body)
    requires c.body.Soul? && body.Soul?
    ensures AbsorbAll(c, Props(body)) == Some(c.(body := body))
  {
    hide FromLe32;
    hide Le32;
    hide AbsorbAll;
    LeRoundTrip(body.soulTicks);
    LeRoundTrip(body.soulGain);
    Le32Size();
    var ps := Props(body);
    AbsorbCons(c, ps[0], [ps[1]]);
    AbsorbsOne(c.(body := c.body.(soulGain := body.soulGain)), ps[1].tag, ps[1].payload);
    assert ps == [ps[0]] + [ps[1]];
  }

  lemma AbsorbsSpeed(c: Cond, body: Body)
    requires c.body.Speed? && body.Speed?
    ensures AbsorbAll(c, Props(body)) == Some(c.(body := body))
  {
    hide FromLe32;
    hide Le32;
    hide AbsorbAll;
    IntRoundTrip(body.speedDelta);
    var ps := Props(body);
    var c1 := c.(body := c.body.(speedDelta := body.speedDelta));
    var c2 := c1.(body := c1.body.(minA := body.minA));
    var c3 := c2.(body := c2.body.(minB := body.minB));
    var c4 := c3.(body := c3.body.(maxA := body.maxA));
    AbsorbCons(c, ps[0], ps[1..]);
    AbsorbCons(c1, ps[1], ps[2..]);
    AbsorbCons(c2, ps[2], ps[3..]);
    AbsorbCons(c3, ps[3], ps[4..]);
    AbsorbsOne(c4, ps[4].tag, ps[4].payload);
    assert ps == [ps[0]] + ps[1..] && ps[1..] == [ps[1]] + ps[2..] && ps[2..] == [ps[2]] + ps[3..]
           && ps[3..] == [ps[3]] + ps[4..] && ps[4..] == [ps[4]];
  }

  lemma AbsorbsDamage(c: Cond, body: Body)
    requires c.body == NewBody(DamageClass) && c.ticks == 0 && body.Damage? && body.front <= |body.list|
    ensures AbsorbAll(c, Props(body)) ==
            Some(c.(ticks := TicksAfter(0, body.list[body.front..]),
                    body := Damage(body.delayed, body.periodDamage, body.list[body.front..], 0)))
  {
    hide FromLe32;
    hide Le32;
    hide AbsorbAll;
    hide TicksAfter;
    IntRoundTrip(body.periodDamage);
    var ps, list := Props(body), body.list[body.front..];
    var c1 := c.(body := c.body.(delayed := body.delayed));
    var c2 := c1.(body := c1.body.(periodDamage := body.periodDamage));
    AbsorbCons(c, ps[0], [ps[1]] + IntervalProps(list));
    AbsorbCons(c1, ps[1], IntervalProps(list));
    AbsorbsIntervals(c2, list);
    assert ps == [ps[0]] + ([ps[1]] + IntervalProps(list));
    assert [] + list == list;
  }

  /** Every property that `serialize` writes is accepted again, and sets what it was written from. */
  lemma AbsorbsAll(c: Cond)
    requires CondOk(c)
    ensures AbsorbAll(Fresh(c.ctype, c.id, c.ticks, c.isBuff, c.subId, c.aggressive).value, Props(c.body)) == Some(Restored(c))
  {
    hide AbsorbAll;
    hide ClassOf;
    var new_ := Fresh(c.ctype, c.id, c.ticks, c.isBuff, c.subId, c.aggressive).value;
    match ClassOf(c.ctype)
    case DamageClass => AbsorbsDamage(new_, c.body);
    case SpeedClass => AbsorbsSpeed(new_, c.body);
    case RegenerationClass => AbsorbsRegeneration(new_, c.body);
    case SoulClass => AbsorbsSoul(new_, c.body);
    case LightClass => AbsorbsLight(new_, c.body);
    case OutfitClass => AbsorbsOne(new_, CONDITIONATTR_OUTFIT, c.body.outfit);
    case AttributesClass => AbsorbsAttributes(new_, c.body.skills, c.body.stats, c.body.disableDefense, c.body.specialSkills);
    case PlainClass => AbsorbNone(new_);
  }

  /** One condition, its end tag, and whatever follows: all its fields come back, and exactly its bytes
      are consumed. */
  lemma RoundTrip(c: Cond, rest: seq<byte>)
    requires CondOk(c)
    ensures var b := Encode(c) + [CONDITIONATTR_END] + rest;
            Create(b).Some? && var (c0, b0) := Create(b).value; Unserialize(c0, b0) == Outcome(true, Restored(c), rest)
  {
    hide CondOk;
    hide AbsorbAll;
    hide PropBytes;
    hide Header;
    hide Create;
    hide Unserialize;
    hide Restored;
    BodyHasFront(c);
    var tail := PropBytes(Props(c.body)) + [CONDITIONATTR_END] + rest;
    ReadsHeader(c, tail);
    AbsorbsAll(c);
    ReadsProps(Fresh(c.ctype, c.id, c.ticks, c.isBuff, c.subId, c.aggressive).value, Props(c.body), rest);
    assert Encode(c) + [CONDITIONATTR_END] + rest == Header(c) + tail;
  }

  lemma BodyHasFront(c: Cond)
    requires CondOk(c)
    ensures ClassOf(c.ctype) != NoClass && (c.body.Damage? ==> c.body.front <= |c.body.list|)
  {
  }

  // ---------------------------------------------------------------- the whole save

  const CONDITION_MUTED: uint32 := 0x1_0000

  predicate IsPersistent(c: Cond) {
    c.ticks != -1 && (c.id == -1 || c.id == 0 || c.ctype == CONDITION_MUTED)
  }

  /** What `savePlayer` writes of a list of conditions. */
  function SaveAll(cs: seq<Cond>): seq<byte>
    requires forall c :: c in cs ==> CondOk(c)
  {
    if cs == [] then []
    else (if IsPersistent(cs[0]) then Encode(cs[0]) + [CONDITIONATTR_END] else []) + SaveAll(cs[1..])
  }

  /** What `loadPlayer` makes of it. */
  function LoadAll(b: seq<byte>): seq<Cond>
    decreases |b|
  {
    match Create(b)
    case None => []
    case Some(made) =>
      var o := Unserialize(made.0, made.1);
      (if o.ok then [o.c] else []) + LoadAll(o.rest)
  }

  function RestoredAll(cs: seq<Cond>): seq<Cond>
    requires forall c :: c in cs ==> CondOk(c)
  {
    if cs == [] then []
    else (if IsPersistent(cs[0]) then [Restored(cs[0])] else []) + RestoredAll(cs[1..])
  }

  /** A player gets back the persistent conditions, in order, each as it was, and nothing else. */
  lemma {:induction false} LoadsWhatWasSaved(cs: seq<Cond>)
    requires forall c :: c in cs ==> CondOk(c)
    ensures LoadAll(SaveAll(cs)) == RestoredAll(cs)
  {
    hide CondOk;
    hide Encode;
    hide Create;
    hide Unserialize;
    hide Restored;
    hide IsPersistent;
    if cs == [] {
      NothingToLoad();
    } else {
      LoadsWhatWasSaved(cs[1..]);
      if IsPersistent(cs[0]) {
        RoundTrip(cs[0], SaveAll(cs[1..]));
      } else {
        assert [] + SaveAll(cs[1..]) == SaveAll(cs[1..]);
      }
    }
  }

  /** `at` lists, in order, the places of all conditions that run out and are of the default or the combat id, or muted. */
  ghost predicate Saved(cs: seq<Cond>, at: seq<nat>) {
    && (forall j, k :: 0 <= j < k < |at| ==> at[j] < at[k])
    && (forall k :: 0 <= k < |at| ==> at[k] < |cs|)
    && (forall i :: 0 <= i < |cs| ==>
          (i in at <==> cs[i].ticks != -1 && (cs[i].id == 0 || cs[i].id == -1 || cs[i].ctype == 0x1_0000)))
  }

  /** Place by place: what comes back is, in order, each condition that runs out and has the default or the combat id, or
      is muted; all of them, and no other. */
  lemma {:induction false} ComesBackExactly(cs: seq<Cond>) returns (at: seq<nat>)
    requires forall c :: c in cs ==> CondOk(c)
    ensures Saved(cs, at) && |LoadAll(SaveAll(cs))| == |at|
    ensures forall k :: 0 <= k < |at| ==> LoadAll(SaveAll(cs))[k] == Restored(cs[at[k]])
  {
    LoadsWhatWasSaved(cs);
    at := RestoredPlaces(cs);
  }

  lemma {:induction false} RestoredPlaces(cs: seq<Cond>) returns (at: seq<nat>)
    requires forall c :: c in cs ==> CondOk(c)
    ensures Saved(cs, at) && |RestoredAll(cs)| == |at|
    ensures forall k :: 0 <= k < |at| ==> RestoredAll(cs)[k] == Restored(cs[at[k]])
  {
    hide CondOk;
    hide Restored;
    hide Saved;
    hide IsPersistent;
    if cs == [] {
      at := [];
      NoneSaved();
    } else {
      var rest := RestoredPlaces(cs[1..]);
      at := (if IsPersistent(cs[0]) then [0] else []) + OneOn(rest);
      SavedCons(cs, rest);
      var head := if IsPersistent(cs[0]) then [Restored(cs[0])] else [];
      assert RestoredAll(cs) == head + RestoredAll(cs[1..]);
      SavedInside(cs[1..], rest);
      forall k | 0 <= k < |at| ensures at[k] < |cs| && RestoredAll(cs)[k] == Restored(cs[at[k]]) {
        if k >= |head| { assert at[k] == rest[k - |head|] + 1; }
      }
    }
  }

  /** The same places in a list with one more element in front. */
  function OneOn(at: seq<nat>): (r: seq<nat>)
    ensures |r| == |at| && forall k :: 0 <= k < |at| ==> r[k] == at[k] + 1
  {
    seq(|at|, k requires 0 <= k < |at| => at[k] + 1)
  }

  lemma NoneSaved()
    ensures Saved([], [])
  {
  }

  lemma SavedInside(cs: seq<Cond>, at: seq<nat>)
    requires Saved(cs, at)
    ensures forall k :: 0 <= k < |at| ==> at[k] < |cs|
  {
  }

  lemma SavedCons(cs: seq<Cond>, rest: seq<nat>)
    requires cs != [] && Saved(cs[1..], rest)
    ensures Saved(cs, (if IsPersistent(cs[0]) then [0] else []) + OneOn(rest))
  {
    var at := (if IsPersistent(cs[0]) then [0] else []) + OneOn(rest);
    hide IsPersistent;
    forall i | 0 <= i < |cs| ensures i in at <==> (i == 0 && IsPersistent(cs[0])) || (i > 0 && i - 1 in rest) {
      InOneOn(rest, i);
    }
    assert forall i :: 0 < i < |cs| ==> cs[1..][i - 1] == cs[i];
    IsPersistentMeans(cs[0]);
  }

  lemma InOneOn(rest: seq<nat>, i: nat)
    ensures i in OneOn(rest) <==> i > 0 && i - 1 in rest
  {
    if i > 0 && i - 1 in rest {
      var k :| 0 <= k < |rest| && rest[k] == i - 1;
      assert OneOn(rest)[k] == i;
    }
  }

  lemma IsPersistentMeans(c: Cond)
    ensures IsPersistent(c) <==> c.ticks != -1 && (c.id == 0 || c.id == -1 || c.ctype == 0x1_0000)
  {
  }

  /** The types that are saved and loaded, by class; a condition of any other type is never made. */
  lemma ClassesOfTypes(ctype: uint32)
    ensures ClassOf(ctype) == DamageClass <==> ctype in {0x1, 0x2, 0x4, 0x8, 0x8000, 0x10_0000, 0x20_0000, 0x40_0000}
    ensures ClassOf(ctype) == SpeedClass <==> ctype in {0x10, 0x20}
    ensures ClassOf(ctype) == OutfitClass <==> ctype == 0x40
    ensures ClassOf(ctype) == LightClass <==> ctype == 0x100
    ensures ClassOf(ctype) == RegenerationClass <==> ctype == 0x2000
    ensures ClassOf(ctype) == SoulClass <==> ctype == 0x4000
    ensures ClassOf(ctype) == AttributesClass <==> ctype == 0x8_0000
    ensures ClassOf(ctype) == PlainClass <==>
            ctype in {0x80, 0x200, 0x400, 0x800, 0x1000, 0x1_0000, 0x2_0000, 0x4_0000, 0x80_0000, 0x100_0000, 0x200_0000,
                      0x400_0000, 0x800_0000}
  {
  }

  /** What comes back differs from what was saved only where nothing is written: a damage list starts at the portions that
      were still to come, and the counters of the arrays stand at their ends. */
  lemma RestoredKeeps(c: Cond)
    requires CondOk(c)
    ensures var r := Restored(c);
            && r.ctype == c.ctype && r.id == c.id && r.isBuff == c.isBuff && r.subId == c.subId && r.aggressive == c.aggressive
            && (!c.body.Damage? ==> r.ticks == c.ticks)
            && (!c.body.Damage? && !c.body.Attributes? ==> r == c)
            && (c.body.Damage? ==>
                  r.body == Damage(c.body.delayed, c.body.periodDamage, c.body.list[c.body.front..], 0))
            && (c.body.Attributes? ==>
                  r.body == Attributes(c.body.skills, c.body.stats, c.body.disableDefense, c.body.specialSkills,
                                       SKILLS, STATS, SPECIAL_SKILLS))
  {
  }

  lemma NothingToLoad()
    ensures Create([]) == None
  {
  }

  // ---------------------------------------------------------------- the ticks of a damage condition

  function IntervalSum(list: seq<Interval>): int {
    if list == [] then 0 else list[0].interval + IntervalSum(list[1..])
  }

  /** As long as nothing overflows the ticks are the sum of the intervals. */
  lemma {:induction false} TicksAreTheSum(ticks: int32, list: seq<Interval>)
    requires ticks >= 0 && forall i :: i in list ==> i.interval >= 0
    requires ticks + IntervalSum(list) < 0x8000_0000
    ensures TicksAfter(ticks, list) == ticks + IntervalSum(list)
    decreases |list|
  {
    if list == [] {
    } else {
      SumIsNat(list[1..]);
      TicksAreTheSum(ticks + list[0].interval, list[1..]);
    }
  }

  lemma {:induction false} SumIsNat(list: seq<Interval>)
    requires forall i :: i in list ==> i.interval >= 0
    ensures IntervalSum(list) >= 0
  {
    if list == [] {
    } else {
      SumIsNat(list[1..]);
    }
  }
}
