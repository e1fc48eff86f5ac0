/** Conditions written to and read from property streams, step by step (src/condition.cpp,
    src/fileloader.h, src/iologindata.cpp), each step tied to the functions of ConditionCodec. */
module ConditionStreams {
  import opened Options
  import opened Bytes
  import opened ConditionCodec
  import opened PropStreams
  import opened Words

  lemma {:induction false} PropBytesConcat(ps: seq<Prop>, qs: seq<Prop>)
    ensures PropBytes(ps + qs) == PropBytes(ps) + PropBytes(qs)
  {
    if ps == [] {
      assert ps + qs == qs;
    } else {
      assert (ps + qs)[1..] == ps[1..] + qs;
      PropBytesConcat(ps[1..], qs);
    }
  }

  lemma PropBytesPush(ps: seq<Prop>, p: Prop)
    ensures PropBytes(ps + [p]) == PropBytes(ps) + Tagged(p.tag, p.payload)
  {
    PropBytesConcat(ps, [p]);
    assert PropBytes([p]) == Tagged(p.tag, p.payload) + PropBytes([]);
  }

  /** What `unserializeProp` of the tag `attr` may do: refuse, and leave everything alone, or absorb. */
  ghost predicate PropRead(c: Cond, b: seq<byte>, attr: byte, ok: bool, c': Cond, b': seq<byte>) {
    match Width(c.body, attr)
    case None => !ok && c' == c && b' == b
    case Some(n) =>
      match Take(b, n)
      case None => !ok && c' == c && b' == b
      case Some(taken) => ok && c' == Absorb(c, attr, taken.0) && b' == taken.1
  }

  class Condition {
    var ctype: uint32
    var id: int8
    var ticks: int32
    var isBuff: bool
    var subId: uint32
    var aggressive: bool
    var body: Body

    constructor (c: Cond)
      ensures Value() == c
    {
      ctype, id, ticks, isBuff, subId, aggressive, body := c.ctype, c.id, c.ticks, c.isBuff, c.subId, c.aggressive, c.body;
    }

    ghost function Value(): Cond
      reads this
    {
      Cond(ctype, id, ticks, isBuff, subId, aggressive, body)
    }

    // ---------------------------------------------------------------- reading

    /** `Condition::unserializeProp`, for the tags that no class treats as its own. */
    method BaseProp(attr: byte, stream: PropStream) returns (ok: bool)
      requires stream.Valid()
      requires Width(body, attr) == Width(Plain, attr)
      modifies this, stream`p
      ensures stream.Valid() && PropRead(old(Value()), old(stream.Rest()), attr, ok, Value(), stream.Rest())
    {
      var v: seq<byte>;
      if attr in {CONDITIONATTR_TYPE, CONDITIONATTR_ID, CONDITIONATTR_TICKS, CONDITIONATTR_SUBID} {
        ok, v := stream.Read(4);
        if !ok { return; }
        if attr == CONDITIONATTR_TYPE {
          ctype := FromLe32(v);
        } else if attr == CONDITIONATTR_ID {
          id := Signed8(FromLe32(v));
        } else if attr == CONDITIONATTR_TICKS {
          ticks := Signed(FromLe32(v));
        } else {
          subId := FromLe32(v);
        }
      } else if attr in {CONDITIONATTR_ISBUFF, CONDITIONATTR_ISAGGRESSIVE} {
        ok, v := stream.Read(1);
        if !ok { return; }
        if attr == CONDITIONATTR_ISBUFF {
          isBuff := v[0] != 0;
        } else {
          aggressive := v[0] != 0;
        }
      } else if attr == CONDITIONATTR_END {
        ok, v := stream.Read(0);
      } else {
        ok := false;
      }
    }

    method DamageProp(attr: byte, stream: PropStream) returns (ok: bool)
      requires stream.Valid() && body.Damage?
      modifies this, stream`p
      ensures stream.Valid() && PropRead(old(Value()), old(stream.Rest()), attr, ok, Value(), stream.Rest())
    {
      hide FromLe32;
      var v: seq<byte>;
      if attr == CONDITIONATTR_DELAYED {
        ok, v := stream.Read(1);
        if !ok { return; }
        body := body.(delayed := v[0] != 0);
      } else if attr == CONDITIONATTR_PERIODDAMAGE {
        ok, v := stream.Read(4);
        if !ok { return; }
        body := body.(periodDamage := Signed(FromLe32(v)));
      } else if attr == CONDITIONATTR_OWNER {
        ok, v := stream.Read(4);
      } else if attr == CONDITIONATTR_INTERVALDATA {
        ok, v := stream.Read(12);
        if !ok { return; }
        var info := Interval(Signed(FromLe32(v[..4])), Signed(FromLe32(v[4..8])), Signed(FromLe32(v[8..])));
        body := body.(list := body.list + [info]);
        if ticks != -1 {
          ticks := Add32(ticks, info.interval);
        }
      } else {
        ok := BaseProp(attr, stream);
      }
    }

    method SpeedProp(attr: byte, stream: PropStream) returns (ok: bool)
      requires stream.Valid() && body.Speed?
      modifies this, stream`p
      ensures stream.Valid() && PropRead(old(Value()), old(stream.Rest()), attr, ok, Value(), stream.Rest())
    {
      hide FromLe32;
      if !(CONDITIONATTR_SPEEDDELTA <= attr <= CONDITIONATTR_FORMULA_MAXB) {
        ok := BaseProp(attr, stream);
        return;
      }
      var v: seq<byte>;
      ok, v := stream.Read(4);
      if !ok { return; }
      if attr == CONDITIONATTR_SPEEDDELTA {
        body := body.(speedDelta := Signed(FromLe32(v)));
      } else if attr == CONDITIONATTR_FORMULA_MINA {
        body := body.(minA := v);
      } else if attr == CONDITIONATTR_FORMULA_MINB {
        body := body.(minB := v);
      } else if attr == CONDITIONATTR_FORMULA_MAXA {
        body := body.(maxA := v);
      } else {
        body := body.(maxB := v);
      }
    }

    method RegenerationProp(attr: byte, stream: PropStream) returns (ok: bool)
      requires stream.Valid() && body.Regeneration?
      modifies this, stream`p
      ensures stream.Valid() && PropRead(old(Value()), old(stream.Rest()), attr, ok, Value(), stream.Rest())
    {
      hide FromLe32;
      if !(CONDITIONATTR_HEALTHTICKS <= attr <= CONDITIONATTR_MANAGAIN) {
        ok := BaseProp(attr, stream);
        return;
      }
      var v: seq<byte>;
      ok, v := stream.Read(4);
      if !ok { return; }
      if attr == CONDITIONATTR_HEALTHTICKS {
        body := body.(healthTicks := FromLe32(v));
      } else if attr == CONDITIONATTR_HEALTHGAIN {
        body := body.(healthGain := FromLe32(v));
      } else if attr == CONDITIONATTR_MANATICKS {
        body := body.(manaTicks := FromLe32(v));
      } else {
        body := body.(manaGain := FromLe32(v));
      }
    }

    method SoulProp(attr: byte, stream: PropStream) returns (ok: bool)
      requires stream.Valid() && body.Soul?
      modifies this, stream`p
      ensures stream.Valid() && PropRead(old(Value()), old(stream.Rest()), attr, ok, Value(), stream.Rest())
    {
      hide FromLe32;
      if attr != CONDITIONATTR_SOULGAIN && attr != CONDITIONATTR_SOULTICKS {
        ok := BaseProp(attr, stream);
        return;
      }
      var v: seq<byte>;
      ok, v := stream.Read(4);
      if !ok { return; }
      if attr == CONDITIONATTR_SOULGAIN {
        body := body.(soulGain := FromLe32(v));
      } else {
        body := body.(soulTicks := FromLe32(v));
      }
    }

    method LightProp(attr: byte, stream: PropStream) returns (ok: bool)
      requires stream.Valid() && body.Light?
      modifies this, stream`p
      ensures stream.Valid() && PropRead(old(Value()), old(stream.Rest()), attr, ok, Value(), stream.Rest())
    {
      hide FromLe32;
      if !(CONDITIONATTR_LIGHTCOLOR <= attr <= CONDITIONATTR_LIGHTINTERVAL) {
        ok := BaseProp(attr, stream);
        return;
      }
      var v: seq<byte>;
      ok, v := stream.Read(4);
      if !ok { return; }
      if attr == CONDITIONATTR_LIGHTCOLOR {
        body := body.(color := FromLe32(v) % 0x100);
      } else if attr == CONDITIONATTR_LIGHTLEVEL {
        body := body.(level := FromLe32(v) % 0x100);
      } else if attr == CONDITIONATTR_LIGHTTICKS {
        body := body.(lightTicks := FromLe32(v));
      } else {
        body := body.(lightInterval := FromLe32(v));
      }
    }

    method OutfitProp(attr: byte, stream: PropStream) returns (ok: bool)
      requires stream.Valid() && body.Outfit?
      modifies this, stream`p
      ensures stream.Valid() && PropRead(old(Value()), old(stream.Rest()), attr, ok, Value(), stream.Rest())
    {
      if attr != CONDITIONATTR_OUTFIT {
        ok := BaseProp(attr, stream);
        return;
      }
      var v: seq<byte>;
      ok, v := stream.Read(12);
      if ok {
        body := body.(outfit := v);
      }
    }

    /** More values than an array has places are refused here; the source does not look. */
    method AttributesProp(attr: byte, stream: PropStream) returns (ok: bool)
      requires stream.Valid() && body.Attributes?
      modifies this, stream`p
      ensures stream.Valid() && PropRead(old(Value()), old(stream.Rest()), attr, ok, Value(), stream.Rest())
    {
      hide FromLe32;
      var v: seq<byte>;
      if attr == CONDITIONATTR_SKILLS && body.currentSkill < |body.skills| {
        ok, v := stream.Read(4);
        if !ok { return; }
        body := body.(skills := body.skills[body.currentSkill := Signed(FromLe32(v))], currentSkill := body.currentSkill + 1);
      } else if attr == CONDITIONATTR_SPECIALSKILLS && body.currentSpecialSkill < |body.specialSkills| {
        ok, v := stream.Read(4);
        if !ok { return; }
        body := body.(specialSkills := body.specialSkills[body.currentSpecialSkill := Signed(FromLe32(v))],
                      currentSpecialSkill := body.currentSpecialSkill + 1);
      } else if attr == CONDITIONATTR_STATS && body.currentStat < |body.stats| {
        ok, v := stream.Read(4);
        if !ok { return; }
        body := body.(stats := body.stats[body.currentStat := Signed(FromLe32(v))], currentStat := body.currentStat + 1);
      } else if attr == CONDITIONATTR_DISABLEDEFENSE {
        ok, v := stream.Read(1);
        if !ok { return; }
        body := body.(disableDefense := v[0] != 0);
      } else {
        ok := BaseProp(attr, stream);
      }
    }

    /** `unserializeProp`, as each class overrides it. */
    method UnserializeProp(attr: byte, stream: PropStream) returns (ok: bool)
      requires stream.Valid()
      modifies this, stream`p
      ensures stream.Valid() && PropRead(old(Value()), old(stream.Rest()), attr, ok, Value(), stream.Rest())
    {
      hide PropRead;
      match body
      case Plain => ok := BaseProp(attr, stream);
      case Damage(_, _, _, _) => ok := DamageProp(attr, stream);
      case Speed(_, _, _, _, _) => ok := SpeedProp(attr, stream);
      case Regeneration(_, _, _, _) => ok := RegenerationProp(attr, stream);
      case Soul(_, _) => ok := SoulProp(attr, stream);
      case Light(_, _, _, _) => ok := LightProp(attr, stream);
      case Outfit(_) => ok := OutfitProp(attr, stream);
      case Attributes(_, _, _, _, _, _, _) => ok := AttributesProp(attr, stream);
    }

    /** `unserialize`: properties up to the end tag or the end of the stream. */
    method Unserialize(stream: PropStream) returns (ok: bool)
      requires stream.Valid()
      modifies this, stream`p
      ensures stream.Valid()
      ensures Outcome(ok, Value(), stream.Rest()) == ConditionCodec.Unserialize(old(Value()), old(stream.Rest()))
    {
      hide Width;
      hide Absorb;
      var attr: seq<byte>;
      ok, attr := stream.Read(1);
      while ok && attr[0] != CONDITIONATTR_END
        invariant stream.Valid() && (ok ==> |attr| == 1)
        invariant !ok ==> stream.Rest() == []
        invariant ConditionCodec.Unserialize(Value(), (if ok then attr else []) + stream.Rest())
                  == ConditionCodec.Unserialize(old(Value()), old(stream.Rest()))
        decreases |stream.Rest()|, ok
      {
        ghost var c, b := Value(), stream.Rest();
        assert (attr + b)[1..] == b;
        var good := UnserializeProp(attr[0], stream);
        if !good { return false; }
        ghost var b' := stream.Rest();
        ok, attr := stream.Read(1);
        assert (if ok then attr else []) + stream.Rest() == b';
      }
      assert ok ==> (attr + stream.Rest())[1..] == stream.Rest();
      ok := true;
    }

    // ---------------------------------------------------------------- writing

    method WriteHeader(out: PropWriteStream)
      modifies out
      ensures out.buffer == old(out.buffer) + Header(Value())
    {
      hide Le32;
      hide Tagged;
      ghost var b := out.buffer;
      ghost var t1 := WriteTagged(out, CONDITIONATTR_TYPE, Le32(ctype));
      ghost var t2 := WriteTagged(out, CONDITIONATTR_ID, LeInt(id));
      AppendAssoc(b, t1, t2);
      ghost var t3 := WriteTagged(out, CONDITIONATTR_TICKS, LeInt(ticks));
      AppendAssoc(b, t1 + t2, t3);
      ghost var t4 := WriteTagged(out, CONDITIONATTR_ISBUFF, [Flag(isBuff)]);
      AppendAssoc(b, t1 + t2 + t3, t4);
      ghost var t5 := WriteTagged(out, CONDITIONATTR_SUBID, Le32(subId));
      AppendAssoc(b, t1 + t2 + t3 + t4, t5);
      ghost var t6 := WriteTagged(out, CONDITIONATTR_ISAGGRESSIVE, [Flag(aggressive)]);
      AppendAssoc(b, t1 + t2 + t3 + t4 + t5, t6);
    }

    static lemma AppendAssoc(a: seq<byte>, b: seq<byte>, c: seq<byte>)
      ensures (a + b) + c == a + (b + c)
    {
    }

    /** A tag, then its value. */
    static method WriteTagged(out: PropWriteStream, tag: byte, payload: seq<byte>) returns (ghost written: seq<byte>)
      modifies out
      ensures written == Tagged(tag, payload) && out.buffer == old(out.buffer) + written
    {
      out.Write8(tag);
      out.WriteRaw(payload);
      written := Tagged(tag, payload);
    }

    /** `serialize`. */
    method Serialize(out: PropWriteStream)
      requires CondOk(Value())
      modifies out
      ensures out.buffer == old(out.buffer) + Encode(Value())
    {
      hide PropBytes;
      hide Header;
      hide Props;
      hide CondOk;
      BodyHasFront(Value());
      WriteHeader(out);
      WriteBody(out);
      AppendAssoc(old(out.buffer), Header(Value()), PropBytes(Props(body)));
    }

    /** What each class writes after the header. */
    method WriteBody(out: PropWriteStream)
      requires body.Damage? ==> body.front <= |body.list|
      modifies out
      ensures out.buffer == old(out.buffer) + PropBytes(Props(body))
    {
      hide PropBytes;
      hide Le32;
      match body
      case Plain => NoPropBytes();
      case Damage(_, _, _, _) => WriteDamage(out);
      case Attributes(_, _, _, _, _, _, _) => WriteAttributes(out);
      case Speed(speedDelta, minA, minB, maxA, maxB) =>
        WriteProps(out, [Prop(CONDITIONATTR_SPEEDDELTA, LeInt(speedDelta)), Prop(CONDITIONATTR_FORMULA_MINA, minA),
                         Prop(CONDITIONATTR_FORMULA_MINB, minB), Prop(CONDITIONATTR_FORMULA_MAXA, maxA),
                         Prop(CONDITIONATTR_FORMULA_MAXB, maxB)]);
      case Regeneration(healthTicks, healthGain, manaTicks, manaGain) =>
        WriteProps(out, [Prop(CONDITIONATTR_HEALTHTICKS, Le32(healthTicks)), Prop(CONDITIONATTR_HEALTHGAIN, Le32(healthGain)),
                         Prop(CONDITIONATTR_MANATICKS, Le32(manaTicks)), Prop(CONDITIONATTR_MANAGAIN, Le32(manaGain))]);
      case Soul(soulTicks, soulGain) =>
        WriteProps(out, [Prop(CONDITIONATTR_SOULGAIN, Le32(soulGain)), Prop(CONDITIONATTR_SOULTICKS, Le32(soulTicks))]);
      case Light(color, level, lightTicks, lightInterval) =>
        WriteProps(out, [Prop(CONDITIONATTR_LIGHTCOLOR, Le32(color)), Prop(CONDITIONATTR_LIGHTLEVEL, Le32(level)),
                         Prop(CONDITIONATTR_LIGHTTICKS, Le32(lightTicks)), Prop(CONDITIONATTR_LIGHTINTERVAL, Le32(lightInterval))]);
      case Outfit(outfit) =>
        WriteProps(out, [Prop(CONDITIONATTR_OUTFIT, outfit)]);
    }

    method WriteDamage(out: PropWriteStream)
      requires body.Damage? && body.front <= |body.list|
      modifies out
      ensures out.buffer == old(out.buffer) + PropBytes(Props(body))
    {
      hide PropBytes;
      hide Le32;
      hide IntervalProps;
      var first := [Prop(CONDITIONATTR_DELAYED, [Flag(body.delayed)]), Prop(CONDITIONATTR_PERIODDAMAGE, LeInt(body.periodDamage))];
      ghost var rest := IntervalProps(body.list[body.front..]);
      WriteProps(out, first);
      WriteIntervals(out, body.list, body.front);
      PropBytesConcat(first, rest);
      AppendAssoc(old(out.buffer), PropBytes(first), PropBytes(rest));
    }

    method WriteAttributes(out: PropWriteStream)
      requires body.Attributes?
      modifies out
      ensures out.buffer == old(out.buffer) + PropBytes(Props(body))
    {
      hide PropBytes;
      hide IntProps;
      ghost var b, ps1, ps2 := out.buffer, IntProps(CONDITIONATTR_SKILLS, body.skills), IntProps(CONDITIONATTR_STATS, body.stats);
      var ps3 := [Prop(CONDITIONATTR_DISABLEDEFENSE, [Flag(body.disableDefense)])];
      ghost var ps4 := IntProps(CONDITIONATTR_SPECIALSKILLS, body.specialSkills);
      WriteInts(out, CONDITIONATTR_SKILLS, body.skills);
      WriteInts(out, CONDITIONATTR_STATS, body.stats);
      PropBytesConcat(ps1, ps2);
      AppendAssoc(b, PropBytes(ps1), PropBytes(ps2));
      WriteProps(out, ps3);
      PropBytesConcat(ps1 + ps2, ps3);
      AppendAssoc(b, PropBytes(ps1 + ps2), PropBytes(ps3));
      WriteInts(out, CONDITIONATTR_SPECIALSKILLS, body.specialSkills);
      PropBytesConcat(ps1 + ps2 + ps3, ps4);
      AppendAssoc(b, PropBytes(ps1 + ps2 + ps3), PropBytes(ps4));
    }

    /** A run of tags, each followed by its value. */
    static method WriteProps(out: PropWriteStream, ps: seq<Prop>)
      modifies out
      ensures out.buffer == old(out.buffer) + PropBytes(ps)
    {
      hide PropBytes;
      hide Tagged;
      ghost var b := out.buffer;
      NoPropBytes();
      for i := 0 to |ps|
        invariant out.buffer == b + PropBytes(ps[..i])
      {
        PropBytesPush(ps[..i], ps[i]);
        assert ps[..i + 1] == ps[..i] + [ps[i]];
        ghost var written := WriteTagged(out, ps[i].tag, ps[i].payload);
        AppendAssoc(b, PropBytes(ps[..i]), written);
      }
      assert ps[..|ps|] == ps;
    }

    static lemma NoPropBytes()
      ensures PropBytes([]) == []
    {
    }

    static lemma IntPropsEnd(tag: byte, values: seq<int32>, i: nat)
      requires i <= |values|
      ensures if i < |values| then IntProps(tag, values[i..]) == [Prop(tag, LeInt(values[i]))] + IntProps(tag, values[i + 1..])
              else IntProps(tag, values[i..]) == []
    {
      if i < |values| { assert values[i..][1..] == values[i + 1..]; }
    }

    /** The loop over an array of values. */
    static method WriteInts(out: PropWriteStream, tag: byte, values: seq<int32>)
      modifies out
      ensures out.buffer == old(out.buffer) + PropBytes(IntProps(tag, values))
    {
      hide PropBytes;
      hide IntProps;
      hide Tagged;
      ghost var b := out.buffer;
      NoPropBytes();
      ghost var ps: seq<Prop> := [];
      assert values[0..] == values;
      for i := 0 to |values|
        invariant out.buffer == b + PropBytes(ps) && ps + IntProps(tag, values[i..]) == IntProps(tag, values)
      {
        PropBytesPush(ps, Prop(tag, LeInt(values[i])));
        IntPropsEnd(tag, values, i);
        ghost var written := WriteTagged(out, tag, LeInt(values[i]));
        AppendAssoc(b, PropBytes(ps), written);
        ps := ps + [Prop(tag, LeInt(values[i]))];
      }
      IntPropsEnd(tag, values, |values|);
      assert ps + [] == ps;
    }

    static lemma IntervalPropsEnd(list: seq<Interval>, i: nat)
      requires i <= |list|
      ensures if i < |list| then
                IntervalProps(list[i..]) == [Prop(CONDITIONATTR_INTERVALDATA, IntervalBytes(list[i]))] + IntervalProps(list[i + 1..])
              else IntervalProps(list[i..]) == []
    {
      if i < |list| { assert list[i..][1..] == list[i + 1..]; }
    }

    /** The loop over the damage that is still to come. */
    static method WriteIntervals(out: PropWriteStream, list: seq<Interval>, front: nat)
      requires front <= |list|
      modifies out
      ensures out.buffer == old(out.buffer) + PropBytes(IntervalProps(list[front..]))
    {
      hide PropBytes;
      hide IntervalProps;
      hide IntervalBytes;
      hide Tagged;
      ghost var b := out.buffer;
      NoPropBytes();
      ghost var ps: seq<Prop> := [];
      for i := front to |list|
        invariant out.buffer == b + PropBytes(ps) && ps + IntervalProps(list[i..]) == IntervalProps(list[front..])
      {
        PropBytesPush(ps, Prop(CONDITIONATTR_INTERVALDATA, IntervalBytes(list[i])));
        IntervalPropsEnd(list, i);
        ghost var written := WriteTagged(out, CONDITIONATTR_INTERVALDATA, IntervalBytes(list[i]));
        AppendAssoc(b, PropBytes(ps), written);
        ps := ps + [Prop(CONDITIONATTR_INTERVALDATA, IntervalBytes(list[i]))];
      }
      IntervalPropsEnd(list, |list|);
      assert ps + [] == ps;
    }
  }

  /** One tag and its value, as `createCondition` expects them. */
  method ReadField(stream: PropStream, tag: byte, n: nat) returns (ok: bool, v: seq<byte>)
    requires stream.Valid()
    modifies stream`p
    ensures stream.Valid()
    ensures var r := ReadTagged(old(stream.Rest()), tag, n);
            ok == r.Some? && (ok ==> v == r.value.0 && stream.Rest() == r.value.1)
  {
    var attr: seq<byte>;
    ok, attr := stream.Read(1);
    if !ok || attr[0] != tag { return false, []; }
    assert old(stream.Rest())[1..] == stream.Rest();
    ok, v := stream.Read(n);
  }

  /** `createCondition` from a stream. */
  method CreateCondition(stream: PropStream) returns (c: Condition?)
    requires stream.Valid()
    modifies stream`p
    ensures stream.Valid() && (c != null ==> fresh(c))
    ensures var made := Create(old(stream.Rest()));
            (c != null <==> made.Some?) && (c != null ==> (c.Value(), stream.Rest()) == made.value)
  {
    hide ReadTagged;
    hide FromLe32;
    hide ClassOf;
    hide NewBody;
    var ok, ctype, id, ticks, buff, subId, aggressive;
    ok, ctype := ReadField(stream, CONDITIONATTR_TYPE, 4);
    if !ok { return null; }
    ok, id := ReadField(stream, CONDITIONATTR_ID, 4);
    if !ok { return null; }
    ok, ticks := ReadField(stream, CONDITIONATTR_TICKS, 4);
    if !ok { return null; }
    ok, buff := ReadField(stream, CONDITIONATTR_ISBUFF, 1);
    if !ok { return null; }
    ok, subId := ReadField(stream, CONDITIONATTR_SUBID, 4);
    if !ok { return null; }
    ok, aggressive := ReadField(stream, CONDITIONATTR_ISAGGRESSIVE, 1);
    if !ok { return null; }
    var class_ := ClassOf(FromLe32(ctype));
    if class_ == NoClass { return null; }
    c := new Condition(Cond(FromLe32(ctype), Signed8(FromLe32(id)),
                            if class_ == DamageClass then 0 else Signed(FromLe32(ticks)),
                            buff[0] != 0, FromLe32(subId), aggressive[0] != 0, NewBody(class_)));
  }

  ghost function Values(cs: seq<Condition>): (r: seq<Cond>)
    reads cs
    ensures |r| == |cs| && forall i :: 0 <= i < |cs| ==> r[i] == cs[i].Value()
  {
    if cs == [] then [] else Values(cs[..|cs| - 1]) + [cs[|cs| - 1].Value()]
  }

  ghost predicate AllOk(vs: seq<Cond>) {
    forall v :: v in vs ==> CondOk(v)
  }

  /** The conditions part of `savePlayer`. */
  method Save(conditions: seq<Condition>) returns (out: PropWriteStream)
    requires AllOk(Values(conditions))
    ensures fresh(out) && out.buffer == SaveAll(Values(conditions))
  {
    hide CondOk;
    hide Encode;
    hide SaveAll;
    out := new PropWriteStream();
    ghost var vs := Values(conditions);
    SaveAllStep(vs, |vs|);
    for i := 0 to |conditions|
      invariant vs == Values(conditions) && AllOk(vs[..i]) && out.buffer == SaveAll(vs[..i])
    {
      var condition := conditions[i];
      SaveAllStep(vs, i);
      ghost var b := out.buffer;
      if condition.ticks != -1 && (condition.id == -1 || condition.id == 0 || condition.ctype == CONDITION_MUTED) {
        condition.Serialize(out);
        out.Write8(CONDITIONATTR_END);
        Condition.AppendAssoc(b, Encode(vs[i]), [CONDITIONATTR_END]);
      }
    }
  }

  lemma SaveAllStep(vs: seq<Cond>, i: nat)
    requires i <= |vs| && AllOk(vs)
    ensures AllOk(vs[..i]) && SaveAll([]) == [] && vs[..0] == [] && vs[..|vs|] == vs
    ensures i < |vs| ==> AllOk(vs[..i + 1]) && CondOk(vs[i])
    ensures i < |vs| ==>
              SaveAll(vs[..i + 1]) == SaveAll(vs[..i]) + if IsPersistent(vs[i]) then Encode(vs[i]) + [CONDITIONATTR_END] else []
  {
    hide CondOk;
    hide Encode;
    hide IsPersistent;
    if i < |vs| {
      assert vs[..i + 1] == vs[..i] + [vs[i]];
      SaveAllPush(vs[..i], vs[i]);
    }
  }

  lemma {:induction false} SaveAllPush(vs: seq<Cond>, v: Cond)
    requires AllOk(vs) && CondOk(v)
    ensures AllOk(vs + [v])
    ensures SaveAll(vs + [v]) == SaveAll(vs) + if IsPersistent(v) then Encode(v) + [CONDITIONATTR_END] else []
  {
    hide CondOk;
    hide Encode;
    hide IsPersistent;
    if vs == [] {
      assert [] + [v] == [v] && [v][1..] == [];
    } else {
      assert (vs + [v])[1..] == vs[1..] + [v];
      SaveAllPush(vs[1..], v);
    }
  }

  ghost predicate Hold(cs: seq<Condition>, vs: seq<Cond>)
    reads cs
  {
    |cs| == |vs| && forall i :: 0 <= i < |cs| ==> cs[i].Value() == vs[i]
  }

  /** The conditions part of `loadPlayer`. */
  method Load(stream: PropStream) returns (out: seq<Condition>)
    requires stream.Valid()
    modifies stream`p
    ensures forall c :: c in out ==> fresh(c)
    ensures Values(out) == LoadAll(old(stream.Rest()))
  {
    hide Create;
    hide ConditionCodec.Unserialize;
    hide LoadAll;
    hide Values;
    ghost var b := stream.Rest();
    ghost var vs: seq<Cond>;
    out, vs := [], [];
    var condition := CreateCondition(stream);
    while condition != null
      invariant stream.Valid()
      invariant forall i :: 0 <= i < |out| ==> fresh(out[i]) && out[i] != condition
      invariant condition != null ==> fresh(condition)
      invariant condition != null <==> Create(b).Some?
      invariant condition != null ==> Create(b).value == (condition.Value(), stream.Rest())
      invariant Hold(out, vs) && vs + LoadAll(b) == LoadAll(old(stream.Rest()))
      decreases |b|
    {
      LoadStep(b, vs);
      var ok := condition.Unserialize(stream);
      if ok {
        out, vs := out + [condition], vs + [condition.Value()];
      }
      b := stream.Rest();
      condition := CreateCondition(stream);
    }
    LoadStep(b, vs);
    assert Values(out) == vs;
  }

  /** A player who logs out and in again: what was saved is loaded. */
  method Relog(conditions: seq<Condition>) returns (back: seq<Condition>, ghost at: seq<nat>)
    requires AllOk(Values(conditions))
    ensures forall c :: c in back ==> fresh(c)
    ensures |back| == |at| && (forall j, k :: 0 <= j < k < |at| ==> at[j] < at[k]) && (forall k :: 0 <= k < |at| ==> at[k] < |conditions|)
    ensures forall k :: 0 <= k < |at| ==>
              CondOk(conditions[at[k]].Value()) && back[k].Value() == Restored(conditions[at[k]].Value())
    ensures forall i :: 0 <= i < |conditions| ==>
              (i in at <==> conditions[i].ticks != -1
                            && (conditions[i].id == 0 || conditions[i].id == -1 || conditions[i].ctype == 0x1_0000))
  {
    hide Restored;
    hide CondOk;
    hide Encode;
    hide LoadAll;
    hide SaveAll;
    ghost var vs := Values(conditions);
    var out := Save(conditions);
    var stream := new PropStream(out.buffer);
    back := Load(stream);
    at := ComesBackExactly(vs);
    assert forall i :: 0 <= i < |conditions| ==> vs[i] == conditions[i].Value() && vs[i] in vs;
    assert Values(back) == LoadAll(SaveAll(vs));
  }

  lemma LoadStep(b: seq<byte>, vs: seq<Cond>)
    ensures match Create(b)
            case None => vs + LoadAll(b) == vs
            case Some(made) =>
              var o := ConditionCodec.Unserialize(made.0, made.1);
              vs + LoadAll(b) == (if o.ok then vs + [o.c] else vs) + LoadAll(o.rest) && |o.rest| < |b|
  {
    hide Create;
    hide ConditionCodec.Unserialize;
    hide LoadAll;
    LoadAllOnce(b);
    match Create(b)
    case None => AppendNone(vs);
    case Some(made) =>
      var o := ConditionCodec.Unserialize(made.0, made.1);
      AppendSome(vs, if o.ok then [o.c] else [], LoadAll(o.rest));
      AppendNone(vs);
  }

  lemma LoadAllOnce(b: seq<byte>)
    ensures LoadAll(b) ==
            match Create(b)
            case None => []
            case Some(made) =>
              var o := ConditionCodec.Unserialize(made.0, made.1);
              (if o.ok then [o.c] else []) + LoadAll(o.rest)
  {
    hide Create;
    hide ConditionCodec.Unserialize;
  }

  lemma AppendNone(vs: seq<Cond>)
    ensures vs + [] == vs
  {
  }

  lemma AppendSome(a: seq<Cond>, b: seq<Cond>, c: seq<Cond>)
    ensures a + (b + c) == (a + b) + c
  {
  }
}
