/** A damage condition as a stream of tagged values. */
module ConditionStream {
  import opened Bytes
  import opened PropStreams
  import opened DamageCondition

  const CONDITIONATTR_TYPE: byte := 1
  const CONDITIONATTR_ID: byte := 2
  const CONDITIONATTR_TICKS: byte := 3
  const CONDITIONATTR_DELAYED: byte := 8
  const CONDITIONATTR_OWNER: byte := 9
  const CONDITIONATTR_INTERVALDATA: byte := 10

  type int32 = n: int | -0x8000_0000 <= n < 0x8000_0000
  type uint32 = n: int | 0 <= n < UINT32

  datatype Condition = Condition(typ: int32, id: int32, ticks: int32, delayed: bool, owner: uint32,
                                 rounds: seq<IntervalInfo>)

  // ---------------------------------------------------------------- writing

  function Put32(n: int): (s: seq<byte>)
    ensures |s| == 4
  {
    Le(n % UINT32, 4)
  }

  function Get32(s: seq<byte>): int32 {
    Int32(FromLe(s))
  }

  function PutRound(r: IntervalInfo): (s: seq<byte>)
    ensures |s| == 12
  {
    Put32(r.timeLeft) + Put32(r.value) + Put32(r.interval)
  }

  function GetRound(s: seq<byte>): IntervalInfo
    requires |s| == 12
  {
    IntervalInfo(Get32(s[..4]), Get32(s[8..]), Get32(s[4..8]))
  }

  function PutRounds(rounds: seq<IntervalInfo>): seq<byte> {
    if rounds == [] then []
    else [CONDITIONATTR_INTERVALDATA] + PutRound(rounds[0]) + PutRounds(rounds[1..])
  }

  /** `ConditionDamage::serialize` */
  function Serialize(c: Condition): seq<byte> {
    [CONDITIONATTR_TYPE] + Put32(c.typ) + ([CONDITIONATTR_ID] + Put32(c.id) + ([CONDITIONATTR_TICKS] + Put32(c.ticks)
    + ([CONDITIONATTR_DELAYED] + [if c.delayed then 1 else 0] + ([CONDITIONATTR_OWNER] + Put32(c.owner)
    + PutRounds(c.rounds)))))
  }

  // ---------------------------------------------------------------- reading

  function Width(tag: byte): nat {
    if tag == CONDITIONATTR_DELAYED then 1
    else if tag == CONDITIONATTR_INTERVALDATA then 12
    else if tag == CONDITIONATTR_TYPE || tag == CONDITIONATTR_ID || tag == CONDITIONATTR_TICKS
            || tag == CONDITIONATTR_OWNER then 4
    else 0
  }

  /** `unserializeProp`, once the bytes of the value are there. */
  function SetValue(c: Condition, tag: byte, s: seq<byte>): Condition
    requires |s| == Width(tag)
  {
    if tag == CONDITIONATTR_TYPE then c.(typ := Get32(s))
    else if tag == CONDITIONATTR_ID then c.(id := Get32(s))
    else if tag == CONDITIONATTR_TICKS then c.(ticks := Get32(s))
    else if tag == CONDITIONATTR_DELAYED then c.(delayed := s[0] != 0)
    else if tag == CONDITIONATTR_OWNER then c.(owner := FromLe(s) % UINT32)
    else if tag == CONDITIONATTR_INTERVALDATA then c.(rounds := c.rounds + [GetRound(s)])
    else c
  }

  /** `unserialize`: values are read until the stream ends or one cannot be read. */
  function Parse(c: Condition, s: seq<byte>): (bool, Condition)
    decreases |s|
  {
    if s == [] then (true, c)
    else
      var w := Width(s[0]);
      if w == 0 || |s| - 1 < w then (false, c) else Parse(SetValue(c, s[0], s[1..1 + w]), s[1 + w..])
  }

  // ---------------------------------------------------------------- the round trip

  lemma Back32(n: int)
    ensures Get32(Put32(n)) == Int32(n) && FromLe(Put32(n)) == n % UINT32
  {
    Sizes();
    LeBack(n % UINT32, 4);
  }

  lemma InRange(n: int32)
    ensures Int32(n) == n
  {
  }

  /** A field at the front of a stream. */
  lemma ReadField(c: Condition, tag: byte, value: seq<byte>, rest: seq<byte>)
    requires Width(tag) == |value| > 0
    ensures Parse(c, [tag] + value + rest) == Parse(SetValue(c, tag, value), rest)
  {
    hide SetValue, Width;
    var s := [tag] + value + rest;
    assert s[1..1 + |value|] == value && s[1 + |value|..] == rest;
  }

  /** A tag that is not known, or whose value is cut off, ends the reading with an error. */
  lemma Unreadable(c: Condition, tag: byte, s: seq<byte>)
    requires tag !in {1, 2, 3, 8, 9, 10} || |s| < 1 || (tag in {1, 2, 3, 9} && |s| < 4) || (tag == 10 && |s| < 12)
    ensures Parse(c, [tag] + s) == (false, c)
  {
  }

  ghost predicate RoundOk(r: IntervalInfo) {
    Int32(r.timeLeft) == r.timeLeft && Int32(r.value) == r.value && Int32(r.interval) == r.interval
  }

  lemma RoundBack(r: IntervalInfo)
    requires RoundOk(r)
    ensures GetRound(PutRound(r)) == r
  {
    hide Put32, Get32;
    Back32(r.timeLeft);
    Back32(r.value);
    Back32(r.interval);
    var s := PutRound(r);
    assert s[..4] == Put32(r.timeLeft) && s[4..8] == Put32(r.value) && s[8..] == Put32(r.interval);
  }

  lemma {:induction false} ReadRounds(c: Condition, rounds: seq<IntervalInfo>)
    requires forall i :: 0 <= i < |rounds| ==> RoundOk(rounds[i])
    ensures Parse(c, PutRounds(rounds)) == (true, c.(rounds := c.rounds + rounds))
    decreases |rounds|
  {
    hide PutRound, GetRound, Put32, Get32, RoundOk;
    if rounds == [] {
      assert c.rounds + [] == c.rounds;
    } else {
      ReadField(c, CONDITIONATTR_INTERVALDATA, PutRound(rounds[0]), PutRounds(rounds[1..]));
      RoundBack(rounds[0]);
      var d := c.(rounds := c.rounds + [rounds[0]]);
      ReadRounds(d, rounds[1..]);
      assert c.rounds + [rounds[0]] + rounds[1..] == c.rounds + rounds;
    }
  }

  /** A new condition that reads what another has written becomes that condition, its rounds in order. */
  lemma ParseSerialize(made: Condition, c: Condition)
    requires made.rounds == [] && forall i :: 0 <= i < |c.rounds| ==> RoundOk(c.rounds[i])
    ensures Parse(made, Serialize(c)) == (true, c)
  {
    hide Parse, Put32, Get32, PutRounds, PutRound, GetRound, FromLe, Int32, RoundOk;
    var s5 := PutRounds(c.rounds);
    var s4 := [CONDITIONATTR_OWNER] + Put32(c.owner) + s5;
    var s3 := [CONDITIONATTR_DELAYED] + [if c.delayed then 1 else 0] + s4;
    var s2 := [CONDITIONATTR_TICKS] + Put32(c.ticks) + s3;
    var s1 := [CONDITIONATTR_ID] + Put32(c.id) + s2;
    var x1 := made.(typ := c.typ);
    var x2 := x1.(id := c.id);
    var x3 := x2.(ticks := c.ticks);
    var x4 := x3.(delayed := c.delayed);
    var x5 := x4.(owner := c.owner);
    Back32(c.typ);
    Back32(c.id);
    Back32(c.ticks);
    Back32(c.owner);
    InRange(c.typ);
    InRange(c.id);
    InRange(c.ticks);
    ReadField(made, CONDITIONATTR_TYPE, Put32(c.typ), s1);
    ReadField(x1, CONDITIONATTR_ID, Put32(c.id), s2);
    ReadField(x2, CONDITIONATTR_TICKS, Put32(c.ticks), s3);
    ReadField(x3, CONDITIONATTR_DELAYED, [if c.delayed then 1 else 0], s4);
    ReadField(x4, CONDITIONATTR_OWNER, Put32(c.owner), s5);
    ReadRounds(x5, c.rounds);
    assert [] + c.rounds == c.rounds;
  }

  /** The stream of a condition with one round: of a round, the time left comes first, then the value and the interval. */
  lemma OneRound()
    ensures Serialize(Condition(1, -1, 300, true, 258, [IntervalInfo(2, 9, -5)]))
            == [1] + [1, 0, 0, 0] + ([2] + [255, 255, 255, 255] + ([3] + [44, 1, 0, 0] + ([8] + [1] + ([9] + [2, 1, 0, 0]
               + ([10] + ([2, 0, 0, 0] + [251, 255, 255, 255] + [9, 0, 0, 0]))))))
  {
    hide Le;
    var r := IntervalInfo(2, 9, -5);
    assert PutRounds([r]) == [10] + PutRound(r) + PutRounds([]);
    Bytes4(1, 0, 0, 0);
    Bytes4(255, 255, 255, 255);
    Bytes4(44, 1, 0, 0);
    Bytes4(2, 1, 0, 0);
    Bytes4(2, 0, 0, 0);
    Bytes4(251, 255, 255, 255);
    Bytes4(9, 0, 0, 0);
  }

  // ---------------------------------------------------------------- as the server does it

  /** `serialize`, field by field. */
  method SerializeCondition(c: Condition, out: PropWriteStream)
    requires out.Valid()
    modifies out, out.buffer
    ensures out.Valid() && (out.buffer == old(out.buffer) || fresh(out.buffer))
    ensures out.Contents() == old(out.Contents()) + Serialize(c)
  {
    hide *;
    ghost var was := out.Contents();
    AddField(out, CONDITIONATTR_TYPE, Put32(c.typ));
    AddField(out, CONDITIONATTR_ID, Put32(c.id));
    AddField(out, CONDITIONATTR_TICKS, Put32(c.ticks));
    AddField(out, CONDITIONATTR_DELAYED, [if c.delayed then 1 else 0]);
    AddField(out, CONDITIONATTR_OWNER, Put32(c.owner));
    ghost var before := out.Contents();
    NoRounds(before);
    var i := 0;
    while i < |c.rounds|
      invariant i <= |c.rounds| && out.Valid() && (out.buffer == old(out.buffer) || fresh(out.buffer))
      invariant out.Contents() == before + PutRounds(c.rounds[..i])
    {
      ghost var mid := out.Contents();
      AddField(out, CONDITIONATTR_INTERVALDATA, PutRound(c.rounds[i]));
      MoreRounds(c.rounds, i);
      ConcatAssoc(before, PutRounds(c.rounds[..i]), [CONDITIONATTR_INTERVALDATA] + PutRound(c.rounds[i]));
      i := i + 1;
    }
    AllRounds(c.rounds);
    SerializeIs(was, c);
  }

  lemma NoRounds(s: seq<byte>)
    ensures s + PutRounds([]) == s
    ensures forall rounds: seq<IntervalInfo> :: PutRounds(rounds[..0]) == []
  {
  }

  lemma AllRounds(rounds: seq<IntervalInfo>)
    ensures rounds[..|rounds|] == rounds
  {
  }

  lemma {:induction false} MoreRounds(rounds: seq<IntervalInfo>, i: nat)
    requires i < |rounds|
    ensures PutRounds(rounds[..i + 1])
            == PutRounds(rounds[..i]) + ([CONDITIONATTR_INTERVALDATA] + PutRound(rounds[i]))
    decreases i
  {
    hide PutRound;
    if i == 0 {
      assert rounds[..1] == [rounds[0]];
      assert rounds[..1][1..] == [] && PutRounds([]) == [];
    } else {
      MoreRounds(rounds[1..], i - 1);
      assert rounds[..i + 1][1..] == rounds[1..][..i] && rounds[..i][1..] == rounds[1..][..i - 1];
      var first := [CONDITIONATTR_INTERVALDATA] + PutRound(rounds[0]);
      ConcatAssoc(first, PutRounds(rounds[1..][..i - 1]), [CONDITIONATTR_INTERVALDATA] + PutRound(rounds[i]));
    }
  }

  lemma SerializeIs(was: seq<byte>, c: Condition)
    ensures was + ([CONDITIONATTR_TYPE] + Put32(c.typ)) + ([CONDITIONATTR_ID] + Put32(c.id))
            + ([CONDITIONATTR_TICKS] + Put32(c.ticks)) + ([CONDITIONATTR_DELAYED] + [if c.delayed then 1 else 0])
            + ([CONDITIONATTR_OWNER] + Put32(c.owner)) + PutRounds(c.rounds)
            == was + Serialize(c)
  {
    hide Put32, PutRounds;
  }

  /** `unserialize` */
  method UnserializeCondition(made: Condition, input: PropStream) returns (ok: bool, c: Condition)
    requires input.Valid()
    modifies input
    ensures input.Valid() && (ok, c) == Parse(made, old(input.Rest()))
  {
    hide *;
    ghost var all := input.Rest();
    c := made;
    while true
      invariant input.Valid() && Parse(c, input.Rest()) == Parse(made, all)
      decreases |input.Rest()|
    {
      ghost var s := input.Rest();
      ParseOnce(c, s);
      var more, tag := input.GetBytes(1);
      if !more {
        return true, c;
      }
      if Width(tag[0]) == 0 {
        return false, c;
      }
      var value;
      ok, value := input.GetBytes(Width(tag[0]));
      if !ok {
        return;
      }
      c := SetValue(c, tag[0], value);
    }
  }

  lemma ParseOnce(c: Condition, s: seq<byte>)
    ensures match Take(s, 1)
            case None => Parse(c, s) == (true, c)
            case Some(one) =>
              && |one.0| == 1 && |one.1| < |s|
              && match Take(one.1, Width(one.0[0]))
                 case None => Parse(c, s) == (false, c)
                 case Some(two) =>
                   && |two.0| == Width(one.0[0]) && |two.1| <= |one.1|
                   && Parse(c, s) == if Width(one.0[0]) == 0 then (false, c)
                                     else Parse(SetValue(c, one.0[0], two.0), two.1)
  {
    hide SetValue, Width;
    if s != [] {
      var w := Width(s[0]);
      if |s| - 1 >= w {
        assert s[1..][..w] == s[1..1 + w] && s[1..][w..] == s[1 + w..];
      }
    }
  }
}
