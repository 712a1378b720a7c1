/** A damage condition: rounds of damage that are dealt as time passes, until the condition expires. */
module DamageCondition {
  import opened Bytes
  import opened DamageList

  const ROUND := 2000

  datatype IntervalInfo = IntervalInfo(timeLeft: int, interval: int, value: int)

  /** The rounds still to come, the time left, and the damage dealt so far. */
  datatype Ailment = Ailment(rounds: seq<IntervalInfo>, ticks: int, dealt: seq<int>)

  // ---------------------------------------------------------------- one tick

  /** What a tick does to the first round; `remove` is what the creature says about removing rounds. */
  function TickRounds(a: Ailment, interval: int, remove: bool): Ailment {
    if a.rounds == [] then a
    else
      var first := a.rounds[0].(timeLeft := a.rounds[0].timeLeft - interval);
      if first.timeLeft > 0 then a.(rounds := [first] + a.rounds[1..])
      else a.(rounds := if remove then a.rounds[1..] else [first.(timeLeft := first.interval)] + a.rounds[1..],
              dealt := a.dealt + [first.value])
  }

  /** `executeCondition`: whether the condition goes on, and what it is then. */
  function Tick(a: Ailment, interval: int, remove: bool): (bool, Ailment) {
    var b := TickRounds(a, interval, remove);
    var passed := if a.rounds != [] && !remove then 0 else interval;
    if b.ticks == -1 then (true, b) else (b.ticks - passed > 0, b.(ticks := b.ticks - passed))
  }

  function Round(value: int): IntervalInfo {
    IntervalInfo(ROUND, ROUND, value)
  }

  function Rounds(values: seq<int>): seq<IntervalInfo> {
    seq(|values|, i requires 0 <= i < |values| => Round(values[i]))
  }

  function Minus(x: int): int {
    -x
  }

  function Negated(s: seq<nat>): seq<int> {
    seq(|s|, i requires 0 <= i < |s| => Minus(s[i]))
  }

  /** The start value `start` that comes of the one given: no more than the greatest damage; and if none is given, the
      least that is not below a twentieth of the amount, and 1 at least. */
  predicate Starts(amount: int, given: int, max: int, start: int) {
    if given > max then start == max
    else if given == 0 then start >= 1 && amount <= 20 * start && (start == 1 || 20 * (start - 1) < amount)
    else start == given
  }

  class ConditionDamage {
    var damageList: seq<IntervalInfo>
    var ticks: int
    var delayed: bool
    var maxDamage: int
    var startDamage: int
    var dealt: seq<int>

    ghost function State(): Ailment
      reads this
    {
      Ailment(damageList, ticks, dealt)
    }

    constructor (delayed: bool, maxDamage: int, startDamage: int)
      ensures State() == Ailment([], 0, []) && this.delayed == delayed
      ensures this.maxDamage == maxDamage && this.startDamage == startDamage
    {
      damageList, ticks, dealt := [], 0, [];
      this.delayed, this.maxDamage, this.startDamage := delayed, maxDamage, startDamage;
    }

    /** `addDamage` */
    method AddDamage(rounds: nat, time: int, value: int)
      modifies this`damageList, this`ticks
      ensures damageList == old(damageList) + seq(rounds, i => IntervalInfo(time, time, value))
      ensures ticks == old(ticks) + rounds * time
    {
      var i := 0;
      while i < rounds
        invariant i <= rounds
        invariant damageList == old(damageList) + seq(i, j => IntervalInfo(time, time, value))
        invariant ticks == old(ticks) + i * time
      {
        damageList := damageList + [IntervalInfo(time, time, value)];
        ticks := ticks + time;
        i := i + 1;
      }
    }

    /** `init`, with the amount that chance has chosen. */
    method Init(amount: int) returns (ok: bool)
      modifies this
      ensures delayed == old(delayed) && maxDamage == old(maxDamage) && dealt == old(dealt)
      ensures ok <==> damageList != []
      ensures old(damageList) != [] ==> State() == old(State())
      ensures old(damageList) != [] || amount == 0 ==> startDamage == old(startDamage)
      ensures old(damageList) == [] && amount == 0 ==> damageList == [] && ticks == 0
      ensures old(damageList) == [] && amount != 0 ==>
                var values := Negated(Damages(amount, startDamage));
                && Starts(amount, old(startDamage), maxDamage, startDamage)
                && damageList == Rounds(values) && ticks == ROUND * |values|
                && (damageList == [] <==> startDamage <= 0)
                && (damageList != [] ==> damageList[0].value == Minus(startDamage))
    {
      hide Rounds, Negated, Round, Starts, Damages;
      NoRounds();
      if damageList == [] {
        ticks := 0;
        if amount != 0 {
          ghost var given := startDamage;
          StartsIs(amount, given, maxDamage);
          if startDamage > maxDamage {
            startDamage := maxDamage;
          } else if startDamage == 0 {
            startDamage := Max(1, (amount + 19) / 20);
          }
          var list := GenerateDamageList(amount, startDamage);
          NoFirstRounds(list);
          var k := 0;
          while k < |list|
            invariant k <= |list| && list == Damages(amount, startDamage)
            invariant damageList == FirstRounds(list, k) && ticks == ROUND * k
            invariant Starts(amount, given, maxDamage, startDamage) && given == old(startDamage)
            invariant delayed == old(delayed) && maxDamage == old(maxDamage) && dealt == old(dealt)
          {
            AddDamage(1, ROUND, Minus(list[k]));
            NextRound(list, k);
            k := k + 1;
          }
          AllRounds(list);
          FirstIsStart(amount, startDamage);
        }
      }
      ok := damageList != [];
    }

    /** `startCondition`: unless it is delayed, the first round is dealt at once; `taken` is what `doDamage` answers
        then. */
    method StartCondition(amount: int, taken: bool) returns (ok: bool)
      modifies this
      ensures old(damageList) == [] && amount != 0 ==> Starts(amount, old(startDamage), maxDamage, startDamage)
      ensures old(damageList) == [] ==>
                var values := if amount == 0 then [] else Negated(Damages(amount, startDamage));
                && (ok <==> values != [] && (delayed || taken))
                && State() == Begun(values, delayed, old(dealt))
      ensures old(damageList) != [] ==>
                && (ok <==> delayed || taken)
                && State() == if delayed then old(State())
                              else Ailment(old(damageList)[1..], old(ticks), old(dealt) + [old(damageList)[0].value])
      ensures delayed == old(delayed) && maxDamage == old(maxDamage)
    {
      ok := Init(amount);
      if !ok {
        return;
      }
      if !delayed {
        dealt := dealt + [damageList[0].value];
        damageList := damageList[1..];
        ok := taken;
      }
    }

    /** `executeCondition` */
    method ExecuteCondition(interval: int, remove: bool) returns (on: bool)
      modifies this
      ensures (on, State()) == Tick(old(State()), interval, remove) && delayed == old(delayed)
    {
      var passed := interval;
      if damageList != [] {
        var damageInfo := damageList[0].(timeLeft := damageList[0].timeLeft - interval);
        damageList := [damageInfo] + damageList[1..];
        if damageInfo.timeLeft <= 0 {
          if remove {
            damageList := damageList[1..];
          } else {
            damageList := [damageInfo.(timeLeft := damageInfo.interval)] + damageList[1..];
          }
          dealt := dealt + [damageInfo.value];
        }
        if !remove {
          passed := 0;
        }
      }
      if ticks != -1 {
        ticks := ticks - passed;
        return ticks > 0;
      }
      return true;
    }
  }

  lemma StartsIs(amount: int, given: int, max: int)
    ensures Starts(amount, given, max,
                   if given > max then max else if given == 0 then Max(1, (amount + 19) / 20) else given)
  {
  }

  /** The first round deals the start value. */
  lemma FirstIsStart(amount: int, start: int)
    ensures var rounds := Rounds(Negated(Damages(amount, start)));
            && (rounds == [] <==> start <= 0)
            && (rounds != [] ==> rounds[0].value == Minus(start))
  {
    hide Damages;
    var list := Damages(amount, start);
    DamagesFall(amount, start);
    if start > 0 {
      assert start in list;
      var i :| 0 <= i < |list| && list[i] == start;
      assert list[0] in list;
      FallingAt(list, i);
    } else {
      NoDamages(amount, start);
    }
  }

  lemma NoDamages(amount: int, start: int)
    requires start <= 0
    ensures Damages(amount, start) == []
  {
  }

  function FirstRounds(list: seq<nat>, k: nat): seq<IntervalInfo>
    requires k <= |list|
  {
    Rounds(Negated(list[..k]))
  }

  lemma NoRounds()
    ensures Rounds([]) == []
  {
  }

  lemma NoFirstRounds(list: seq<nat>)
    ensures FirstRounds(list, 0) == []
  {
  }

  lemma NextRound(list: seq<nat>, k: nat)
    requires k < |list|
    ensures FirstRounds(list, k + 1)
            == FirstRounds(list, k) + seq(1, i => IntervalInfo(ROUND, ROUND, Minus(list[k])))
  {
  }

  lemma AllRounds(list: seq<nat>)
    ensures FirstRounds(list, |list|) == Rounds(Negated(list)) && |Negated(list)| == |list|
    ensures |Rounds(Negated(list))| == |list|
  {
    assert list[..|list|] == list;
  }

  /** The condition as it starts out with these rounds. */
  function Begun(values: seq<int>, delayed: bool, dealt: seq<int>): Ailment {
    if delayed || values == [] then Ailment(Rounds(values), ROUND * |values|, dealt)
    else Ailment(Rounds(values[1..]), ROUND * |values|, dealt + [values[0]])
  }

  // ---------------------------------------------------------------- a whole course

  function Front(flags: seq<bool>): seq<bool>
    requires flags != []
  {
    flags[..|flags| - 1]
  }

  function Last(flags: seq<bool>): bool
    requires flags != []
  {
    flags[|flags| - 1]
  }

  /** After ticks of one length; the flags say at which of them the creature lets a round go. */
  function Ticked(a: Ailment, interval: int, flags: seq<bool>): Ailment {
    if flags == [] then a else Tick(Ticked(a, interval, Front(flags)), interval, Last(flags)).1
  }

  /** The condition has gone on after each of the ticks. */
  predicate GoesOn(a: Ailment, interval: int, flags: seq<bool>) {
    flags == []
    || (GoesOn(a, interval, Front(flags)) && Tick(Ticked(a, interval, Front(flags)), interval, Last(flags)).0)
  }

  /** The last of the ticks is the first after which the condition does not go on. */
  predicate Expires(a: Ailment, interval: int, flags: seq<bool>) {
    flags != [] && GoesOn(a, interval, Front(flags))
    && !Tick(Ticked(a, interval, Front(flags)), interval, Last(flags)).0
  }

  /** How many ticks one round takes. */
  function PerRound(interval: int): int
    requires interval > 0
  {
    (ROUND + interval - 1) / interval
  }

  function Times(a: int, b: int): int {
    a * b
  }

  /** How far into a round the ticks have come. */
  function Phase(k: nat, n: int): nat
    requires n > 0
  {
    k % n
  }

  /** A round, kept or not, ends at every `n`th tick. This many of the rounds that ended were let go. */
  function Removed(flags: seq<bool>, n: int): nat
    requires n > 0
  {
    if flags == [] then 0
    else Removed(Front(flags), n) + if Phase(|flags|, n) == 0 && Last(flags) then 1 else 0
  }

  /** What those rounds dealt: a round that is kept is dealt again. */
  function Dealt(values: seq<int>, flags: seq<bool>, n: int): seq<int>
    requires n > 0
  {
    if flags == [] then []
    else
      var done := Removed(Front(flags), n);
      Dealt(values, Front(flags), n) + if Phase(|flags|, n) == 0 && done < |values| then [values[done]] else []
  }

  /** The time left: it stands still at ticks on which a round is kept. */
  function TimeLeft(ticks: int, rounds: nat, interval: int, flags: seq<bool>): int
    requires interval > 0
  {
    if flags == [] then ticks
    else
      PerRoundIs(interval);
      TimeLeft(ticks, rounds, interval, Front(flags))
      - if Last(flags) || Removed(Front(flags), PerRound(interval)) >= rounds then interval else 0
  }

  lemma PerRoundIs(interval: int)
    requires interval > 0
    ensures var n := PerRound(interval);
            n >= 1 && Times(n - 1, interval) < ROUND <= Times(n, interval)
  {
    var n := PerRound(interval);
    var r := (ROUND + interval - 1) % interval;
    assert ROUND + interval - 1 == n * interval + r;
    assert (n - 1) * interval == n * interval - interval;
    if n < 1 {
      Below(n, interval);
    }
  }

  lemma Below(n: int, interval: int)
    requires n <= 0 && interval > 0
    ensures n * interval <= 0
  {
  }

  lemma TimesNext(a: int, b: int)
    ensures Times(a + 1, b) == Times(a, b) + b && Times(0, b) == 0
  {
    assert (a + 1) * b == a * b + b;
  }

  lemma TimesRise(a: int, b: int, s: int)
    requires a <= b && s > 0
    ensures Times(a, s) <= Times(b, s)
  {
    var d: nat, e: nat := b - a, s;
    var p: nat := Product(d, e);
    assert b * s == a * s + p;
  }

  lemma PhaseNext(k: nat, n: int)
    requires n > 0
    ensures 0 <= Phase(k, n) < n && Phase(k + 1, n) == (if Phase(k, n) + 1 == n then 0 else Phase(k, n) + 1)
    ensures Phase(0, n) == 0
  {
    var q, r := k / n, k % n;
    assert k == q * n + r;
    if r + 1 == n {
      assert k + 1 == (q + 1) * n;
      DivUnique(k + 1, n, q + 1, 0);
    } else {
      DivUnique(k + 1, n, q, r + 1);
    }
  }

  lemma DivUnique(a: nat, b: int, q: nat, r: nat)
    requires 0 <= r < b && a == q * b + r
    ensures a / b == q && a % b == r
  {
    DivAtLeast(a, b, q);
    DivIs(a, b);
    if q < a / b {
      Multiples(q, a / b, b);
    }
  }

  /** The condition after some ticks, in closed form. */
  function At(values: seq<int>, ticks: int, dealt: seq<int>, interval: int, flags: seq<bool>): Ailment
    requires interval > 0
  {
    PerRoundIs(interval);
    var n := PerRound(interval);
    var done := Removed(flags, n);
    Ailment(if done >= |values| then []
            else [IntervalInfo(ROUND - Times(Phase(|flags|, n), interval), ROUND, values[done])]
                 + Rounds(values[done + 1..]),
            TimeLeft(ticks, |values|, interval, flags), dealt + Dealt(values, flags, n))
  }

  lemma AtStart(values: seq<int>, ticks: int, dealt: seq<int>, interval: int)
    requires interval > 0
    ensures At(values, ticks, dealt, interval, []) == Ailment(Rounds(values), ticks, dealt)
  {
    PerRoundIs(interval);
    PhaseNext(0, PerRound(interval));
    TimesNext(0, interval);
    assert dealt + [] == dealt;
    if values != [] {
      assert Rounds(values) == [Round(values[0])] + Rounds(values[1..]);
    }
  }

  lemma NextHead(values: seq<int>, done: nat)
    requires done < |values|
    ensures done + 1 < |values| ==>
              Rounds(values[done + 1..]) == [Round(values[done + 1])] + Rounds(values[done + 2..])
    ensures done + 1 == |values| ==> Rounds(values[done + 1..]) == []
  {
  }

  lemma TickEmpty(ticks: int, dealt: seq<int>, interval: int, remove: bool)
    requires ticks != -1
    ensures Tick(Ailment([], ticks, dealt), interval, remove)
            == (ticks - interval > 0, Ailment([], ticks - interval, dealt))
  {
  }

  lemma TickRound(left: int, value: int, rest: seq<IntervalInfo>, ticks: int, dealt: seq<int>, interval: int,
                  remove: bool)
    requires ticks != -1
    ensures var ticks' := ticks - if remove then interval else 0;
            Tick(Ailment([IntervalInfo(left, ROUND, value)] + rest, ticks, dealt), interval, remove)
            == (ticks' > 0,
                if left - interval > 0 then Ailment([IntervalInfo(left - interval, ROUND, value)] + rest, ticks', dealt)
                else Ailment(if remove then rest else [Round(value)] + rest, ticks', dealt + [value]))
  {
  }

  lemma AtIs(values: seq<int>, ticks: int, dealt: seq<int>, interval: int, flags: seq<bool>)
    requires interval > 0
    ensures PerRound(interval) > 0
    ensures var n, left := PerRound(interval), TimeLeft(ticks, |values|, interval, flags);
            var done, sofar := Removed(flags, n), dealt + Dealt(values, flags, n);
            At(values, ticks, dealt, interval, flags)
            == if done >= |values| then Ailment([], left, sofar)
               else Ailment([IntervalInfo(ROUND - Times(Phase(|flags|, n), interval), ROUND, values[done])]
                            + Rounds(values[done + 1..]), left, sofar)
  {
    hide Rounds, Times, Phase, PerRound;
    PerRoundIs(interval);
  }

  /** What the last tick adds. */
  lemma OneTick(values: seq<int>, ticks: int, interval: int, flags: seq<bool>)
    requires interval > 0 && flags != []
    ensures PerRound(interval) > 0
    ensures var n, front := PerRound(interval), Front(flags);
            var done, ended := Removed(front, n), Phase(|flags|, n) == 0;
            && |front| == |flags| - 1
            && Removed(flags, n) == done + (if ended && Last(flags) then 1 else 0)
            && Dealt(values, flags, n)
               == Dealt(values, front, n) + (if ended && done < |values| then [values[done]] else [])
            && TimeLeft(ticks, |values|, interval, flags)
               == TimeLeft(ticks, |values|, interval, front) - if Last(flags) || done >= |values| then interval else 0
  {
    hide Times, Phase, PerRound;
    PerRoundIs(interval);
  }

  lemma AtDone(values: seq<int>, ticks: int, dealt: seq<int>, interval: int, flags: seq<bool>)
    requires interval > 0 && flags != [] && TimeLeft(ticks, |values|, interval, Front(flags)) != -1
    requires PerRound(interval) > 0 && Removed(Front(flags), PerRound(interval)) >= |values|
    ensures Tick(At(values, ticks, dealt, interval, Front(flags)), interval, Last(flags))
            == (TimeLeft(ticks, |values|, interval, flags) > 0, At(values, ticks, dealt, interval, flags))
  {
    hide *;
    AtIs(values, ticks, dealt, interval, Front(flags));
    AtIs(values, ticks, dealt, interval, flags);
    OneTick(values, ticks, interval, flags);
    var before := Dealt(values, Front(flags), PerRound(interval));
    assert before + [] == before;
    TickEmpty(TimeLeft(ticks, |values|, interval, Front(flags)), dealt + before, interval, Last(flags));
  }

  lemma AtWithin(values: seq<int>, ticks: int, dealt: seq<int>, interval: int, flags: seq<bool>)
    requires interval > 0 && flags != [] && TimeLeft(ticks, |values|, interval, Front(flags)) != -1
    requires PerRound(interval) > 0 && Removed(Front(flags), PerRound(interval)) < |values|
    requires Phase(|flags|, PerRound(interval)) != 0
    ensures Tick(At(values, ticks, dealt, interval, Front(flags)), interval, Last(flags))
            == (TimeLeft(ticks, |values|, interval, flags) > 0, At(values, ticks, dealt, interval, flags))
  {
    hide *;
    var n := PerRound(interval);
    AtIs(values, ticks, dealt, interval, Front(flags));
    AtIs(values, ticks, dealt, interval, flags);
    OneTick(values, ticks, interval, flags);
    PerRoundIs(interval);
    PhaseNext(|flags| - 1, n);
    var r, done := Phase(|flags| - 1, n), Removed(Front(flags), n);
    TimesNext(r, interval);
    TimesRise(r + 1, n - 1, interval);
    var before := Dealt(values, Front(flags), n);
    assert before + [] == before;
    TickRound(ROUND - Times(r, interval), values[done], Rounds(values[done + 1..]),
              TimeLeft(ticks, |values|, interval, Front(flags)), dealt + before, interval, Last(flags));
  }

  lemma AtEnd(values: seq<int>, ticks: int, dealt: seq<int>, interval: int, flags: seq<bool>)
    requires interval > 0 && flags != [] && TimeLeft(ticks, |values|, interval, Front(flags)) != -1
    requires PerRound(interval) > 0 && Removed(Front(flags), PerRound(interval)) < |values|
    requires Phase(|flags|, PerRound(interval)) == 0
    ensures Tick(At(values, ticks, dealt, interval, Front(flags)), interval, Last(flags))
            == (TimeLeft(ticks, |values|, interval, flags) > 0, At(values, ticks, dealt, interval, flags))
  {
    hide *;
    var n := PerRound(interval);
    AtIs(values, ticks, dealt, interval, Front(flags));
    AtIs(values, ticks, dealt, interval, flags);
    OneTick(values, ticks, interval, flags);
    PerRoundIs(interval);
    PhaseNext(|flags| - 1, n);
    var r, done := Phase(|flags| - 1, n), Removed(Front(flags), n);
    TimesNext(r, interval);
    TimesNext(0, interval);
    var before := Dealt(values, Front(flags), n);
    TickRound(ROUND - Times(r, interval), values[done], Rounds(values[done + 1..]),
              TimeLeft(ticks, |values|, interval, Front(flags)), dealt + before, interval, Last(flags));
    NextHead(values, done);
    NextRoundIs(values, done);
    ConcatAssoc(dealt, before, [values[done]]);
  }

  lemma NextRoundIs(values: seq<int>, done: nat)
    requires done < |values|
    ensures Round(values[done]) == IntervalInfo(ROUND, ROUND, values[done])
    ensures done + 1 < |values| ==> Round(values[done + 1]) == IntervalInfo(ROUND, ROUND, values[done + 1])
  {
  }

  /** One tick further, within a round or at its end. */
  lemma AtNext(values: seq<int>, ticks: int, dealt: seq<int>, interval: int, flags: seq<bool>)
    requires interval > 0 && flags != [] && TimeLeft(ticks, |values|, interval, Front(flags)) != -1
    ensures Tick(At(values, ticks, dealt, interval, Front(flags)), interval, Last(flags))
            == (TimeLeft(ticks, |values|, interval, flags) > 0, At(values, ticks, dealt, interval, flags))
  {
    hide *;
    PerRoundIs(interval);
    var n := PerRound(interval);
    if Removed(Front(flags), n) >= |values| {
      AtDone(values, ticks, dealt, interval, flags);
    } else if Phase(|flags|, n) != 0 {
      AtWithin(values, ticks, dealt, interval, flags);
    } else {
      AtEnd(values, ticks, dealt, interval, flags);
    }
  }

  /** The closed form, for as long as the condition has not expired. */
  lemma {:induction false} TickedAt(values: seq<int>, ticks: int, dealt: seq<int>, interval: int, flags: seq<bool>)
    requires interval > 0 && ticks > 0
    requires flags == [] || GoesOn(Ailment(Rounds(values), ticks, dealt), interval, Front(flags))
    ensures Ticked(Ailment(Rounds(values), ticks, dealt), interval, flags) == At(values, ticks, dealt, interval, flags)
    ensures flags != [] ==>
              Tick(Ticked(Ailment(Rounds(values), ticks, dealt), interval, Front(flags)), interval, Last(flags)).0
              == (TimeLeft(ticks, |values|, interval, flags) > 0)
    ensures GoesOn(Ailment(Rounds(values), ticks, dealt), interval, flags) ==>
              TimeLeft(ticks, |values|, interval, flags) > 0
    decreases |flags|
  {
    hide At, Rounds, Tick, PerRound;
    if flags == [] {
      AtStart(values, ticks, dealt, interval);
    } else {
      TickedAt(values, ticks, dealt, interval, Front(flags));
      AtNext(values, ticks, dealt, interval, flags);
    }
  }

  /** When the condition expires, no round is left if and only if as many rounds were let go as there were; what has
      been dealt is what the rounds that ended dealt. */
  lemma ExpiresDoneIff(values: seq<int>, ticks: int, dealt: seq<int>, interval: int, flags: seq<bool>)
    requires interval > 0 && ticks > 0 && Expires(Ailment(Rounds(values), ticks, dealt), interval, flags)
    ensures PerRound(interval) > 0
    ensures var end := Ticked(Ailment(Rounds(values), ticks, dealt), interval, flags);
            && (end.rounds == [] <==> Removed(flags, PerRound(interval)) >= |values|)
            && end.dealt == dealt + Dealt(values, flags, PerRound(interval))
            && end.ticks == TimeLeft(ticks, |values|, interval, flags) <= 0
  {
    hide Rounds, Tick, PerRound, Removed, Dealt;
    PerRoundIs(interval);
    TickedAt(values, ticks, dealt, interval, flags);
  }

  /** The rounds let go are the ticks `n`, `2 n`, ... at which the flag is set. */
  lemma {:induction false} RemovedIs(flags: seq<bool>, n: int)
    requires n > 0
    ensures Removed(flags, n) == |LetGo(flags, n)|
    decreases |flags|
  {
    hide Phase;
    if flags != [] {
      RemovedIs(Front(flags), n);
      LetGoNext(flags, n);
    } else {
      assert LetGo(flags, n) == {};
    }
  }

  lemma LetGoNext(flags: seq<bool>, n: int)
    requires n > 0 && flags != []
    ensures |flags| !in LetGo(Front(flags), n)
    ensures LetGo(flags, n)
            == LetGo(Front(flags), n) + if Phase(|flags|, n) == 0 && Last(flags) then {|flags|} else {}
  {
    hide Phase;
  }

  function LetGo(flags: seq<bool>, n: int): set<nat>
    requires n > 0
  {
    set k: nat | 1 <= k <= |flags| && Phase(k, n) == 0 && flags[k - 1]
  }

  // ---------------------------------------------------------------- a creature that keeps no round

  predicate AllGo(flags: seq<bool>) {
    forall i :: 0 <= i < |flags| ==> flags[i]
  }

  /** If every round is let go, the rounds are dealt in order, and time does not stand still. */
  lemma {:induction false} AllGoAt(values: seq<int>, ticks: int, interval: int, flags: seq<bool>)
    requires interval > 0 && AllGo(flags)
    ensures PerRound(interval) > 0
    ensures var n := PerRound(interval);
            && Times(Removed(flags, n), n) + Phase(|flags|, n) == |flags|
            && Dealt(values, flags, n) == values[..Min(Removed(flags, n), |values|)]
            && TimeLeft(ticks, |values|, interval, flags) == ticks - Times(|flags|, interval)
    decreases |flags|
  {
    hide PerRound, Times, Phase;
    var n := PerRound(interval);
    PerRoundIs(interval);
    PhaseNext(0, n);
    TimesNext(0, n);
    TimesNext(0, interval);
    if flags != [] {
      AllGoAt(values, ticks, interval, Front(flags));
      var done := Removed(Front(flags), n);
      PhaseNext(|flags| - 1, n);
      TimesNext(done, n);
      TimesNext(|flags| - 1, interval);
      if done < |values| {
        assert values[..done] + [values[done]] == values[..done + 1];
      }
      assert Dealt(values, Front(flags), n) + [] == Dealt(values, Front(flags), n);
    }
  }

  /** Then the rounds are all dealt if and only if the condition has lasted as many ticks as they take. */
  lemma AllGoDoneIff(values: seq<int>, ticks: int, dealt: seq<int>, interval: int, flags: seq<bool>)
    requires interval > 0 && ticks > 0 && Expires(Ailment(Rounds(values), ticks, dealt), interval, flags)
    requires AllGo(flags)
    ensures var end := Ticked(Ailment(Rounds(values), ticks, dealt), interval, flags);
            && (end.rounds == [] <==> Times(|values|, PerRound(interval)) <= |flags|)
            && (end.rounds == [] ==> end.dealt == dealt + values)
            && ticks <= Times(|flags|, interval)
  {
    hide PerRound, Times, Phase, Removed, Dealt, Rounds, Ticked, Expires, TimeLeft;
    var n := PerRound(interval);
    PerRoundIs(interval);
    ExpiresDoneIff(values, ticks, dealt, interval, flags);
    AllGoAt(values, ticks, interval, flags);
    PhaseNext(|flags|, n);
    var done := Removed(flags, n);
    if done >= |values| {
      TimesRise(|values|, done, n);
      assert values[..|values|] == values;
    } else {
      TimesRise(done + 1, |values|, n);
      TimesNext(done, n);
    }
  }

  lemma PerRoundExact(interval: int)
    requires interval > 0 && ROUND % interval == 0
    ensures Times(PerRound(interval), interval) == ROUND
  {
    PerRoundIs(interval);
    var n, q := PerRound(interval), ROUND / interval;
    assert ROUND == q * interval;
    if n < q {
      TimesRise(n + 1, q, interval);
      TimesNext(n, interval);
    } else if q < n {
      TimesRise(q, n - 1, interval);
    }
  }

  /** The rounds that are left to the ticks once the condition has begun. */
  function ToTick(values: seq<int>, delayed: bool): seq<int> {
    if delayed || values == [] then values else values[1..]
  }

  lemma BegunIs(values: seq<int>, delayed: bool)
    ensures Begun(values, delayed, [])
            == Ailment(Rounds(ToTick(values, delayed)), ROUND * |values|,
                       if delayed || values == [] then [] else [values[0]])
  {
  }

  /** When a condition that began with these rounds expires, all have been dealt and let go if and only if the creature
      let go of as many as were left to the ticks; and if it keeps none and the interval divides the length of a round,
      they have, whether the first was dealt at once or not. */
  lemma WholeCourse(values: seq<int>, delayed: bool, interval: int, flags: seq<bool>)
    requires values != [] && interval > 0 && Expires(Begun(values, delayed, []), interval, flags)
    ensures PerRound(interval) > 0
    ensures var end := Ticked(Begun(values, delayed, []), interval, flags);
            && (end.rounds == [] <==> Removed(flags, PerRound(interval)) >= |ToTick(values, delayed)|)
            && (ROUND % interval == 0 && AllGo(flags) ==> end.rounds == [] && end.dealt == values)
  {
    hide PerRound, Rounds, Tick, Times, Ticked, Removed, Expires, Begun;
    var rest, first := ToTick(values, delayed), if delayed then [] else [values[0]];
    BegunIs(values, delayed);
    ExpiresDoneIff(rest, ROUND * |values|, first, interval, flags);
    if ROUND % interval == 0 && AllGo(flags) {
      var n := PerRound(interval);
      PerRoundIs(interval);
      PerRoundExact(interval);
      AllGoDoneIff(rest, ROUND * |values|, first, interval, flags);
      LastsAt(|values|, n, interval, |flags|);
      TimesRise(|rest|, |values|, n);
      assert first + rest == values;
    }
  }

  lemma LastsAt(length: nat, n: int, interval: int, k: nat)
    requires n > 0 && interval > 0 && Times(n, interval) == ROUND && ROUND * length <= Times(k, interval)
    ensures Times(length, n) <= k
  {
    if k < Times(length, n) {
      TimesRise(k + 1, Times(length, n), interval);
      TimesNext(k, interval);
      TimesAssociate(length, n, interval);
    }
  }

  lemma TimesAssociate(a: int, b: int, c: int)
    ensures Times(Times(a, b), c) == Times(b, c) * a
  {
    assert (a * b) * c == (b * c) * a;
  }

  function Total(s: seq<int>): int {
    if s == [] then 0 else s[0] + Total(s[1..])
  }

  lemma {:induction false} TotalNegated(s: seq<nat>)
    ensures Total(Negated(s)) == Minus(Sum(s))
  {
    if s != [] {
      assert Negated(s)[1..] == Negated(s[1..]);
      TotalNegated(s[1..]);
    }
  }

  /** Over such a course, a condition made for an amount, with a start value and a greatest damage given, deals the
      total of its list, which is the amount if and only if 1 + 2 + ... + start is no more than that. */
  lemma CourseDealsTotal(amount: int, given: int, max: int, start: int, delayed: bool, interval: int, flags: seq<bool>)
    requires amount != 0 && Starts(amount, given, max, start) && start > 0
    requires interval > 0 && ROUND % interval == 0 && AllGo(flags)
    requires Expires(Begun(Negated(Damages(amount, start)), delayed, []), interval, flags)
    ensures var dealt := Ticked(Begun(Negated(Damages(amount, start)), delayed, []), interval, flags).dealt;
            && Total(dealt) == Minus(Max(Abs(amount), Triangle(start)))
            && (Total(dealt) == Minus(Abs(amount)) <==> start * (start + 1) <= 2 * Abs(amount))
            && (given == 0 <= max ==> (Total(dealt) == Minus(Abs(amount)) <==> amount <= 760 || amount == 780))
  {
    hide From, Ticked, Expires, Begun;
    var list := Damages(amount, start);
    DamagesFall(amount, start);
    assert 1 in list;
    WholeCourse(Negated(list), delayed, interval, flags);
    TotalNegated(list);
    TotalIs(amount, start);
    TotalExactIff(amount, start);
    if given == 0 <= max {
      TwentiethExact(amount, start);
    }
  }

  /** A start value of a twentieth fits all amounts up to 760, and 780. */
  lemma TwentiethExact(amount: int, start: int)
    requires amount != 0 && start >= 1 && amount <= 20 * start && (start == 1 || 20 * (start - 1) < amount)
    ensures start * (start + 1) <= 2 * Abs(amount) <==> amount <= 760 || amount == 780
  {
    if start <= 38 {
      BelowLine(start - 1, 38 - start);
    } else if start >= 40 {
      AboveLine(start);
    }
  }

  lemma BelowLine(a: nat, b: nat)
    requires a + b == 37
    ensures (a + 1) * (a + 2) <= 40 * a + 2
  {
    assert a * b >= 0;
    assert a * b == 37 * a - a * a;
  }

  lemma AboveLine(s: nat)
    requires s >= 40
    ensures s * (s + 1) >= 41 * s
  {
  }

  /** An interval that does not divide a round may leave rounds undealt. */
  lemma OddIntervalLeavesRounds()
    ensures var a, flags := Begun([-1, -1], true, []), [true, true, true];
            Expires(a, 1500, flags) && Ticked(a, 1500, flags).rounds != []
  {
    hide Tick, Ticked, Expires;
    assert Rounds([-1, -1]) == [Round(-1)] + [Round(-1)];
    ThreeTicks(Begun([-1, -1], true, []), 1500, true, true, true);
    TickRound(2000, -1, [Round(-1)], 4000, [], 1500, true);
    TickRound(500, -1, [Round(-1)], 2500, [], 1500, true);
    assert [Round(-1)] + [] == [Round(-1)];
    TickRound(2000, -1, [], 1000, [] + [-1], 1500, true);
  }

  /** A creature that keeps a round may also make the condition expire before its last round is let go. */
  lemma KeptRoundLeft()
    ensures var a, flags := Begun([-1], true, []), [true, false, true];
            Expires(a, 1000, flags) && Ticked(a, 1000, flags).rounds != []
  {
    assert Rounds([-1]) == [Round(-1)];
    ThreeTicks(Begun([-1], true, []), 1000, true, false, true);
  }

  lemma ThreeTicks(a: Ailment, interval: int, x: bool, y: bool, z: bool)
    ensures var (on, b) := Tick(a, interval, x);
            var (still, c) := Tick(b, interval, y);
            var (last, d) := Tick(c, interval, z);
            && Ticked(a, interval, [x, y, z]) == d
            && (Expires(a, interval, [x, y, z]) <==> on && still && !last)
  {
    hide Tick, Ticked, Expires, GoesOn;
    NoTicks(a, interval);
    OneMore(a, interval, [], x);
    OneMore(a, interval, [x], y);
    OneMore(a, interval, [x, y], z);
    assert [] + [x] == [x] && [x] + [y] == [x, y] && [x, y] + [z] == [x, y, z];
  }

  lemma NoTicks(a: Ailment, interval: int)
    ensures Ticked(a, interval, []) == a && GoesOn(a, interval, [])
  {
  }

  lemma OneMore(a: Ailment, interval: int, flags: seq<bool>, flag: bool)
    ensures var (on, b) := Tick(Ticked(a, interval, flags), interval, flag);
            && Ticked(a, interval, flags + [flag]) == b
            && (GoesOn(a, interval, flags + [flag]) <==> GoesOn(a, interval, flags) && on)
            && (Expires(a, interval, flags + [flag]) <==> GoesOn(a, interval, flags) && !on)
  {
    assert Front(flags + [flag]) == flags;
  }
}
