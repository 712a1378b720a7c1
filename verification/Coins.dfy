/** What coins are worth, and how adding and removing them changes the wealth around a container. */
module Coins {
  import opened Bytes
  import opened Sums
  import opened ItemForest
  import opened ItemMove
  import opened MoveLaws
  import opened DepotLaw
  import opened ItemOps
  import opened ItemSearch

  const ITEM_COINS_GOLD := 2148
  const ITEM_COINS_PLATINUM := 2152
  const ITEM_COINS_CRYSTAL := 2160

  function UnitWorth(id: nat): nat {
    if id == ITEM_COINS_GOLD then 1 else if id == ITEM_COINS_PLATINUM then 100
    else if id == ITEM_COINS_CRYSTAL then 10000 else 0
  }

  function CoinsWorth(id: nat, count: nat): nat {
    UnitWorth(id) * count
  }

  /** `getWorth` */
  function Worth(t: Thing, count: nat): nat {
    CoinsWorth(t.typ.id, count)
  }

  /** Gold coins are worth 1, platinum coins 100 and crystal coins 10000; nothing else is worth anything. */
  lemma Denominations(id: nat, n: nat)
    ensures CoinsWorth(2148, n) == n && CoinsWorth(2152, n) == 100 * n && CoinsWorth(2160, n) == 10000 * n
    ensures id !in {2148, 2152, 2160} ==> CoinsWorth(id, n) == 0
  {
  }

  /** Coins are no containers. */
  ghost predicate CoinsPlain(st: State) {
    forall t :: t in st.All() && UnitWorth(t.typ.id) != 0 ==> t.typ.kind.Plain?
  }

  ghost function Worths(st: State): (f: map<Thing, nat>)
    requires SameKeys(st)
    ensures f.Keys == st.All()
  {
    map t | t in st.All() :: Worth(t, st.count[t])
  }

  /** The worth of all that is inside a container or lies on a tile, at any depth. */
  ghost function Wealth(st: State, r: Thing): nat
    requires SameKeys(st)
  {
    Sum(st.Below(r), Worths(st))
  }

  // ---------------------------------------------------------------- coins along the walk

  ghost function SumWorths(st: State, s: seq<Thing>): nat
    requires st.count.Keys == st.All() && Known(st, s)
  {
    if s == [] then 0 else Worth(s[0], st.count[s[0]]) + SumWorths(st, s[1..])
  }

  lemma {:induction false} SumWorthsConcat(st: State, a: seq<Thing>, b: seq<Thing>)
    requires st.count.Keys == st.All() && Known(st, a) && Known(st, b)
    ensures Known(st, a + b) && SumWorths(st, a + b) == SumWorths(st, a) + SumWorths(st, b)
  {
    hide Worth;
    if a == [] {
      assert a + b == b;
    } else {
      assert (a + b)[1..] == a[1..] + b;
      SumWorthsConcat(st, a[1..], b);
    }
  }

  /** Adding up along a sequence without repetitions is adding up over its set. */
  lemma {:induction false} SumWorthsIs(st: State, s: seq<Thing>, all: set<Thing>)
    requires SameKeys(st) && Known(st, s) && NoDuplicates(s) && all <= st.All()
    requires forall t :: t in s <==> t in all
    ensures SumWorths(st, s) == Sum(all, Worths(st))
    decreases |s|
  {
    hide Worth;
    if s != [] {
      SumSplit(all, Worths(st), s[0]);
      forall t ensures t in s[1..] <==> t in all - {s[0]} {
        if t in s[1..] {
          var i :| 1 <= i < |s| && s[i] == t;
        }
      }
      SumWorthsIs(st, s[1..], all - {s[0]});
    } else {
      assert all == {};
    }
  }

  /** The walk through a container meets all its wealth. */
  lemma VisitWealth(st: State, c: Thing)
    requires Forest(st) && c in st.All()
    ensures SameKeys(st) && Known(st, Visit(st, [c])) && SumWorths(st, Visit(st, [c])) == Wealth(st, c)
  {
    hide Forest, Linked, ChainOk, ListOk, Visit, NoDuplicates;
    ForestKeys(st);
    VisitOnce(st, c);
    var v: seq<Thing> := Visit(st, [c]);
    forall t: Thing ensures t in v <==> t in st.Below(c) {
    }
    assert Known(st, v);
    assert st.Below(c) <= st.All();
    SumWorthsIs(st, v, st.Below(c));
  }

  // ---------------------------------------------------------------- coins in order of worth

  /** A coin goes behind those that are worth as much or less. */
  ghost function AddCoin(st: State, s: seq<Thing>, t: Thing): seq<Thing>
    requires st.count.Keys == st.All() && Known(st, s) && t in st.All()
  {
    if s == [] || Worth(s[0], st.count[s[0]]) > Worth(t, st.count[t]) then [t] + s
    else [s[0]] + AddCoin(st, s[1..], t)
  }

  /** From the least to the most worth. */
  ghost predicate Ascending(st: State, s: seq<Thing>)
    requires st.count.Keys == st.All() && Known(st, s)
  {
    s == [] || (Ascending(st, s[1..])
                && forall t :: t in s[1..] ==> Worth(s[0], st.count[s[0]]) <= Worth(t, st.count[t]))
  }

  lemma {:induction false} AddCoinHas(st: State, s: seq<Thing>, t: Thing)
    requires st.count.Keys == st.All() && Known(st, s) && t in st.All()
    ensures forall u :: u in AddCoin(st, s, t) <==> u in s || u == t
    ensures Known(st, AddCoin(st, s, t)) && |AddCoin(st, s, t)| == |s| + 1
  {
    hide Worth;
    if !(s == [] || Worth(s[0], st.count[s[0]]) > Worth(t, st.count[t])) {
      AddCoinHas(st, s[1..], t);
      assert forall u :: u in s <==> u == s[0] || u in s[1..];
    }
  }

  lemma {:induction false} AddCoinSum(st: State, s: seq<Thing>, t: Thing)
    requires st.count.Keys == st.All() && Known(st, s) && t in st.All()
    ensures Known(st, AddCoin(st, s, t))
    ensures SumWorths(st, AddCoin(st, s, t)) == SumWorths(st, s) + Worth(t, st.count[t])
  {
    hide Worth;
    AddCoinHas(st, s, t);
    if s == [] || Worth(s[0], st.count[s[0]]) > Worth(t, st.count[t]) {
      assert ([t] + s)[1..] == s;
    } else {
      AddCoinSum(st, s[1..], t);
      assert ([s[0]] + AddCoin(st, s[1..], t))[1..] == AddCoin(st, s[1..], t);
    }
  }

  lemma {:induction false} AddCoinAscends(st: State, s: seq<Thing>, t: Thing)
    requires st.count.Keys == st.All() && Known(st, s) && t in st.All() && Ascending(st, s)
    ensures Known(st, AddCoin(st, s, t)) && Ascending(st, AddCoin(st, s, t))
  {
    hide Worth;
    AddCoinHas(st, s, t);
    if s == [] || Worth(s[0], st.count[s[0]]) > Worth(t, st.count[t]) {
      assert ([t] + s)[1..] == s;
      assert forall u :: u in s ==> u == s[0] || u in s[1..];
    } else {
      AddCoinAscends(st, s[1..], t);
      AddCoinHas(st, s[1..], t);
      assert ([s[0]] + AddCoin(st, s[1..], t))[1..] == AddCoin(st, s[1..], t);
    }
  }

  lemma {:induction false} AddCoinDistinct(st: State, s: seq<Thing>, t: Thing)
    requires st.count.Keys == st.All() && Known(st, s) && t in st.All() && NoDuplicates(s) && t !in s
    ensures NoDuplicates(AddCoin(st, s, t))
  {
    hide Worth, NoDuplicates;
    AddCoinHas(st, s, t);
    if s == [] || Worth(s[0], st.count[s[0]]) > Worth(t, st.count[t]) {
      DistinctCons(t, s);
    } else {
      DistinctTail(s);
      AddCoinDistinct(st, s[1..], t);
      AddCoinHas(st, s[1..], t);
      DistinctCons(s[0], AddCoin(st, s[1..], t));
    }
  }

  lemma DistinctCons(t: Thing, s: seq<Thing>)
    requires NoDuplicates(s) && t !in s
    ensures NoDuplicates([t] + s)
  {
  }

  lemma DistinctTail(s: seq<Thing>)
    requires NoDuplicates(s) && s != []
    ensures NoDuplicates(s[1..]) && s[0] !in s[1..]
  {
  }

  /** The coins among some things, the least worth first. */
  ghost function CoinsIn(st: State, s: seq<Thing>): (r: seq<Thing>)
    requires st.count.Keys == st.All() && Known(st, s)
    ensures Known(st, r)
  {
    if s == [] then []
    else
      var last := s[|s| - 1];
      var rest := CoinsIn(st, s[..|s| - 1]);
      if Worth(last, st.count[last]) == 0 then rest
      else
        AddCoinHas(st, rest, last);
        AddCoin(st, rest, last)
  }

  lemma {:induction false} CoinsInSum(st: State, s: seq<Thing>)
    requires st.count.Keys == st.All() && Known(st, s)
    ensures SumWorths(st, CoinsIn(st, s)) == SumWorths(st, s)
    ensures Ascending(st, CoinsIn(st, s))
  {
    hide Worth, AddCoin;
    if s != [] {
      var last, front: seq<Thing> := s[|s| - 1], s[..|s| - 1];
      CoinsInSum(st, front);
      assert s == front + [last];
      SumWorthsConcat(st, front, [last]);
      if Worth(last, st.count[last]) != 0 {
        AddCoinSum(st, CoinsIn(st, front), last);
        AddCoinAscends(st, CoinsIn(st, front), last);
      }
    }
  }

  lemma {:induction false} CoinsInAre(st: State, s: seq<Thing>)
    requires st.count.Keys == st.All() && Known(st, s) && NoDuplicates(s)
    ensures NoDuplicates(CoinsIn(st, s))
    ensures forall t :: t in CoinsIn(st, s) <==> t in s && t in st.count && Worth(t, st.count[t]) != 0
  {
    hide Worth, AddCoin;
    if s != [] {
      var last, front: seq<Thing> := s[|s| - 1], s[..|s| - 1];
      CoinsInAre(st, front);
      assert s == front + [last];
      assert last !in front;
      assert forall t :: t in s <==> t in front || t == last;
      if Worth(last, st.count[last]) != 0 {
        AddCoinHas(st, CoinsIn(st, front), last);
        AddCoinDistinct(st, CoinsIn(st, front), last);
      }
    }
  }

  lemma CoinsInPush(st: State, s: seq<Thing>, t: Thing)
    requires st.count.Keys == st.All() && Known(st, s) && t in st.All()
    ensures Known(st, s + [t])
    ensures CoinsIn(st, s + [t])
            == if Worth(t, st.count[t]) == 0 then CoinsIn(st, s) else AddCoin(st, CoinsIn(st, s), t)
  {
    assert (s + [t])[..|s|] == s;
  }

  // ---------------------------------------------------------------- removing a coin

  /** A simple item that is taken away whole is all that is missing afterwards. */
  lemma RemoveWealth(st: State, x: Thing, r: Thing)
    requires Forest(st) && x in st.All() && r in st.All() && x in st.Below(r)
    requires x.typ.kind.Plain? && 1 <= st.count[x] && x !in st.freed
    ensures var (ret, end) := RemoveItem(st, x, -1);
            && ret == RET_NOERROR && SameKeys(st) && SameKeys(end) && end.All() == st.All()
            && Wealth(end, r) == Wealth(st, r) - Worth(x, st.count[x])
            && end.parent == st.parent[x := null] && end.count == st.count && end.freed == st.freed + {x}
            && forall t :: t in st.All() && t != x ==> end.above[t] == st.above[t]
  {
    hide Forest, Linked, ListOk, ChainOk, Removed, Worth, IsRemoved;
    ForestKeys(st);
    InsideHasParent(st, x, r);
    WholeRemoved(st, x);
    var c := st.parent[x];
    var end := RemoveItem(st, x, -1).1;
    forall t | t in st.All()
      ensures end.parent[t] == (if t == x then null else st.parent[t]) && end.count[t] == st.count[t]
      ensures end.above[t] == if t == x then {} else st.above[t]
      ensures end.freed == st.freed + {x}
    {
      RemovedAt(st, c, x, st.count[x], t);
      PlainHoldsNothing(st, x, t);
    }
    assert end.count == st.count;
    assert end.parent == st.parent[x := null];
    assert end.Below(r) == st.Below(r) - {x};
    assert Worths(end) == Worths(st);
    SumSplit(st.Below(r), Worths(st), x);
  }

  lemma InsideHasParent(st: State, x: Thing, r: Thing)
    requires Forest(st) && x in st.All() && r in st.All() && x in st.Below(r)
    ensures st.parent[x] != null
  {
    assert ChainOk(st, x);
  }

  lemma WholeRemoved(st: State, x: Thing)
    requires Forest(st) && x in st.All() && x.typ.kind.Plain? && st.parent[x] != null && 1 <= st.count[x]
    ensures RemoveSound(st, st.parent[x], x, st.count[x])
    ensures SameKeys(st) && st.parent[x] in st.All() && ListOk(st, st.parent[x])
    ensures RemoveItem(st, x, -1) == (RET_NOERROR, Removed(st, st.parent[x], x, st.count[x]))
    ensures Leaves(st, x, st.count[x])
  {
    hide Forest, Linked, ListOk, Removed;
    ForestKeys(st);
    ThingOk(st, x);
    ThingOk(st, st.parent[x]);
  }

  // ---------------------------------------------------------------- adding a coin

  lemma WorthSplit(x: Thing, y: Thing, m: nat, n: nat)
    requires x.typ.id == y.typ.id && n <= m
    ensures Worth(x, n) + Worth(y, m - n) == Worth(x, m)
    ensures Worth(x, 0) == 0
  {
    assert UnitWorth(x.typ.id) * n + UnitWorth(x.typ.id) * (m - n) == UnitWorth(x.typ.id) * m;
  }

  /** What is lost of the wealth if the stack at the destination spills. */
  ghost function SpilledWorth(st: State, x: Thing, dest: Destination, n: nat): nat
    requires SameKeys(st) && (dest.item != null ==> dest.item in st.All())
  {
    if Spills(st, dest, n) then Worth(x, 256) else 0
  }

  lemma WorthSum(t: Thing, a: nat, b: nat)
    ensures Worth(t, a + b) == Worth(t, a) + Worth(t, b)
  {
    assert UnitWorth(t.typ.id) * (a + b) == UnitWorth(t.typ.id) * a + UnitWorth(t.typ.id) * b;
  }

  /** A stack that is topped up is worth what it was and what it took, but for what spills. */
  lemma WorthTopped(d: Thing, x: Thing, count: byte, n: nat)
    requires d.typ.id == x.typ.id && n <= 255
    ensures Worth(d, LowByte(count + n)) + (if n != 0 && count + n > 255 then Worth(x, 256) else 0)
            == Worth(d, count) + Worth(x, n)
  {
    hide UnitWorth;
    WorthSum(d, count, n);
    if count + n > 255 {
      WorthSum(d, count + n - 256, 256);
    }
  }

  /** What the item at the destination takes adds to the wealth, but for what spills. */
  lemma ToppedWealth(st: State, x: Thing, dest: Destination, m: nat, n: nat, r: Thing)
    requires Forest(st) && AddSound(st, x, dest, m, n) && r in st.All()
    requires dest.c in st.All() && Within(st, dest.c, r)
    ensures SameKeys(st) && KnownDestination(st, dest) && (dest.item != null ==> dest.item in st.All())
    ensures Wealth(Topped(st, x, dest, n), r) + SpilledWorth(st, x, dest, n) == Wealth(st, r) + Worth(x, n)
    ensures n != 0 ==> x.typ.stackable
  {
    hide Forest, Linked, ListOk, ChainOk, AddSound, KnownDestination, UnitWorth, Worth;
    ForestKeys(st);
    AddKnown(st, x, dest, m, n);
    DestKnown(st, dest);
    MergedWhere(st, x, dest, m, n);
    WorthSplit(x, x, n, 0);
    var st1 := Topped(st, x, dest, n);
    if x.typ.stackable && dest.item != null && dest.item.typ.id == x.typ.id {
      var d: Thing := dest.item;
      AboveListed(st, dest.c, d);
      WorthTopped(d, x, st.count[d], n);
      CountWealth(st, st1, r, d);
    }
  }

  /** What a change of one count does to the wealth. */
  lemma CountWealth(st: State, end: State, r: Thing, d: Thing)
    requires SameKeys(st) && SameKeys(end) && end.above == st.above && end.All() == st.All()
    requires d in st.All() && d in st.Below(r) && forall t :: t in st.All() && t != d ==> end.count[t] == st.count[t]
    ensures Wealth(end, r) + Worth(d, st.count[d]) == Wealth(st, r) + Worth(d, end.count[d])
  {
    hide Worth;
    assert end.Below(r) == st.Below(r);
    SumChange(st.Below(r), Worths(st), Worths(end), d);
  }

  lemma MergedWhere(st: State, x: Thing, dest: Destination, m: nat, n: nat)
    requires SameKeys(st) && AddSound(st, x, dest, m, n)
    ensures n != 0 ==> x.typ.stackable && dest.item != null && dest.item.typ.id == x.typ.id
    ensures n <= 255
  {
    hide Room;
  }

  /** An item that is added brings its own worth, but for what spills. */
  lemma AddWealth(st: State, x: Thing, dest: Destination, m: nat, n: nat, y: Thing, r: Thing)
    requires Forest(st) && AddSound(st, x, dest, m, n) && r in st.All() && x.typ.kind.Plain?
    requires dest.c in st.All() && Within(st, dest.c, r) && x != r
    requires x.typ.stackable ==> y !in st.All() && y.typ == x.typ
    ensures SameKeys(st) && x in st.All() && KnownDestination(st, dest) && n <= m
    ensures dest.item != null ==> dest.item in st.All()
    ensures Wealth(Added(st, x, dest, m, n, y), r) + SpilledWorth(st, x, dest, n)
            == Wealth(st, r) + Worth(x, st.count[x])
  {
    hide Forest, Linked, ListOk, ChainOk, AddSound, KnownDestination, UnitWorth, Topped, Added, Worth, Wealth;
    hide SpilledWorth;
    ForestKeys(st);
    AddKnown(st, x, dest, m, n);
    ToppedWealth(st, x, dest, m, n, r);
    AddedNew(st, x, dest, m, n, y);
    var st1, end := Topped(st, x, dest, n), Added(st, x, dest, m, n, y);
    WorthSplit(x, x, st.count[x], 0);
    ToppedSelf(st, x, dest, m, n);
    if !Arrives(x, m, n) {
      AddedSame(st, x, dest, m, n, y, r);
    } else {
      AddedOne(st, x, dest, m, n, y, r);
      if NewStack(x, n) {
        WorthSplit(x, y, m, n);
      }
    }
  }

  /** A coin that is added raises the wealth by exactly its worth if and only if nothing spills; and nothing does
      unless the stack at the destination holds more than 100. */
  lemma AddWealthIff(st: State, x: Thing, dest: Destination, m: nat, n: nat, y: Thing, r: Thing)
    requires Forest(st) && AddSound(st, x, dest, m, n) && r in st.All() && x.typ.kind.Plain?
    requires dest.c in st.All() && Within(st, dest.c, r) && x != r && UnitWorth(x.typ.id) != 0
    requires x.typ.stackable ==> y !in st.All() && y.typ == x.typ
    ensures SameKeys(st) && x in st.All() && KnownDestination(st, dest) && n <= m
    ensures dest.item != null ==> dest.item in st.All()
    ensures Wealth(Added(st, x, dest, m, n, y), r) == Wealth(st, r) + Worth(x, st.count[x]) <==> !Spills(st, dest, n)
    ensures Spills(st, dest, n) ==> st.count[dest.item] > 100
  {
    hide Forest, Linked, ListOk, ChainOk, KnownDestination, UnitWorth, Added, Wealth, Merged;
    ForestKeys(st);
    AddWealth(st, x, dest, m, n, y, r);
    SpillsOver(st, dest, x, m);
    assert Worth(x, 256) == UnitWorth(x.typ.id) * 256;
  }

  /** No stack of 100 at most can be made to spill. */
  lemma NoSpill(st: State, x: Thing, dest: Destination, m: nat, n: nat)
    requires Forest(st) && NothingLost(st) && StacksOk(st) && AddSound(st, x, dest, m, n)
    ensures SameKeys(st) && (dest.item != null ==> dest.item in st.All()) && SpilledWorth(st, x, dest, n) == 0
  {
    hide Forest, Linked, ListOk, ChainOk, Merged, Worth;
    ForestKeys(st);
    DestKnown(st, dest);
    SpillsOver(st, dest, x, m);
    if dest.item != null {
      ListedAlive(st, dest.c, dest.item);
      assert StackOk(dest.item, st.count[dest.item]);
    }
  }

  lemma ToppedSelf(st: State, x: Thing, dest: Destination, m: nat, n: nat)
    requires SameKeys(st) && AddSound(st, x, dest, m, n)
    ensures x in st.All() && KnownDestination(st, dest) && Topped(st, x, dest, n).count[x] == st.count[x]
  {
  }

  lemma AddedSame(st: State, x: Thing, dest: Destination, m: nat, n: nat, y: Thing, r: Thing)
    requires Forest(st) && AddSound(st, x, dest, m, n) && !Arrives(x, m, n)
    requires x.typ.stackable ==> y !in st.All()
    ensures SameKeys(st) && x in st.All() && KnownDestination(st, dest) && n <= m
    ensures Wealth(Added(st, x, dest, m, n, y), r) == Wealth(Topped(st, x, dest, n), r)
  {
    hide Forest, Linked, ListOk, ChainOk, AddSound, KnownDestination, Topped, Added, Worth, Moves;
    ForestKeys(st);
    AddKnown(st, x, dest, m, n);
    var st1, end := Topped(st, x, dest, n), Added(st, x, dest, m, n, y);
    AddedNew(st, x, dest, m, n, y);
    forall t | t in st.All() ensures end.above[t] == st1.above[t] && end.count[t] == st1.count[t] {
      AddedAt(st, x, dest, m, n, y, t);
    }
    assert end.Below(r) == st1.Below(r);
    assert Worths(end) == Worths(st1);
  }

  lemma AddedOne(st: State, x: Thing, dest: Destination, m: nat, n: nat, y: Thing, r: Thing)
    requires Forest(st) && AddSound(st, x, dest, m, n) && Arrives(x, m, n) && r in st.All() && x.typ.kind.Plain?
    requires dest.c in st.All() && Within(st, dest.c, r)
    requires x.typ.stackable ==> y !in st.All()
    ensures SameKeys(st) && x in st.All() && KnownDestination(st, dest) && n <= m
    ensures Wealth(Added(st, x, dest, m, n, y), r)
            == Wealth(Topped(st, x, dest, n), r)
               + if NewStack(x, n) then Worth(y, m - n) else Worth(x, Topped(st, x, dest, n).count[x])
  {
    hide Forest, Linked, ListOk, AddSound, KnownDestination, Topped, Added, Worth;
    ForestKeys(st);
    AddKnown(st, x, dest, m, n);
    var st1, end := Topped(st, x, dest, n), Added(st, x, dest, m, n, y);
    var z := if NewStack(x, n) then y else x;
    AddedNew(st, x, dest, m, n, y);
    forall t | t in st.All()
      ensures end.count[t] == st1.count[t]
      ensures end.above[t] == if t == z then st1.above[t] + st.above[dest.c] + {dest.c} else st1.above[t]
    {
      AddedOneAt(st, x, dest, m, n, y, t);
    }
    ThingOk(st, x);
    WealthAdd(st1, end, r, z);
  }

  lemma AddedOneAt(st: State, x: Thing, dest: Destination, m: nat, n: nat, y: Thing, t: Thing)
    requires Forest(st) && AddSound(st, x, dest, m, n) && Arrives(x, m, n) && x.typ.kind.Plain? && t in st.All()
    requires x.typ.stackable ==> y !in st.All()
    ensures SameKeys(st) && x in st.All() && KnownDestination(st, dest) && n <= m && dest.c in st.All()
    ensures var st1, end := Topped(st, x, dest, n), Added(st, x, dest, m, n, y);
            && SameKeys(st1) && SameKeys(end) && st1.All() == st.All() && t in end.All()
            && end.count[t] == st1.count[t]
            && end.above[t] == if t == (if NewStack(x, n) then y else x) then st1.above[t] + st.above[dest.c] + {dest.c}
                               else st1.above[t]
  {
    hide Forest, Linked, ListOk, ChainOk, AddSound, KnownDestination, Topped, Added, Worth;
    ForestKeys(st);
    AddKnown(st, x, dest, m, n);
    AddedAt(st, x, dest, m, n, y, t);
    PlainHoldsNothing(st, x, t);
  }

  lemma WealthAdd(st: State, end: State, r: Thing, z: Thing)
    requires SameKeys(st) && SameKeys(end) && z in end.All() && z !in st.Below(r)
    requires st.All() <= end.All() <= st.All() + {z} && r in end.above[z]
    requires forall t :: t in st.All() ==> end.count[t] == st.count[t] && (t != z ==> end.above[t] == st.above[t])
    ensures Wealth(end, r) == Wealth(st, r) + Worth(z, end.count[z])
  {
    hide Worth;
    assert end.Below(r) == st.Below(r) + {z};
    SumAdd(st.Below(r), Worths(st), Worths(end), z);
  }
}
