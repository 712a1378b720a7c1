/** Counting the money inside a cylinder. */
module Money {
  import opened Bytes
  import opened ItemForest
  import opened ItemMove
  import opened MoveLaws
  import opened ItemRuns
  import opened ItemSearch
  import opened GameWorld
  import opened Coins

  lemma Int32Sum(a: int, b: int)
    ensures Int32(Int32(a) + b) == Int32(a + b)
  {
  }

  // ---------------------------------------------------------------- counting

  lemma SumWorthsPush(st: State, s: seq<Thing>, t: Thing)
    requires st.count.Keys == st.All() && Known(st, s) && t in st.All()
    ensures Known(st, s + [t]) && SumWorths(st, s + [t]) == SumWorths(st, s) + Worth(t, st.count[t])
  {
    hide Worth;
    SumWorthsConcat(st, s, [t]);
  }

  /** What has been looked at: the things before this container, and its first `i` items. */
  ghost predicate Seen(st: State, seen: seq<Thing>, had: seq<Thing>, list: seq<Thing>, i: nat) {
    i <= |list| && seen == had + list[..i] && Known(st, seen)
  }

  lemma SeenStart(st: State, had: seq<Thing>, list: seq<Thing>)
    requires Known(st, had)
    ensures Seen(st, had, had, list, 0)
  {
  }

  lemma SeenNext(st: State, seen: seq<Thing>, had: seq<Thing>, list: seq<Thing>, i: nat)
    requires Seen(st, seen, had, list, i) && i < |list| && Known(st, list)
    ensures Known(st, seen) && list[i] in st.All() && Seen(st, seen + [list[i]], had, list, i + 1)
  {
    assert list[..i + 1] == list[..i] + [list[i]];
  }

  lemma SeenEnd(st: State, seen: seq<Thing>, had: seq<Thing>, list: seq<Thing>)
    requires Seen(st, seen, had, list, |list|)
    ensures Known(st, seen) && seen == had + list
  {
    assert list[..|list|] == list;
  }

  /** The walk so far and the walk still to come make up the whole walk. */
  ghost predicate OnTheWay(st: State, c: Thing, seen: seq<Thing>, queue: seq<Thing>)
    requires Forest(st) && c in st.All() && Known(st, queue)
  {
    Visit(st, [c]) == seen + Visit(st, queue)
  }

  lemma WayStart(st: State, c: Thing)
    requires Forest(st) && c in st.All()
    ensures Known(st, [c]) && Known(st, []) && OnTheWay(st, c, [], [c])
  {
    hide Forest, Visit;
  }

  lemma WayOn(st: State, c: Thing, had: seq<Thing>, q: seq<Thing>, seen: seq<Thing>, rest: seq<Thing>)
    requires Forest(st) && c in st.All() && Known(st, q) && OnTheWay(st, c, had, q) && q != [] && q[0] in st.list
    requires Seen(st, seen, had, st.list[q[0]], |st.list[q[0]]|)
    requires Scanned(rest, q, st.list[q[0]], |st.list[q[0]]|)
    ensures Known(st, rest) && Size(st, rest) < Size(st, q) && OnTheWay(st, c, seen, rest)
  {
    hide Forest, Visit, Scanned, Size;
    WalkOn(st, q, rest);
    SeenEnd(st, seen, had, st.list[q[0]]);
    ConcatAssoc(had, st.list[q[0]], Visit(st, rest));
  }

  lemma WayEnd(st: State, c: Thing, seen: seq<Thing>)
    requires Forest(st) && c in st.All() && Known(st, []) && OnTheWay(st, c, seen, [])
    ensures Visit(st, [c]) == seen
  {
    EmptyVisit(st);
    assert seen + [] == seen;
  }

  lemma NothingWorth(st: State)
    requires Forest(st)
    ensures SameKeys(st) && Known(st, []) && SumWorths(st, []) == 0 && CoinsIn(st, []) == []
  {
  }

  /** A container is worth nothing itself. */
  lemma BoxWorth(st: State, t: Thing)
    requires CoinsPlain(st) && t in st.All() && !t.typ.kind.Plain?
    ensures forall n: nat :: Worth(t, n) == 0
  {
  }

  /** `getMoney` */
  method GetMoney(g: Game, c: Thing) returns (moneyCount: nat)
    requires g.Valid() && c in g.things && CoinsPlain(g.World())
    ensures SameKeys(g.World())
    ensures moneyCount == Wealth(g.World(), c) % UINT32
  {
    hide *;
    g.ValidMeans();
    ghost var st := g.World();
    ForestKeys(st);
    VisitWealth(st, c);
    WayStart(st, c);
    NothingWorth(st);
    moneyCount := 0;
    ghost var seen: seq<Thing> := [];
    var queue: seq<Thing> := [c];
    while queue != []
      invariant st == g.World() && Known(st, queue) && OnTheWay(st, c, seen, queue)
      invariant Known(st, seen) && moneyCount == SumWorths(st, seen) % 0x1_0000_0000
      decreases Size(st, queue)
    {
      ghost var before, had := queue, seen;
      FirstKnown(st, queue);
      var container := queue[0];
      g.InState(container);
      queue := queue[1..];
      ScanStart(before, container.list);
      SeenStart(st, had, container.list);
      var i := 0;
      while i < |container.list|
        invariant i <= |container.list| && Scanned(queue, before, container.list, i)
        invariant Seen(st, seen, had, container.list, i)
        invariant Known(st, seen) && moneyCount == SumWorths(st, seen) % 0x1_0000_0000
      {
        var item := container.list[i];
        ScanNext(queue, before, container.list, i);
        SeenNext(st, seen, had, container.list, i);
        SumWorthsPush(st, seen, item);
        seen := seen + [item];
        g.InState(item);
        if !item.typ.kind.Plain? {
          queue := queue + [item];
          BoxWorth(st, item);
        } else if Worth(item, item.count) != 0 {
          moneyCount := (moneyCount + Worth(item, item.count)) % 0x1_0000_0000;
        }
        i := i + 1;
      }
      WayOn(st, c, had, before, seen, queue);
    }
    WayEnd(st, c, seen);
    Uint32Is(Wealth(st, c));
  }

  lemma Uint32Is(n: int)
    ensures n % UINT32 == n % 0x1_0000_0000
  {
  }

  // ---------------------------------------------------------------- collecting

  lemma InsertAt(st: State, s: seq<Thing>, i: nat, t: Thing)
    requires st.count.Keys == st.All() && Known(st, s) && t in st.All() && i <= |s|
    requires forall j :: 0 <= j < i ==> Worth(s[j], st.count[s[j]]) <= Worth(t, st.count[t])
    requires i < |s| ==> Worth(s[i], st.count[s[i]]) > Worth(t, st.count[t])
    ensures AddCoin(st, s, t) == s[..i] + [t] + s[i..]
  {
    hide Worth;
    if i == 0 {
      AtStart(s, t);
    } else {
      assert forall j :: 0 <= j < i - 1 ==> s[1..][j] == s[j + 1];
      assert i < |s| ==> s[1..][i - 1] == s[i];
      InsertAt(st, s[1..], i - 1, t);
      InsertShift(s, i, t);
    }
  }

  lemma AtStart<T>(s: seq<T>, t: T)
    ensures s[..0] + [t] + s[0..] == [t] + s
  {
  }

  lemma InsertShift<T>(s: seq<T>, i: nat, t: T)
    requires 0 < i <= |s|
    ensures [s[0]] + (s[1..][..i - 1] + [t] + s[1..][i - 1..]) == s[..i] + [t] + s[i..]
  {
  }

  /** Puts a coin into the map that is ordered by worth. */
  method InsertCoin(g: Game, coins: seq<Thing>, t: Thing) returns (more: seq<Thing>)
    requires g.Valid() && Known(g.World(), coins) && t in g.things
    ensures SameKeys(g.World()) && more == AddCoin(g.World(), coins, t)
  {
    hide *;
    g.ValidMeans();
    ghost var st := g.World();
    ForestKeys(st);
    g.InState(t);
    var i := 0;
    while i < |coins|
      invariant 0 <= i <= |coins|
      invariant forall j :: 0 <= j < i ==>
                  coins[j] in st.count && Worth(coins[j], st.count[coins[j]]) <= Worth(t, st.count[t])
    {
      KnownAt(st, coins, i);
      g.InState(coins[i]);
      if Worth(coins[i], coins[i].count) > Worth(t, t.count) {
        break;
      }
      i := i + 1;
    }
    more := coins[..i] + [t] + coins[i..];
    InsertAt(st, coins, i, t);
  }

  lemma KnownAt(st: State, s: seq<Thing>, i: nat)
    requires Known(st, s) && i < |s|
    ensures s[i] in st.All()
  {
  }

  /** The first half of `removeMoney`: all coins in the cylinder by worth, and what they are worth together. */
  method CollectCoins(g: Game, c: Thing) returns (coins: seq<Thing>, moneyCount: int)
    requires g.Valid() && c in g.things && CoinsPlain(g.World())
    ensures SameKeys(g.World()) && Known(g.World(), Visit(g.World(), [c]))
    ensures coins == CoinsIn(g.World(), Visit(g.World(), [c]))
    ensures moneyCount == Int32(Wealth(g.World(), c))
  {
    hide *;
    g.ValidMeans();
    ghost var st := g.World();
    ForestKeys(st);
    VisitWealth(st, c);
    WayStart(st, c);
    NothingWorth(st);
    Int32Zero();
    coins, moneyCount := [], 0;
    ghost var seen: seq<Thing> := [];
    var queue: seq<Thing> := [c];
    while queue != []
      invariant st == g.World() && Known(st, queue) && OnTheWay(st, c, seen, queue)
      invariant Known(st, seen) && moneyCount == Int32(SumWorths(st, seen)) && coins == CoinsIn(st, seen)
      decreases Size(st, queue)
    {
      ghost var before, had := queue, seen;
      FirstKnown(st, queue);
      var container := queue[0];
      g.InState(container);
      queue := queue[1..];
      ScanStart(before, container.list);
      SeenStart(st, had, container.list);
      var i := 0;
      while i < |container.list|
        invariant i <= |container.list| && Scanned(queue, before, container.list, i)
        invariant Seen(st, seen, had, container.list, i)
        invariant Known(st, seen) && moneyCount == Int32(SumWorths(st, seen)) && coins == CoinsIn(st, seen)
      {
        var item := container.list[i];
        ScanNext(queue, before, container.list, i);
        SeenNext(st, seen, had, container.list, i);
        SumWorthsPush(st, seen, item);
        CoinsInPush(st, seen, item);
        g.InState(item);
        if !item.typ.kind.Plain? {
          queue := queue + [item];
          BoxWorth(st, item);
        } else if Worth(item, item.count) != 0 {
          Int32Sum(SumWorths(st, seen), Worth(item, item.count));
          moneyCount := Int32(moneyCount + Worth(item, item.count));
          coins := InsertCoin(g, coins, item);
        }
        seen := seen + [item];
        i := i + 1;
      }
      WayOn(st, c, had, before, seen, queue);
    }
    WayEnd(st, c, seen);
  }

  lemma Int32Zero()
    ensures Int32(0) == 0
  {
  }
}
