/** Paying with coins, and when the payment is exact. */
module Payment {
  import opened Bytes
  import opened ItemForest
  import opened ItemMove
  import opened MoveLaws
  import opened DepotLaw
  import opened ItemOps
  import opened ItemRuns
  import opened ItemSearch
  import opened GameWorld
  import opened Coins
  import opened Money
  import opened Change

  /** Coins inside the cylinder, each of them once. */
  ghost predicate Purse(st: State, coins: seq<Thing>, root: Thing)
    requires SameKeys(st)
  {
    && NoDuplicates(coins) && Known(st, coins)
    && forall t :: t in coins ==> PurseCoin(st, t, root)
  }

  ghost predicate PurseCoin(st: State, t: Thing, root: Thing)
    requires SameKeys(st) && t in st.All()
  {
    root in st.above[t] && t.typ.kind.Plain? && t !in st.freed && Worth(t, st.count[t]) != 0
  }

  lemma PurseFound(st: State, c: Thing, root: Thing)
    requires Setting(st, c, root)
    ensures SameKeys(st) && Known(st, Visit(st, [c])) && Purse(st, CoinsIn(st, Visit(st, [c])), root)
    ensures SumWorths(st, CoinsIn(st, Visit(st, [c]))) == Wealth(st, c)
    ensures forall t :: t in CoinsIn(st, Visit(st, [c])) ==> t in st.All() && c in st.above[t]
  {
    hide Forest, Linked, ListOk, ChainOk, Visit, NoDuplicates, Worth, Wealth, StacksOk, Within, CoinsPlain;
    SettingMeans(st, c, root);
    VisitOnce(st, c);
    VisitWealth(st, c);
    CoinsInSum(st, Visit(st, [c]));
    CoinsInAre(st, Visit(st, [c]));
    var coins := CoinsIn(st, Visit(st, [c]));
    forall t | t in coins ensures t in st.All() && PurseCoin(st, t, root) && c in st.above[t] {
      assert t in Visit(st, [c]);
      BelowTile(st, c, root, t);
    }
  }

  lemma BelowTile(st: State, c: Thing, root: Thing, t: Thing)
    requires Forest(st) && NothingLost(st) && CoinsPlain(st) && t in st.All() && c in st.above[t]
    requires c in st.above.Keys && Within(st, c, root)
    ensures root in st.above[t] && t !in st.freed
    ensures Worth(t, st.count[t]) != 0 ==> t.typ.kind.Plain?
  {
    hide Linked;
    ThingOk(st, t);
    AboveTransitive(st, t, c);
  }

  /** The first `i` coins are gone, and nothing else has changed. */
  ghost predicate SpentAt(st: State, end: State, coins: seq<Thing>, i: nat, t: Thing)
    requires SameKeys(st) && SameKeys(end) && end.All() == st.All() && t in st.All() && i <= |coins|
  {
    && end.count[t] == st.count[t]
    && if t in coins[..i] then end.parent[t] == null && t in end.freed
       else end.parent[t] == st.parent[t] && end.above[t] == st.above[t] && (t in end.freed <==> t in st.freed)
  }

  ghost predicate Spent(st: State, end: State, c: Thing, root: Thing, coins: seq<Thing>, i: nat) {
    && SameKeys(st) && Setting(end, c, root) && SameKeys(end) && end.All() == st.All()
    && Known(st, coins) && i <= |coins| && Known(st, coins[..i])
    && Wealth(end, root) + SumWorths(st, coins[..i]) == Wealth(st, root)
    && forall t :: t in st.All() ==> SpentAt(st, end, coins, i, t)
  }

  lemma SpentStart(st: State, c: Thing, root: Thing, coins: seq<Thing>)
    requires Setting(st, c, root) && SameKeys(st) && Known(st, coins)
    ensures Spent(st, st, c, root, coins, 0)
  {
    hide Setting, Wealth, SameKeys;
  }

  lemma SpentMeans(st: State, end: State, c: Thing, root: Thing, coins: seq<Thing>, i: nat)
    requires Spent(st, end, c, root, coins, i)
    ensures Setting(end, c, root) && end.All() == st.All() && SameKeys(st) && Known(st, coins) && i <= |coins|
    ensures SameKeys(end) && (i < |coins| ==> coins[i] in st.All() && end.count[coins[i]] == st.count[coins[i]])
    ensures Known(st, coins[..i])
  {
    hide Setting, Wealth;
    if i < |coins| {
      assert SpentAt(st, end, coins, i, coins[i]);
    }
  }

  lemma SumPrefix(st: State, s: seq<Thing>, i: nat)
    requires SameKeys(st) && Known(st, s) && i < |s|
    ensures Known(st, s[..i]) && Known(st, s[..i + 1])
    ensures SumWorths(st, s[..i + 1]) == SumWorths(st, s[..i]) + Worth(s[i], st.count[s[i]])
  {
    hide Worth;
    assert s[..i + 1] == s[..i] + [s[i]];
    SumWorthsPush(st, s[..i], s[i]);
  }

  /** One more coin is taken. */
  lemma SpendOne(st: State, mid: State, c: Thing, root: Thing, coins: seq<Thing>, i: nat)
    requires Spent(st, mid, c, root, coins, i) && SameKeys(st) && Purse(st, coins, root) && i < |coins|
    ensures Forest(mid) && coins[i] in mid.All()
    ensures Spent(st, RemoveItem(mid, coins[i], -1).1, c, root, coins, i + 1)
  {
    hide Forest, Linked, ListOk, ChainOk, RemoveItem, NoDuplicates, Wealth, Worth, SumWorths;
    var x := coins[i];
    SpentMeans(st, mid, c, root, coins, i);
    SettingMeans(mid, c, root);
    NotYet(coins, i);
    assert SpentAt(st, mid, coins, i, x) && PurseCoin(st, x, root);
    OneCoin(mid, c, root, x);
    var end := RemoveItem(mid, x, -1).1;
    SumPrefix(st, coins, i);
    forall t | t in st.All() ensures SpentAt(st, end, coins, i + 1, t) {
      assert SpentAt(st, mid, coins, i, t);
      PrefixNext(coins, i, t);
    }
  }

  lemma NotYet(s: seq<Thing>, i: nat)
    requires NoDuplicates(s) && i < |s|
    ensures s[i] !in s[..i]
  {
  }

  lemma PrefixNext(s: seq<Thing>, i: nat, t: Thing)
    requires i < |s|
    ensures t in s[..i + 1] <==> t in s[..i] || t == s[i]
  {
    assert s[..i + 1] == s[..i] + [s[i]];
  }

  /** Taking one coin away. */
  lemma OneCoin(st: State, c: Thing, root: Thing, x: Thing)
    requires Setting(st, c, root) && SameKeys(st) && x in st.All() && PurseCoin(st, x, root)
    ensures Forest(st)
    ensures var end := RemoveItem(st, x, -1).1;
            && SameKeys(end) && end.All() == st.All() && Setting(end, c, root)
            && Wealth(end, root) == Wealth(st, root) - Worth(x, st.count[x])
            && end.parent == st.parent[x := null] && end.count == st.count && end.freed == st.freed + {x}
            && forall t :: t in st.All() && t != x ==> end.above[t] == st.above[t]
  {
    hide Linked, ListOk, ChainOk, RemoveItem, Wealth;
    assert Worth(x, 0) == 0;
    RemoveWealth(st, x, root);
    StepKeepsIff(st, RemoveOp(x, -1));
  }

  /** A coin that was taken is out of the world; every other thing is where it was. */
  ghost predicate PaidAt(st: State, end: State, coins: seq<Thing>, k: nat, t: Thing)
    requires SameKeys(st) && SameKeys(end) && t in st.All() && k <= |coins|
  {
    && t in end.All()
    && if t in coins[..k] then end.parent[t] == null && t in end.freed
       else end.parent[t] == st.parent[t] && (t in end.freed <==> t in st.freed)
  }

  /** `money` has been paid from the fewest of the least coins, with change in at most one stack of each; `lost` is the
      change that was lost. */
  ghost predicate Paid(st: State, end: State, c: Thing, root: Thing, coins: seq<Thing>, k: nat, money: int, lost: nat) {
    && SameKeys(st) && Setting(end, c, root) && SameKeys(end) && st.All() <= end.All()
    && Wealth(end, root) == Wealth(st, root) - money - lost
    && 1 <= k <= |coins| && Known(st, coins[..k]) && Known(st, coins[..k - 1])
    && SumWorths(st, coins[..k - 1]) < money <= SumWorths(st, coins[..k])
    && (forall t :: t in st.All() ==> PaidAt(st, end, coins, k, t))
    && (forall t :: t in end.All() ==>
          NewStacks(st, end, CoinIds(), t))
    && (forall t, u :: t in end.All() && u in end.All() ==> OneOfEach(st, end, t, u))
  }

  lemma PaidUp(st: State, mid: State, end: State, c: Thing, root: Thing, coins: seq<Thing>, k: nat, money: int, w: nat, lost: nat)
    requires Spent(st, mid, c, root, coins, k) && SameKeys(st) && Known(st, coins) && 1 <= k <= |coins|
    requires Known(st, coins[..k - 1]) && Known(st, coins[..k]) && SumWorths(st, coins[..k - 1]) < money
    requires SumWorths(st, coins[..k]) == money + w + lost
    requires Changed(mid, end, c, root, w, CoinIds())
    ensures Paid(st, end, c, root, coins, k, money, lost)
  {
    hide Setting, Wealth, SumWorths;
    var ids := CoinIds();
    forall t | t in st.All() ensures PaidAt(st, end, coins, k, t) {
      assert SpentAt(st, mid, coins, k, t) && Unmoved(mid, end, t);
    }
    forall t | t in end.All() ensures NewStacks(st, end, ids, t) {
      assert NewStacks(mid, end, ids, t);
    }
    forall t, u | t in end.All() && u in end.All() ensures OneOfEach(st, end, t, u) {
      assert OneOfEach(mid, end, t, u);
    }
  }

  lemma CoinBound(st: State, c: Thing, root: Thing, x: Thing)
    requires Setting(st, c, root) && x in st.All() && x !in st.freed && SameKeys(st)
    ensures Worth(x, st.count[x]) <= 1_000_000
  {
    assert StackOk(x, st.count[x]);
    assert UnitWorth(x.typ.id) * st.count[x] <= 10000 * 100;
  }

  lemma CoinAlive(st: State, mid: State, c: Thing, root: Thing, coins: seq<Thing>, i: nat)
    requires Spent(st, mid, c, root, coins, i) && SameKeys(st) && Purse(st, coins, root) && i < |coins|
    ensures coins[i] in mid.All() && coins[i] !in mid.freed
    ensures Worth(coins[i], st.count[coins[i]]) <= 1_000_000
  {
    hide Setting, Wealth, NoDuplicates, SumWorths, Worth;
    var x := coins[i];
    SpentMeans(st, mid, c, root, coins, i);
    NotYet(coins, i);
    assert SpentAt(st, mid, coins, i, x) && PurseCoin(st, x, root);
    CoinBound(mid, c, root, x);
  }

  lemma SumRest(st: State, s: seq<Thing>, i: nat)
    requires SameKeys(st) && Known(st, s) && i <= |s|
    ensures Known(st, s[..i]) && SumWorths(st, s[..i]) <= SumWorths(st, s)
    ensures i == |s| ==> SumWorths(st, s[..i]) == SumWorths(st, s)
  {
    assert s == s[..i] + s[i..];
    SumWorthsConcat(st, s[..i], s[i..]);
  }

  /** The coins among these that are in the list of the container itself. */
  ghost function Here(st: State, coins: seq<Thing>, c: Thing): set<Thing>
    requires SameKeys(st) && Known(st, coins)
  {
    set t | t in coins && st.parent[t] == c
  }

  lemma {:induction false} SetOf(s: seq<Thing>)
    requires NoDuplicates(s)
    ensures |set t | t in s| == |s|
  {
    if s != [] {
      SetOf(s[1..]);
      assert (set t | t in s) == (set t | t in s[1..]) + {s[0]};
      NotYetAgain(s);
    }
  }

  lemma NotYetAgain(s: seq<Thing>)
    requires NoDuplicates(s) && s != []
    ensures s[0] !in s[1..]
  {
  }

  ghost function Kids(st: State, c: Thing): set<Thing>
    requires SameKeys(st)
  {
    set t | t in st.All() && st.parent[t] == c
  }

  lemma KidsCount(st: State, c: Thing)
    requires Forest(st) && SameKeys(st) && c in st.All()
    ensures |Kids(st, c)| == |st.list[c]|
  {
    hide ChainOk;
    assert ListOk(st, c);
    SetOf(st.list[c]);
    forall t | t in st.All() ensures t in Kids(st, c) <==> t in st.list[c] {
      assert ParentOk(st, t);
    }
    assert Kids(st, c) == set t | t in st.list[c];
  }

  /** Once the coins are taken, there is the room that they leave. */
  lemma FreeTaken(st: State, end: State, c: Thing, root: Thing, coins: seq<Thing>, k: nat)
    requires Spent(st, end, c, root, coins, k) && SameKeys(st) && Purse(st, coins, root) && Forest(st) && c in st.All()
    requires !c.typ.kind.Plain? && forall t :: t in coins ==> t in st.All() && c in st.above[t]
    ensures Forest(end) && c in end.All() && Known(st, coins[..k])
    ensures FreeFor(end, c) == FreeWith(st, c, |Here(st, coins[..k], c)|, k)
  {
    hide Forest, Linked, ListOk, ChainOk, FreeWith, TopOf, Wealth, NoDuplicates, Spent, SpentAt, Purse;
    SpentMeans(st, end, c, root, coins, k);
    SettingMeans(end, c, root);
    ThingKnown(st, c);
    forall u | u == c || u in st.above[c] ensures u in end.All() && end.parent[u] == st.parent[u] {
      OutsideStays(st, end, c, root, coins, k, u);
    }
    TopSame(st, end, c);
    ListTaken(st, end, c, root, coins, k);
    forall d | d in st.All() && Within(st, c, d) ensures |end.Below(d)| == |st.Below(d)| - k {
      BelowTaken(st, end, c, root, coins, k, d);
    }
    SameFree(st, end, c, |Here(st, coins[..k], c)|, k);
  }

  lemma OutsideStays(st: State, end: State, c: Thing, root: Thing, coins: seq<Thing>, k: nat, u: Thing)
    requires Spent(st, end, c, root, coins, k) && SameKeys(st) && Purse(st, coins, root) && Forest(st) && c in st.All()
    requires !c.typ.kind.Plain? && u in st.All() && (u == c || u in st.above[c])
    ensures SameKeys(end) && u in end.All() && end.parent[u] == st.parent[u]
  {
    hide Forest, Setting, Wealth, NoDuplicates;
    assert SpentAt(st, end, coins, k, u);
    if u in coins[..k] {
      assert PurseCoin(st, u, root);
      PlainHoldsNothing(st, u, c);
    }
  }

  lemma ListTaken(st: State, end: State, c: Thing, root: Thing, coins: seq<Thing>, k: nat)
    requires Spent(st, end, c, root, coins, k) && SameKeys(st) && Purse(st, coins, root) && Forest(st) && c in st.All()
    ensures SameKeys(end) && c in end.All() && Known(st, coins[..k])
    ensures |end.list[c]| == |st.list[c]| - |Here(st, coins[..k], c)|
  {
    hide Forest, Linked, ListOk, ChainOk, Wealth, NoDuplicates;
    SettingMeans(end, c, root);
    KidsCount(st, c);
    KidsCount(end, c);
    var here := Here(st, coins[..k], c);
    forall t | t in st.All() ensures t in Kids(end, c) <==> t in Kids(st, c) && t !in here {
      assert SpentAt(st, end, coins, k, t);
    }
    assert Kids(end, c) == Kids(st, c) - here;
    assert here <= Kids(st, c);
  }

  lemma BelowTaken(st: State, end: State, c: Thing, root: Thing, coins: seq<Thing>, k: nat, d: Thing)
    requires Spent(st, end, c, root, coins, k) && SameKeys(st) && Purse(st, coins, root) && Forest(st) && c in st.All()
    requires forall t :: t in coins ==> t in st.All() && c in st.above[t]
    requires d in st.All() && Within(st, c, d)
    ensures SameKeys(end) && |end.Below(d)| == |st.Below(d)| - k
  {
    hide Forest, Linked, ListOk, ChainOk, Wealth, Setting;
    SpentMeans(st, end, c, root, coins, k);
    SettingMeans(end, c, root);
    var gone := set t | t in coins[..k];
    SetOf(coins[..k]);
    forall t | t in gone ensures t in st.Below(d) {
      AboveTransitive(st, t, c);
    }
    forall t | t in st.All() ensures t in end.Below(d) <==> t in st.Below(d) && t !in gone {
      assert SpentAt(st, end, coins, k, t);
      if t in gone {
        ChainKnown(end, t);
      }
    }
    assert end.Below(d) == st.Below(d) - gone;
  }

  /** The change that is lost: none on a tile; under no tile, the stacks that the cylinder does not take. */
  ghost function LostChange(st: State, c: Thing, root: Thing, coins: seq<Thing>, k: nat, money: int, noLimit: bool,
                            coinage: Coinage): nat
    requires Forest(st) && SameKeys(st) && c in st.All() && k <= |coins| && Known(st, coins[..k])
  {
    var excess := SumWorths(st, coins[..k]) - money;
    if excess <= 0 then 0
    else Max(0, excess - ComesIn(root, coinage, excess, FreeWith(st, c, |Here(st, coins[..k], c)|, k), noLimit))
  }

  /** The payment is exact if and only if the cylinder stands on a tile, or takes every stack of change: each may be
      picked up, and limits are lifted or there is room for all of them. */
  lemma ExactIff(st: State, c: Thing, root: Thing, coins: seq<Thing>, k: nat, money: int, noLimit: bool,
                 coinage: Coinage)
    requires Forest(st) && SameKeys(st) && c in st.All() && k <= |coins| && Known(st, coins[..k]) && Minted(coinage)
    ensures var excess := Max(0, SumWorths(st, coins[..k]) - money);
            LostChange(st, c, root, coins, k, money, noLimit, coinage) == 0
            <==> || root.typ.kind.Tile?
                 || (&& (forall s :: s in Stacks(coinage, excess) ==> s.typ.pickupable)
                     && (|| noLimit
                         || |Stacks(coinage, excess)| <= FreeWith(st, c, |Here(st, coins[..k], c)|, k)))
  {
    hide Forest, FreeWith, Minted, Stacks, Kept, Here, SumWorths;
    var excess := Max(0, SumWorths(st, coins[..k]) - money);
    StacksAre(coinage, excess);
    NoStacks(coinage);
    AllKeptIff(Stacks(coinage, excess), FreeWith(st, c, |Here(st, coins[..k], c)|, k), noLimit);
  }

  lemma NoStacks(coinage: Coinage)
    ensures Stacks(coinage, 0) == []
  {
  }

  /** `removeMoney` pays exactly but for the change that is lost, or does nothing. */
  method RemoveMoney(g: Game, c: Thing, money: int, noLimit: bool, coinage: Coinage, ghost root: Thing)
    returns (ok: bool, ghost k: nat, ghost lost: nat)
    requires Setting(g.World(), c, root) && Minted(coinage)
    modifies g, g.things
    ensures SameKeys(old(g.World())) && Known(old(g.World()), Visit(old(g.World()), [c]))
    ensures Forest(old(g.World())) && c in old(g.World()).All()
    ensures ok <==> money <= 0 || Int32(Wealth(old(g.World()), c)) >= money
    ensures !ok || money <= 0 ==> g.World() == old(g.World())
    ensures ok && money > 0 ==>
              var st, coins := old(g.World()), CoinsIn(old(g.World()), Visit(old(g.World()), [c]));
              && Paid(st, g.World(), c, root, coins, k, money, lost)
              && k <= |coins| && Known(st, coins[..k])
              && lost == LostChange(st, c, root, coins, k, money, noLimit, coinage)
  {
    hide *;
    ghost var st := g.World();
    SettingMeans(st, c, root);
    PurseFound(st, c, root);
    g.ValidMeans();
    k, lost := 0, 0;
    if money <= 0 {
      return true, 0, 0;
    }
    var coins, moneyCount := CollectCoins(g, c);
    if moneyCount < money {
      return false, 0, 0;
    }
    Int32AtMost(Wealth(st, c));
    PurseMeans(st, coins, root);
    SpentStart(st, c, root, coins);
    NothingSpent(st, coins);
    var left, i := money, 0;
    while i < |coins| && left > 0
      invariant 0 <= i <= |coins| && 0 <= left && fresh(g.things - old(g.things))
      invariant g.Valid() && Known(st, coins[..i]) && Known(st, coins)
      invariant left > 0 ==> Spent(st, g.World(), c, root, coins, i) && left == money - SumWorths(st, coins[..i])
      invariant left == 0 ==>
                  && Paid(st, g.World(), c, root, coins, i, money, lost)
                  && lost == LostChange(st, c, root, coins, i, money, noLimit, coinage)
    {
      var item := coins[i];
      ghost var mid := g.World();
      SpentMeans(st, mid, c, root, coins, i);
      CoinAlive(st, mid, c, root, coins, i);
      SpendOne(st, mid, c, root, coins, i);
      SumPrefix(st, coins, i);
      g.InState(item);
      var worth := Worth(item, item.count);
      var _ := g.InternalRemoveItem(item, -1, false);
      ghost var taken := g.World();
      SpentMeans(st, taken, c, root, coins, i + 1);
      FreeTaken(st, taken, c, root, coins, i + 1);
      LostIs(st, c, root, coins, i + 1, money, noLimit, coinage);
      if worth <= left {
        left := left - worth;
        NotChanged(taken, c, root);
        ChangedAtMost(taken, taken, c, root, 0, {}, CoinIds());
        if left == 0 {
          lost := 0;
          PaidUp(st, taken, taken, c, root, coins, i + 1, money, 0, 0);
        }
      } else {
        GiveAllChange(g, c, worth - left, noLimit, coinage, root);
        ghost var w := ComesIn(root, coinage, worth - left, FreeFor(taken, c), noLimit);
        ChangeAtMost(root, coinage, worth - left, FreeFor(taken, c), noLimit);
        lost := worth - left - w;
        PaidUp(st, taken, g.World(), c, root, coins, i + 1, money, w, lost);
        left := 0;
      }
      i := i + 1;
    }
    SumRest(st, coins, i);
    k := i;
    ok := left == 0;
  }

  lemma LostIs(st: State, c: Thing, root: Thing, coins: seq<Thing>, k: nat, money: int, noLimit: bool, coinage: Coinage)
    requires Forest(st) && SameKeys(st) && c in st.All() && k <= |coins| && Known(st, coins[..k])
    ensures var excess, free := SumWorths(st, coins[..k]) - money, FreeWith(st, c, |Here(st, coins[..k], c)|, k);
            LostChange(st, c, root, coins, k, money, noLimit, coinage)
            == if excess <= 0 then 0 else Max(0, excess - ComesIn(root, coinage, excess, free, noLimit))
  {
    hide Forest, FreeWith, ComesIn, Here, SumWorths;
  }

  lemma ChangeAtMost(root: Thing, coinage: Coinage, excess: nat, free: nat, noLimit: bool)
    requires Minted(coinage)
    ensures ComesIn(root, coinage, excess, free, noLimit) <= excess
  {
    hide Minted, Stacks;
    StacksAre(coinage, excess);
  }

  /** `removeMoney` finds enough exactly when `getMoney` shows enough, and no more than a signed number can. */
  lemma EnoughIff(n: nat, money: int)
    requires money > 0
    ensures Int32(n) >= money <==> money <= n % UINT32 < 0x8000_0000
  {
  }

  lemma Int32AtMost(n: nat)
    ensures Int32(n) <= n
  {
  }

  lemma PurseMeans(st: State, coins: seq<Thing>, root: Thing)
    requires SameKeys(st) && Purse(st, coins, root)
    ensures Known(st, coins)
  {
  }

  lemma NothingSpent(st: State, coins: seq<Thing>)
    requires SameKeys(st)
    ensures Known(st, coins[..0]) && SumWorths(st, coins[..0]) == 0
  {
  }
}
