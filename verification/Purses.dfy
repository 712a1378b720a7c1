/** Purses that are nowhere, such as a depot before it is opened: what paying from them may do. */
module Purses {
  import opened Bytes
  import opened ItemForest
  import opened ItemMove
  import opened MoveLaws
  import opened ItemRuns
  import opened ItemSearch
  import opened GameWorld
  import opened Coins
  import opened Money
  import opened Change
  import opened Payment

  const GOLD := ThingType(ITEM_COINS_GOLD, Plain, true, true, true, 0, 0.1)
  const PLATINUM := ThingType(ITEM_COINS_PLATINUM, Plain, true, true, true, 0, 0.1)
  const CRYSTAL := ThingType(ITEM_COINS_CRYSTAL, Plain, true, true, true, 0, 0.1)

  function Bag(capacity: Slots): ThingType {
    ThingType(0, Box, false, true, true, capacity, 8.0)
  }

  lemma CoinTypes()
    ensures Coin(GOLD) && Coin(PLATINUM) && Coin(CRYSTAL) && Minted(Coinage(GOLD, PLATINUM, CRYSTAL))
    ensures GOLD.id == ITEM_COINS_GOLD && PLATINUM.id == ITEM_COINS_PLATINUM && CRYSTAL.id == ITEM_COINS_CRYSTAL
    ensures GOLD.pickupable && PLATINUM.pickupable && CRYSTAL.pickupable
    ensures forall n: nat :: CoinsWorth(ITEM_COINS_GOLD, n) == n && CoinsWorth(ITEM_COINS_PLATINUM, n) == 100 * n
                             && CoinsWorth(ITEM_COINS_CRYSTAL, n) == 10000 * n
  {
  }

  /** A world of one empty bag. */
  method NewPurse(capacity: Slots) returns (g: Game, bag: Thing)
    ensures fresh(g) && fresh(g.things) && g.things == {bag} && bag.typ == Bag(capacity)
    ensures Setting(g.World(), bag, bag) && SameKeys(g.World()) && Wealth(g.World(), bag) == 0
    ensures Forest(g.World()) && FreeFor(g.World(), bag) == capacity
  {
    g := new Game();
    ghost var st := g.World();
    bag := g.CreateItem(Bag(capacity), 1);
    BagAlone(st, bag, capacity);
  }

  lemma BagAlone(st: State, bag: Thing, capacity: Slots)
    requires Forest(st) && st.All() == {} && bag.typ == Bag(capacity)
    ensures var end := Create(st, bag, 1);
            && Setting(end, bag, bag) && SameKeys(end) && Wealth(end, bag) == 0
            && Forest(end) && FreeFor(end, bag) == capacity
  {
    hide Forest, Linked, ListOk, ChainOk, TopOf;
    ForestKeys(st);
    CreateForest(st, bag, 1);
    var end := Create(st, bag, 1);
    TopAlone(end, bag);
    assert end.Below(bag) == {};
    assert Bag(capacity).id == 0;
  }

  lemma TopAlone(st: State, c: Thing)
    requires Forest(st) && c in st.All() && st.parent[c] == null && !c.typ.kind.Plain?
    ensures TopOf(st, c) == c
  {
  }

  /** More coins for a purse, as if they were change: limits are lifted, so all of them come in. */
  method Fill(g: Game, bag: Thing, typ: ThingType, n: nat)
    requires Setting(g.World(), bag, bag) && SameKeys(g.World()) && Coin(typ) && typ.pickupable && 1 <= n <= 99
    requires bag.typ.kind.Box?
    modifies g, g.things
    ensures old(g.things) <= g.things && fresh(g.things - old(g.things))
    ensures Setting(g.World(), bag, bag) && SameKeys(g.World())
    ensures SameKeys(old(g.World())) && Wealth(g.World(), bag) == Wealth(old(g.World()), bag) + CoinsWorth(typ.id, n)
  {
    hide *;
    ghost var st := g.World();
    TakesAll(typ, bag);
    ghost var w := GiveChange(g, bag, typ, n, true, bag);
    WealthGiven(st, g.World(), bag, typ, w);
  }

  lemma TakesAll(typ: ThingType, bag: Thing)
    requires typ.pickupable && bag.typ.kind.Box?
    ensures forall free :: Accepts(typ, free, true)
    ensures !bag.typ.kind.Tile?
  {
  }

  lemma WealthGiven(st: State, end: State, bag: Thing, typ: ThingType, w: nat)
    requires Given(st, end, bag, bag, typ, w)
    ensures SameKeys(st) && SameKeys(end) && Setting(end, bag, bag) && Wealth(end, bag) == Wealth(st, bag) + w
  {
  }

  /** A purse with coins worth just beyond the signed numbers: `getMoney` shows it all, and a price of 1 is refused. */
  method TooRichToPay() returns (shown: nat, ok: bool)
    ensures shown == 0x8000_0000 && !ok
  {
    hide *;
    CoinTypes();
    BagKind(3000);
    var g, bag := NewPurse(3000);
    var i := 0;
    while i < 2169
      invariant 0 <= i <= 2169 && fresh(g) && fresh(g.things)
      invariant Setting(g.World(), bag, bag) && SameKeys(g.World()) && Wealth(g.World(), bag) == i * 990_000
    {
      Fill(g, bag, CRYSTAL, 99);
      i := i + 1;
    }
    Fill(g, bag, CRYSTAL, 17);
    Fill(g, bag, PLATINUM, 36);
    Fill(g, bag, GOLD, 48);
    SettingMeans(g.World(), bag, bag);
    g.ValidMeans();
    BeyondSigned();
    shown := GetMoney(g, bag);
    ghost var k, lost;
    ok, k, lost := RemoveMoney(g, bag, 1, false, Coinage(GOLD, PLATINUM, CRYSTAL), bag);
  }

  lemma BeyondSigned()
    ensures Int32(0x8000_0000) < 0 && 0x8000_0000 % UINT32 == 0x8000_0000
  {
  }

  lemma BagKind(capacity: Slots)
    ensures Bag(capacity).kind == Box
  {
  }

  // ---------------------------------------------------------------- change that is lost

  /** A bag with one slot and one crystal coin in it, standing on no tile, pays a price of 1: of the change of 99
      platinum and 99 gold coins only the platinum finds room, and the gold is lost. */
  method ChangeIsLost() returns (g: Game, bag: Thing, ok: bool)
    ensures ok && SameKeys(g.World()) && Wealth(g.World(), bag) == 10_000 - 1 - 99
  {
    hide *;
    CoinTypes();
    BagKind(1);
    g, bag := NewPurse(1);
    ghost var st0 := g.World();
    TakesAll(CRYSTAL, bag);
    ghost var w := GiveChange(g, bag, CRYSTAL, 1, true, bag);
    ghost var st := g.World();
    WealthGiven(st0, st, bag, CRYSTAL, w);
    SettingMeans(st, bag, bag);
    WayStart(st, bag);
    PurseFound(st, bag, bag);
    ghost var coins := CoinsIn(st, Visit(st, [bag]));
    PurseMeans(st, coins, bag);
    OneCoinThere(st0, st, bag, CRYSTAL, w, coins);
    OneCoinLost(st, bag, coins);
    SmallSigned();
    ghost var k, lost;
    ok, k, lost := RemoveMoney(g, bag, 1, false, Coinage(GOLD, PLATINUM, CRYSTAL), bag);
    PaidOne(st, g.World(), bag, coins, k, lost);
  }

  lemma AtMostOne(s: seq<Thing>)
    requires NoDuplicates(s) && forall t, u :: t in s && u in s ==> t == u
    ensures |s| <= 1
  {
    if |s| > 1 {
      TwoThings(s);
    }
  }

  lemma TwoThings(s: seq<Thing>)
    requires NoDuplicates(s) && |s| > 1
    ensures s[0] in s && s[1] in s && s[0] != s[1]
  {
  }

  /** Whatever is in the bag is the stack that was put in. */
  lemma OnlyOne(st0: State, st: State, bag: Thing, typ: ThingType, w: nat, t: Thing, u: Thing)
    requires Given(st0, st, bag, bag, typ, w) && st0.All() == {bag}
    requires t in st.All() && u in st.All() && st.parent[t] != null && st.parent[u] != null
    ensures t == u
  {
    hide Wealth;
    SettingMeans(st, bag, bag);
    assert t != bag && u != bag;
    assert Placed(st0, st, t) && Placed(st0, st, u);
  }

  lemma CoinInside(st: State, bag: Thing, coins: seq<Thing>, t: Thing)
    requires Forest(st) && SameKeys(st) && Known(st, coins) && Purse(st, coins, bag) && t in coins
    ensures t in st.All() && st.parent[t] != null
  {
    assert PurseCoin(st, t, bag) && ChainOk(st, t);
  }

  lemma ListInside(st: State, bag: Thing, t: Thing)
    requires Forest(st) && SameKeys(st) && bag in st.All() && t in st.list[bag]
    ensures t in st.All() && st.parent[t] == bag
  {
    assert ListOk(st, bag);
  }

  lemma ListOnce(st: State, bag: Thing)
    requires Forest(st) && SameKeys(st) && bag in st.All()
    ensures NoDuplicates(st.list[bag])
  {
    assert ListOk(st, bag);
  }

  lemma PurseOnce(st: State, bag: Thing, coins: seq<Thing>)
    requires SameKeys(st) && Purse(st, coins, bag)
    ensures NoDuplicates(coins) && Known(st, coins)
  {
  }

  /** The coin that was given is all there is in the bag. */
  lemma OneCoinThere(st0: State, st: State, bag: Thing, typ: ThingType, w: nat, coins: seq<Thing>)
    requires Given(st0, st, bag, bag, typ, w) && st0.All() == {bag} && w > 0 && bag.typ == Bag(1)
    requires Forest(st) && SameKeys(st) && bag in st.All() && FreeFor(st, bag) == 0 && st.parent[bag] == null
    requires Known(st, coins) && Purse(st, coins, bag) && SumWorths(st, coins) == w
    ensures |coins| == 1 && st.list[bag] == coins && st.parent[coins[0]] == bag
  {
    hide Given, Forest, FreeFor, Purse, SumWorths, Known, NoDuplicates;
    PurseOnce(st, bag, coins);
    ListOnce(st, bag);
    forall t | t in coins || t in st.list[bag] ensures t in st.All() && st.parent[t] != null {
      if t in coins {
        CoinInside(st, bag, coins, t);
      } else {
        ListInside(st, bag, t);
      }
    }
    forall t, u | (t in coins || t in st.list[bag]) && (u in coins || u in st.list[bag]) ensures t == u {
      OnlyOne(st0, st, bag, typ, w, t, u);
    }
    AtMostOne(coins);
    AtMostOne(st.list[bag]);
    SomeCoins(st, coins);
    BagFull(st, bag);
    assert st.list[bag][0] in st.list[bag] && coins[0] in coins;
    ListInside(st, bag, st.list[bag][0]);
  }

  lemma SomeCoins(st: State, coins: seq<Thing>)
    requires SameKeys(st) && Known(st, coins) && SumWorths(st, coins) > 0
    ensures coins != []
  {
  }

  lemma BagFull(st: State, bag: Thing)
    requires Forest(st) && SameKeys(st) && bag in st.All() && bag.typ == Bag(1) && st.parent[bag] == null
    requires FreeFor(st, bag) == 0
    ensures st.list[bag] != []
  {
    hide Forest, TopOf;
    TopAlone(st, bag);
  }

  lemma OneCoinLost(st: State, bag: Thing, coins: seq<Thing>)
    requires Forest(st) && SameKeys(st) && bag in st.All() && bag.typ == Bag(1) && st.parent[bag] == null
    requires |coins| == 1 && Known(st, coins) && st.list[bag] == coins && st.parent[coins[0]] == bag
    requires SumWorths(st, coins) == 10_000
    ensures coins[..1] == coins
    ensures LostChange(st, bag, bag, coins, 1, 1, false, Coinage(GOLD, PLATINUM, CRYSTAL)) == 99
  {
    hide Forest, TopOf, SumWorths, Stacks, Kept;
    assert coins[..1] == coins;
    TopAlone(st, bag);
    assert Here(st, coins, bag) == {coins[0]};
    SomeKept();
  }

  lemma SomeKept()
    ensures Kept(Stacks(Coinage(GOLD, PLATINUM, CRYSTAL), 9999), 1, false) == 9900
  {
    KeptThree(Coinage(GOLD, PLATINUM, CRYSTAL), 9999, 1, false, 0, 99, 99);
  }

  lemma PaidOne(st: State, end: State, bag: Thing, coins: seq<Thing>, k: nat, lost: nat)
    requires Paid(st, end, bag, bag, coins, k, 1, lost) && |coins| == 1
    ensures k == 1 && SameKeys(st) && SameKeys(end) && Wealth(end, bag) == Wealth(st, bag) - 1 - lost
  {
  }

  lemma SmallSigned()
    ensures Int32(10_000) == 10_000
  {
  }
}
