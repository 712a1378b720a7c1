/** Giving change: what a cylinder takes, and what becomes of the rest. */
module Change {
  import opened Bytes
  import opened Sums
  import opened ItemForest
  import opened ItemMove
  import opened MoveLaws
  import opened DepotLaw
  import opened ItemOps
  import opened ItemRuns
  import opened GameWorld
  import opened Coins

  lemma TopRoot(st: State, c: Thing)
    requires Forest(st) && c in st.All() && !c.typ.kind.Plain?
    ensures TopOf(st, c) != null && TopOf(st, c) in st.All() && Within(st, c, TopOf(st, c))
    ensures var top := TopOf(st, c);
            if st.parent[top] == null then top == c
            else st.parent[top] in st.All() && Within(st, c, st.parent[top]) && st.parent[st.parent[top]] == null
    decreases |st.above[c]|
  {
    hide Linked;
    ThingOk(st, c);
    var p := st.parent[c];
    if p != null {
      ThingOk(st, p);
      if st.parent[p] != null {
        SmallerAbove(st, c);
        TopRoot(st, p);
      }
    }
  }

  /** A chain of parents has one end. */
  lemma OneEnd(st: State, c: Thing, end: Thing, root: Thing)
    requires Forest(st) && c in st.All() && end in st.All() && root in st.All()
    requires Within(st, c, end) && st.parent[end] == null && Within(st, c, root) && st.parent[root] == null
    ensures end == root
  {
    hide Linked;
    ThingOk(st, end);
    ThingOk(st, root);
    if c != end && c != root {
      AboveLinear(st, c, end, root);
    }
  }

  /** `getTile`: null for a chain that does not end in a tile. */
  method GetTile(g: Game, c: Thing, ghost root: Thing) returns (found: Thing?)
    requires g.Valid() && c in g.things && !c.typ.kind.Plain?
    requires root in g.things && root.parent == null && Within(g.World(), c, root)
    ensures found == if root.typ.kind.Tile? then root else null
  {
    hide *;
    g.ValidMeans();
    ghost var st := g.World();
    TopRoot(st, c);
    g.InState(root);
    var cylinder := g.GetTopParent(c);
    g.InState(cylinder);
    var end: Thing := cylinder;
    if cylinder.parent != null {
      end := cylinder.parent;
      g.InState(end);
    }
    OneEnd(st, c, end, root);
    found := if end.typ.kind.Tile? then end else null;
  }

  /** The cylinder money is taken from, and the end of its chain of parents: a tile, or a container that is nowhere. */
  ghost predicate Setting(st: State, c: Thing, root: Thing) {
    && Sane(st) && CoinsPlain(st) && c in st.All() && root in st.All() && !c.typ.kind.Plain? && !root.typ.kind.Plain?
    && st.parent[root] == null && Within(st, c, root)
  }

  /** A thing stays where it is, and a coin of another kind stays what it is. */
  ghost predicate Stays(st: State, end: State, id: nat, t: Thing)
    requires SameKeys(st) && SameKeys(end)
  {
    t in st.All() ==>
      && t in end.All() && end.parent[t] == st.parent[t] && end.above[t] == st.above[t]
      && (t in end.freed <==> t in st.freed) && (t.typ.id != id ==> end.count[t] == st.count[t])
  }

  /** A new coin: of this type, 1 to 99 of them. */
  ghost predicate NewCoin(st: State, end: State, typ: ThingType, t: Thing)
    requires SameKeys(end)
  {
    t in end.All() && t !in st.All() ==> t.typ == typ && 1 <= end.count[t] <= 99
  }

  ghost predicate Placed(st: State, end: State, t: Thing)
    requires SameKeys(end)
  {
    t in end.All() && t !in st.All() && end.parent[t] != null
  }

  ghost predicate Coin(typ: ThingType) {
    UnitWorth(typ.id) != 0 && typ.kind.Plain? && typ.stackable
  }

  lemma DestinationIsSelf(st: State, to: Thing)
    requires SameKeys(st) && to in st.All()
    ensures QueryDestination(st, to, INDEX_WHEREEVER).c == to
  {
  }

  /** A coin that is nowhere yet and may be given as change. */
  ghost predicate Loose(st: State, x: Thing)
    requires SameKeys(st)
  {
    x in st.All() && x !in st.freed && st.parent[x] == null && Coin(x.typ) && 1 <= st.count[x] <= 99
  }

  /** What adding a coin does to the wealth under the root and to everything else. */
  lemma ChangeAdded(st: State, to: Thing, x: Thing, noLimit: bool, y: Thing, root: Thing)
    requires Setting(st, to, root) && SameKeys(st) && Loose(st, x) && y !in st.All() && y.typ == x.typ
    requires AddPlan(st, to, INDEX_WHEREEVER, x, noLimit).Go?
    ensures var end := AddItem(st, to, INDEX_WHEREEVER, x, noLimit, y).1;
            && SameKeys(end) && Sane(end) && CoinsPlain(end) && st.All() <= end.All() <= st.All() + {y}
            && Wealth(end, root) == Wealth(st, root) + Worth(x, st.count[x])
            && (forall t :: t != x ==> Stays(st, end, x.typ.id, t))
            && end.count[x] == st.count[x]
            && (y in end.All() ==> end.parent[x] == null && 1 <= end.count[y] <= 99)
  {
    hide Forest, Linked, ListOk, ChainOk, NothingLost, StacksOk, AddSound, KnownDestination, Added, AddPlan;
    hide Worth, Wealth, UnitWorth, QueryDestination;
    ForestKeys(st);
    var plan := AddPlan(st, to, INDEX_WHEREEVER, x, noLimit);
    DestinationIsSelf(st, to);
    AddPlanSound(st, to, INDEX_WHEREEVER, x, noLimit);
    PlanDestination(st, to, INDEX_WHEREEVER, x, noLimit);
    AddSane(st, AddOp(to, INDEX_WHEREEVER, x, noLimit, y));
    AddKnown(st, x, plan.dest, plan.m, plan.n);
    AddWealth(st, x, plan.dest, plan.m, plan.n, y, root);
    NoSpill(st, x, plan.dest, plan.m, plan.n);
    AddedNew(st, x, plan.dest, plan.m, plan.n, y);
    var end := AddItem(st, to, INDEX_WHEREEVER, x, noLimit, y).1;
    forall t | t in st.All() && t != x ensures Stays(st, end, x.typ.id, t) {
      AddedAt(st, x, plan.dest, plan.m, plan.n, y, t);
      PlainHoldsNothing(st, x, t);
      if t.typ.id != x.typ.id {
        ToppedOther(st, x, plan.dest, plan.n, t);
      }
    }
    AddedAt(st, x, plan.dest, plan.m, plan.n, y, x);
    ToppedSelf(st, x, plan.dest, plan.m, plan.n);
  }

  lemma ToppedOther(st: State, x: Thing, dest: Destination, n: nat, t: Thing)
    requires SameKeys(st) && KnownDestination(st, dest) && t in st.All() && t.typ.id != x.typ.id
    ensures Topped(st, x, dest, n).count[t] == st.count[t]
  {
  }

  lemma PlanDestination(st: State, to: Thing, index: int, x: Thing, noLimit: bool)
    requires Forest(st) && to in st.All() && x in st.All()
    ensures var plan := AddPlan(st, to, index, x, noLimit);
            plan.Go? ==> plan.dest == QueryDestination(st, to, index)
  {
    hide Forest, QueryDestination, QueryAdd, QueryMaxCount, Merged;
  }

  lemma TileTakes(st: State, root: Thing, x: Thing)
    requires Forest(st) && root in st.All() && x in st.All() && root.typ.kind.Tile?
    ensures AddPlan(st, root, INDEX_WHEREEVER, x, true).Go?
  {
    hide Forest, Merged;
  }

  lemma AddRefusal(st: State, to: Thing, x: Thing, noLimit: bool, y: Thing)
    requires Forest(st) && to in st.All() && x in st.All()
    ensures var (ret, end) := AddItem(st, to, INDEX_WHEREEVER, x, noLimit, y);
            if AddPlan(st, to, INDEX_WHEREEVER, x, noLimit).Go? then ret == RET_NOERROR
            else ret != RET_NOERROR && end == st
  {
    hide Forest, Linked, Added, QueryDestination, QueryAdd, QueryMaxCount, Merged;
  }

  lemma SettingMeans(st: State, c: Thing, root: Thing)
    requires Setting(st, c, root)
    ensures Forest(st) && SameKeys(st) && Sane(st) && CoinsPlain(st) && c in st.All() && root in st.All()
    ensures !c.typ.kind.Plain? && st.parent[root] == null && Within(st, c, root) && Setting(st, root, root)
  {
  }

  /** A new coin changes nothing but that it is there. */
  lemma CoinCreated(st: State, c: Thing, root: Thing, x: Thing, n: nat)
    requires Setting(st, c, root) && SameKeys(st) && x !in st.All() && Coin(x.typ) && 1 <= n <= 99
    ensures var end := Create(st, x, n);
            && Setting(end, c, root) && Loose(end, x) && Wealth(end, root) == Wealth(st, root)
            && end.All() == st.All() + {x} && end.count[x] == n && SameKeys(end)
            && forall t :: Stays(st, end, x.typ.id, t)
  {
    hide *;
    SettingCreated(st, c, root, x, n);
    BelowCreated(st, x, n, root);
    SumsSame(st, Create(st, x, n), root);
    forall t: Thing ensures Stays(st, Create(st, x, n), x.typ.id, t) {
      StaysCreated(st, x, n, t);
    }
  }

  lemma StaysCreated(st: State, x: Thing, n: nat, t: Thing)
    requires SameKeys(st) && x !in st.All()
    ensures Stays(st, Create(st, x, n), x.typ.id, t)
  {
  }

  lemma SettingCreated(st: State, c: Thing, root: Thing, x: Thing, n: nat)
    requires Setting(st, c, root) && SameKeys(st) && x !in st.All() && Coin(x.typ) && 1 <= n <= 99
    ensures var end := Create(st, x, n);
            && Setting(end, c, root) && Loose(end, x) && end.All() == st.All() + {x} && end.count[x] == n
            && SameKeys(end) && forall t :: t in st.All() ==> end.count[t] == st.count[t]
  {
    hide Forest, Linked, ListOk, ChainOk, NothingLost, StacksOk, Sane;
    SettingMeans(st, c, root);
    CoinStack(st, x, n);
    StepKeepsIff(st, NewOp(x, n));
  }

  lemma CoinStack(st: State, x: Thing, n: nat)
    requires Forest(st) && x !in st.All() && Coin(x.typ) && 1 <= n <= 99
    ensures Enabled(st, NewOp(x, n))
  {
  }

  lemma BelowCreated(st: State, x: Thing, n: nat, r: Thing)
    requires SameKeys(st) && x !in st.All()
    ensures Create(st, x, n).Below(r) == st.Below(r)
  {
  }

  lemma SumsSame(st: State, end: State, r: Thing)
    requires SameKeys(st) && SameKeys(end) && end.Below(r) == st.Below(r) && st.All() <= end.All()
    requires forall t :: t in st.All() ==> end.count[t] == st.count[t]
    ensures Wealth(end, r) == Wealth(st, r)
  {
    hide Worth;
    SumSame(st.Below(r), Worths(st), Worths(end));
  }

  /** What has been given as change, as the worlds before and after see it; `w` is the worth that has come in. */
  ghost predicate Given(st: State, end: State, c: Thing, root: Thing, typ: ThingType, w: nat) {
    && Setting(end, c, root) && SameKeys(st) && SameKeys(end) && st.All() <= end.All()
    && Wealth(end, root) == Wealth(st, root) + w
    && (forall t :: t in st.All() ==> Stays(st, end, typ.id, t))
    && (forall t :: t in end.All() ==> NewCoin(st, end, typ, t))
    && (forall t, u :: t in end.All() && u in end.All() && Placed(st, end, t) && Placed(st, end, u) ==> t == u)
  }

  lemma ChangeGiven(st: State, c: Thing, root: Thing, to: Thing, x: Thing, n: nat, noLimit: bool, y: Thing)
    requires Setting(st, c, root) && SameKeys(st) && x !in st.All() && Coin(x.typ) && 1 <= n <= 99
    requires to == c || to == root
    requires y !in st.All() && y != x && y.typ == x.typ
    ensures var st1 := Create(st, x, n);
            && Forest(st1) && to in st1.All() && x in st1.All()
            && (AddPlan(st1, to, INDEX_WHEREEVER, x, noLimit).Go? ==>
                  Given(st, AddItem(st1, to, INDEX_WHEREEVER, x, noLimit, y).1, c, root, x.typ, CoinsWorth(x.typ.id, n)))
  {
    hide *;
    CoinCreated(st, c, root, x, n);
    var st1 := Create(st, x, n);
    SettingMeans(st1, c, root);
    if AddPlan(st1, to, INDEX_WHEREEVER, x, noLimit).Go? {
      ChangeAdded(st1, to, x, noLimit, y, root);
      GivenGlue(st, st1, AddItem(st1, to, INDEX_WHEREEVER, x, noLimit, y).1, c, root, x, n, y);
    }
  }

  lemma GivenGlue(st: State, st1: State, end: State, c: Thing, root: Thing, x: Thing, n: nat, y: Thing)
    requires SameKeys(st) && SameKeys(st1) && SameKeys(end) && Setting(st, c, root)
    requires x !in st.All() && y !in st.All() && x != y && y.typ == x.typ && 1 <= n <= 99
    requires st1.All() == st.All() + {x} && st1.All() <= end.All() <= st1.All() + {y}
    requires Wealth(st1, root) == Wealth(st, root) && Wealth(end, root) == Wealth(st1, root) + Worth(x, st1.count[x])
    requires st1.count[x] == n && end.count[x] == n
    requires forall t :: Stays(st, st1, x.typ.id, t)
    requires forall t :: t != x ==> Stays(st1, end, x.typ.id, t)
    requires y in end.All() ==> end.parent[x] == null && 1 <= end.count[y] <= 99
    requires Sane(end) && CoinsPlain(end)
    ensures Given(st, end, c, root, x.typ, CoinsWorth(x.typ.id, n))
  {
    hide Sane, CoinsPlain, Wealth, SameKeys;
    forall t ensures Stays(st, end, x.typ.id, t) && NewCoin(st, end, x.typ, t) {
      assert Stays(st, st1, x.typ.id, t);
      if t != x {
        assert Stays(st1, end, x.typ.id, t);
      }
    }
    assert Stays(st, end, x.typ.id, c) && Stays(st, end, x.typ.id, root);
  }

  // ---------------------------------------------------------------- who takes change

  /** What a depot may still take, once so many of the things inside have left. */
  ghost function Left(st: State, d: Thing, gone: nat): nat
    requires st.above.Keys == st.All()
  {
    Max(0, d.depotLimit - |st.Below(d)| + gone)
  }

  /** How many more things a container takes without the flag that lifts limits, once `here` things have left its list
      and `gone` have left it at any depth. */
  ghost function FreeWith(st: State, c: Thing, here: nat, gone: nat): nat
    requires Forest(st) && c in st.All()
  {
    var slots: nat := Max(0, c.typ.capacity - |st.list[c]| + here);
    var own: nat := if c.typ.kind.Depot? then Min(slots, Left(st, c, gone)) else slots;
    var top := TopOf(st, c);
    if top != null && top != c && top.typ.kind.Depot? then Min(own, Left(st, top, gone)) else own
  }

  ghost function FreeFor(st: State, c: Thing): nat
    requires Forest(st) && c in st.All()
  {
    FreeWith(st, c, 0, 0)
  }

  predicate Accepts(typ: ThingType, free: nat, noLimit: bool) {
    typ.pickupable && (noLimit || free > 0)
  }

  /** A container takes a coin exactly if it may be picked up and there is room for it. */
  lemma AcceptsIff(st: State, c: Thing, x: Thing, noLimit: bool)
    requires Forest(st) && c in st.All() && SameKeys(st) && Loose(st, x) && !c.typ.kind.Plain? && !c.typ.kind.Tile?
    ensures AddPlan(st, c, INDEX_WHEREEVER, x, noLimit).Go? <==> Accepts(x.typ, FreeFor(st, c), noLimit)
  {
    PlainHoldsNothing(st, x, c);
    LooseTop(st, x);
    LooseDest(st, c);
    FitsStack(st, c, x, noLimit);
    hide Forest, Linked, ListOk, ChainOk, TopOf, QueryDestination, QueryMaxCount, Merged;
  }

  lemma LooseTop(st: State, x: Thing)
    requires Forest(st) && SameKeys(st) && Loose(st, x)
    ensures TopOf(st, x) == null
  {
  }

  lemma LooseDest(st: State, c: Thing)
    requires SameKeys(st) && c in st.All() && !c.typ.kind.Tile?
    ensures QueryDestination(st, c, INDEX_WHEREEVER) == Destination(c, INDEX_WHEREEVER, null)
  {
  }

  lemma FitsStack(st: State, c: Thing, x: Thing, noLimit: bool)
    requires Forest(st) && SameKeys(st) && c in st.All() && Loose(st, x) && !c.typ.kind.Tile?
    ensures forall t :: t in st.list[c] ==> t in st.All()
    ensures noLimit || |st.list[c]| < c.typ.capacity ==>
              QueryMaxCount(st, c, INDEX_WHEREEVER, x, st.count[x], noLimit).0 == RET_NOERROR
  {
    hide ChainOk;
    assert ListOk(st, c);
    hide Linked;
    var free := c.typ.capacity - |st.list[c]|;
    if free > 0 {
      assert (free * 100 + 0) % UINT32 == free * 100;
    }
  }

  /** The outermost container depends on the chain of parents only. */
  lemma {:induction false} TopSame(st: State, end: State, t: Thing)
    requires Forest(st) && Forest(end) && t in st.All() && t in end.All()
    requires end.parent[t] == st.parent[t]
    requires forall u :: u in st.above[t] ==> u in end.All() && u in st.All() && end.parent[u] == st.parent[u]
    ensures TopOf(end, t) == TopOf(st, t)
    decreases |st.above[t]|
  {
    hide Linked;
    ThingOk(st, t);
    var p := st.parent[t];
    if p != null && st.parent[p] != null {
      ThingOk(st, p);
      SmallerAbove(st, t);
      TopSame(st, end, p);
    }
  }

  /** Where the free room of a container comes from. */
  lemma SameFree(st: State, end: State, c: Thing, here: nat, gone: nat)
    requires Forest(st) && Forest(end) && c in st.All() && c in end.All() && TopOf(end, c) == TopOf(st, c)
    requires |end.list[c]| == |st.list[c]| - here
    requires forall d :: d in st.All() && Within(st, c, d) ==> d in end.All() && |end.Below(d)| == |st.Below(d)| - gone
    ensures FreeFor(end, c) == FreeWith(st, c, here, gone)
  {
    hide Forest, TopOf;
    ForestKeys(st);
    ForestKeys(end);
    var top := TopOf(st, c);
    assert Within(st, c, c);
    if top != null && top != c {
      assert Within(st, c, top);
    }
  }

  lemma FreeCreated(st: State, x: Thing, n: nat, c: Thing)
    requires Forest(st) && x !in st.All() && c in st.All()
    ensures Forest(Create(st, x, n)) && FreeFor(Create(st, x, n), c) == FreeFor(st, c)
  {
    hide Forest, Linked, ListOk, ChainOk, FreeWith, TopOf, Create;
    ForestKeys(st);
    CreateForest(st, x, n);
    var end := Create(st, x, n);
    CreateAt(st, x, n, c);
    ThingKnown(st, c);
    forall u | u in st.above[c] ensures u in end.All() && end.parent[u] == st.parent[u] {
      CreateAt(st, x, n, u);
    }
    TopSame(st, end, c);
    forall d | d in st.All() ensures |end.Below(d)| == |st.Below(d)| {
      BelowCreated(st, x, n, d);
    }
    SameFree(st, end, c, 0, 0);
  }

  /** A coin that a container takes is one thing more in it and in all that is around it. */
  lemma CoinArrives(st: State, c: Thing, x: Thing, noLimit: bool, y: Thing, t: Thing)
    requires Forest(st) && c in st.All() && SameKeys(st) && Loose(st, x) && !c.typ.kind.Plain? && !c.typ.kind.Tile?
    requires AddPlan(st, c, INDEX_WHEREEVER, x, noLimit).Go? && y !in st.All() && t in st.All()
    ensures var end := AddItem(st, c, INDEX_WHEREEVER, x, noLimit, y).1;
            && SameKeys(end) && end.All() == st.All()
            && end.parent[t] == (if t == x then c else st.parent[t])
            && |end.list[t]| == |st.list[t]| + (if t == c then 1 else 0)
            && end.above[t] == if t == x then st.above[c] + {c} else st.above[t]
  {
    hide Forest, Linked, ListOk, ChainOk, AddSound, KnownDestination, Added, AddPlan, Loose;
    LooseChain(st, x);
    LooseMeans(st, x);
    PlainHoldsNothing(st, x, t);
    AddPlanSound(st, c, INDEX_WHEREEVER, x, noLimit);
    WholePlan(st, c, x, noLimit);
    var plan := AddPlan(st, c, INDEX_WHEREEVER, x, noLimit);
    AddKnown(st, x, plan.dest, plan.m, plan.n);
    AddedAt(st, x, plan.dest, plan.m, plan.n, y, t);
    AddedNew(st, x, plan.dest, plan.m, plan.n, y);
  }

  lemma WholePlan(st: State, c: Thing, x: Thing, noLimit: bool)
    requires Forest(st) && c in st.All() && SameKeys(st) && Loose(st, x) && !c.typ.kind.Tile?
    requires AddPlan(st, c, INDEX_WHEREEVER, x, noLimit).Go?
    ensures var plan := AddPlan(st, c, INDEX_WHEREEVER, x, noLimit);
            plan.dest == Destination(c, INDEX_WHEREEVER, null) && plan.n == 0 && plan.m != 0
  {
    hide Forest, Linked, ListOk, ChainOk, QueryDestination, QueryAdd;
    LooseDest(st, c);
  }

  lemma LooseChain(st: State, x: Thing)
    requires Forest(st) && SameKeys(st) && Loose(st, x)
    ensures st.above[x] == {} && st.parent[x] == null && x.typ.kind.Plain? && x.typ.stackable && 1 <= st.count[x]
  {
    assert ChainOk(st, x);
  }

  lemma FreeAdded(st: State, c: Thing, x: Thing, noLimit: bool, y: Thing)
    requires Forest(st) && c in st.All() && SameKeys(st) && Loose(st, x) && !c.typ.kind.Plain? && !c.typ.kind.Tile?
    requires AddPlan(st, c, INDEX_WHEREEVER, x, noLimit).Go? && y !in st.All() && y.typ == x.typ
    ensures var end := AddItem(st, c, INDEX_WHEREEVER, x, noLimit, y).1;
            Forest(end) && c in end.All() && FreeFor(end, c) == Max(FreeFor(st, c) - 1, 0)
  {
    hide Forest, Linked, ListOk, ChainOk, AddItem, AddPlan, FreeWith, TopOf;
    var end := AddItem(st, c, INDEX_WHEREEVER, x, noLimit, y).1;
    CoinAddForest(st, c, x, noLimit, y);
    CoinArrives(st, c, x, noLimit, y, c);
    PlainHoldsNothing(st, x, c);
    ThingKnown(st, c);
    forall u | u in st.above[c] ensures u in end.All() && end.parent[u] == st.parent[u] {
      CoinArrives(st, c, x, noLimit, y, u);
    }
    TopSame(st, end, c);
    forall d | d in st.All() && Within(st, c, d) ensures |end.Below(d)| == |st.Below(d)| + 1 {
      OneMoreBelow(st, c, x, noLimit, y, d);
    }
    OneLessFree(st, end, c);
  }

  lemma CoinAddForest(st: State, c: Thing, x: Thing, noLimit: bool, y: Thing)
    requires Forest(st) && c in st.All() && SameKeys(st) && Loose(st, x) && !c.typ.kind.Plain?
    requires AddPlan(st, c, INDEX_WHEREEVER, x, noLimit).Go? && y !in st.All() && y.typ == x.typ
    ensures Forest(AddItem(st, c, INDEX_WHEREEVER, x, noLimit, y).1)
  {
    hide Forest, Linked, ListOk, ChainOk, AddPlan, AddSound, Added;
    var plan := AddPlan(st, c, INDEX_WHEREEVER, x, noLimit);
    AddPlanSound(st, c, INDEX_WHEREEVER, x, noLimit);
    AddedForest(st, x, plan.dest, plan.m, plan.n, y);
  }

  lemma OneMoreBelow(st: State, c: Thing, x: Thing, noLimit: bool, y: Thing, d: Thing)
    requires Forest(st) && c in st.All() && SameKeys(st) && Loose(st, x) && !c.typ.kind.Plain? && !c.typ.kind.Tile?
    requires AddPlan(st, c, INDEX_WHEREEVER, x, noLimit).Go? && y !in st.All()
    requires d in st.All() && Within(st, c, d)
    ensures var end := AddItem(st, c, INDEX_WHEREEVER, x, noLimit, y).1;
            SameKeys(end) && |end.Below(d)| == |st.Below(d)| + 1
  {
    hide Forest, Linked, ListOk, ChainOk, AddItem, AddPlan;
    LooseChain(st, x);
    CoinArrives(st, c, x, noLimit, y, x);
    var end := AddItem(st, c, INDEX_WHEREEVER, x, noLimit, y).1;
    forall t | t in st.All() ensures t in end.Below(d) <==> t in st.Below(d) || t == x {
      CoinArrives(st, c, x, noLimit, y, t);
    }
    assert end.Below(d) == st.Below(d) + {x};
  }

  lemma OneLessFree(st: State, end: State, c: Thing)
    requires Forest(st) && Forest(end) && c in st.All() && c in end.All() && TopOf(end, c) == TopOf(st, c)
    requires |end.list[c]| == |st.list[c]| + 1
    requires forall d :: d in st.All() && Within(st, c, d) ==> d in end.All() && |end.Below(d)| == |st.Below(d)| + 1
    ensures FreeFor(end, c) == Max(FreeFor(st, c) - 1, 0)
  {
    hide Forest, TopOf;
    ForestKeys(st);
    ForestKeys(end);
    var top := TopOf(st, c);
    assert Within(st, c, c);
    if top != null && top != c {
      assert Within(st, c, top);
    }
  }

  /** A coin that nobody takes is lost. */
  lemma GivenNothing(st: State, c: Thing, root: Thing, x: Thing, n: nat)
    requires Setting(st, c, root) && SameKeys(st) && x !in st.All() && Coin(x.typ) && 1 <= n <= 99
    ensures Given(st, Create(st, x, n), c, root, x.typ, 0)
  {
    hide Setting, Wealth, Create, SameKeys;
    CoinCreated(st, c, root, x, n);
    var end := Create(st, x, n);
    forall t | t in end.All() ensures NewCoin(st, end, x.typ, t) && !Placed(st, end, t) {
      assert Loose(end, x);
    }
  }

  /** A stack of change goes into the cylinder, or onto the tile if the cylinder does not take it; without a tile, it is
      then lost. */
  method GiveChange(g: Game, c: Thing, typ: ThingType, n: nat, noLimit: bool, ghost root: Thing) returns (ghost w: nat)
    requires Setting(g.World(), c, root) && Coin(typ) && 1 <= n <= 99
    modifies g, g.things
    ensures g.Valid() && old(g.things) <= g.things && fresh(g.things - old(g.things))
    ensures Given(old(g.World()), g.World(), c, root, typ, w)
    ensures Forest(old(g.World())) && c in old(g.World()).All() && c in g.World().All()
    ensures var free := FreeFor(old(g.World()), c);
            && w == (if root.typ.kind.Tile? || Accepts(typ, free, noLimit) then CoinsWorth(typ.id, n) else 0)
            && (!root.typ.kind.Tile? ==>
                  FreeFor(g.World(), c) == if Accepts(typ, free, noLimit) then Max(free - 1, 0) else free)
  {
    hide *;
    ghost var st := g.World();
    SettingMeans(st, c, root);
    g.ValidMeans();
    var remaindItem := g.CreateItem(typ, n);
    CoinCreated(st, c, root, remaindItem, n);
    SettingMeans(g.World(), c, root);
    ChangePlain(typ);
    g.ValidMeans();
    g.InState(remaindItem);
    LooseMeans(g.World(), remaindItem);
    ghost var st1 := g.World();
    var ret, y := g.InternalAddItem(c, INDEX_WHEREEVER, remaindItem, noLimit, false);
    AddRefusal(st1, c, remaindItem, noLimit, y);
    ChangeGiven(st, c, root, c, remaindItem, n, noLimit, y);
    GivenNothing(st, c, root, remaindItem, n);
    ChangeTaken(st, c, root, remaindItem, n, noLimit, y);
    w := if ret == RET_NOERROR then CoinsWorth(typ.id, n) else 0;
    if ret != RET_NOERROR {
      w := DropChange(g, c, remaindItem, root, st, n);
    }
    GivenMeans(st, g.World(), c, root, typ, w);
  }

  /** The change that the cylinder did not take goes onto the tile, if there is one. */
  method DropChange(g: Game, c: Thing, x: Thing, ghost root: Thing, ghost st: State, ghost n: nat) returns (ghost w: nat)
    requires Setting(st, c, root) && SameKeys(st) && x !in st.All() && Coin(x.typ) && 1 <= n <= 99
    requires g.World() == Create(st, x, n) && g.Valid() && c in g.things && x in g.things && root in g.things
    modifies g, g.things
    ensures g.Valid() && fresh(g.things - old(g.things))
    ensures Given(st, g.World(), c, root, x.typ, w)
    ensures w == if root.typ.kind.Tile? then CoinsWorth(x.typ.id, n) else 0
    ensures !root.typ.kind.Tile? ==> g.World() == old(g.World())
  {
    hide *;
    ghost var st1 := g.World();
    CoinCreated(st, c, root, x, n);
    SettingMeans(st1, c, root);
    GivenNothing(st, c, root, x, n);
    ChangePlain(x.typ);
    LooseMeans(st1, x);
    g.InState(x);
    g.InState(root);
    w := 0;
    var ground := GetTile(g, c, root);
    if ground != null {
      TileTakes(st1, root, x);
      var ret, y := g.InternalAddItem(ground, INDEX_WHEREEVER, x, true, false);
      ChangeGiven(st, c, root, root, x, n, true, y);
      w := CoinsWorth(x.typ.id, n);
      GivenMeans(st, g.World(), c, root, x.typ, w);
    }
  }

  /** Under no tile, the cylinder takes a stack of change exactly if it may be picked up and there is room. */
  lemma ChangeTaken(st: State, c: Thing, root: Thing, x: Thing, n: nat, noLimit: bool, y: Thing)
    requires Setting(st, c, root) && SameKeys(st) && x !in st.All() && Coin(x.typ) && 1 <= n <= 99
    requires y !in st.All() && y != x && y.typ == x.typ
    ensures var st1 := Create(st, x, n);
            Forest(st) && Forest(st1) && c in st.All() && c in st1.All() && x in st1.All()
    ensures var st1, free := Create(st, x, n), FreeFor(st, c);
            var end := AddItem(st1, c, INDEX_WHEREEVER, x, noLimit, y).1;
            !root.typ.kind.Tile? ==>
              && (AddPlan(st1, c, INDEX_WHEREEVER, x, noLimit).Go? <==> Accepts(x.typ, free, noLimit))
              && Forest(end) && c in end.All()
              && FreeFor(end, c) == if Accepts(x.typ, free, noLimit) then Max(free - 1, 0) else free
  {
    hide Forest, Setting, FreeFor, Accepts, AddItem, AddPlan, Create, Loose;
    SettingMeans(st, c, root);
    CoinCreated(st, c, root, x, n);
    FreeCreated(st, x, n, c);
    var st1 := Create(st, x, n);
    SettingMeans(st1, c, root);
    AddRefusal(st1, c, x, noLimit, y);
    if !root.typ.kind.Tile? {
      NotTileUnder(st1, c, root);
      AcceptsIff(st1, c, x, noLimit);
      if AddPlan(st1, c, INDEX_WHEREEVER, x, noLimit).Go? {
        FreeAdded(st1, c, x, noLimit, y);
      }
    }
  }

  lemma NotTileUnder(st: State, c: Thing, root: Thing)
    requires Setting(st, c, root) && !root.typ.kind.Tile?
    ensures !c.typ.kind.Tile?
  {
    hide Linked;
    ThingOk(st, c);
  }

  lemma GivenMeans(st: State, end: State, c: Thing, root: Thing, typ: ThingType, w: nat)
    requires Given(st, end, c, root, typ, w)
    ensures st.All() <= end.All() && Setting(end, c, root)
  {
  }

  lemma ChangePlain(typ: ThingType)
    requires Coin(typ)
    ensures typ.kind.Plain?
  {
  }

  lemma LooseMeans(st: State, x: Thing)
    requires SameKeys(st) && Loose(st, x)
    ensures x in st.All() && st.parent[x] == null
  {
  }

  /** The item types of the three coins. */
  datatype Coinage = Coinage(gold: ThingType, platinum: ThingType, crystal: ThingType)

  ghost predicate Minted(coinage: Coinage) {
    && Coin(coinage.gold) && coinage.gold.id == ITEM_COINS_GOLD
    && Coin(coinage.platinum) && coinage.platinum.id == ITEM_COINS_PLATINUM
    && Coin(coinage.crystal) && coinage.crystal.id == ITEM_COINS_CRYSTAL
  }

  /** A thing that was there before the change was given stays where it is. */
  ghost predicate Unmoved(st: State, end: State, t: Thing)
    requires SameKeys(st) && SameKeys(end)
  {
    t in st.All() ==> t in end.All() && end.parent[t] == st.parent[t] && (t in end.freed <==> t in st.freed)
  }

  /** A stack given as change: 1 to 99 coins of one of these types. */
  ghost predicate NewStacks(st: State, end: State, ids: set<nat>, t: Thing)
    requires SameKeys(end)
  {
    t in end.All() && t !in st.All() ==> 1 <= end.count[t] <= 99 && t.typ.id in ids
  }

  /** There are no two such stacks of one type. */
  ghost predicate OneOfEach(st: State, end: State, t: Thing, u: Thing)
    requires SameKeys(end)
  {
    Placed(st, end, t) && Placed(st, end, u) && t.typ.id == u.typ.id ==> t == u
  }

  /** Change of this worth has been given: stacks of 1 to 99 coins, at most one for each of these types. */
  ghost predicate Changed(st: State, end: State, c: Thing, root: Thing, worth: nat, ids: set<nat>) {
    && Setting(end, c, root) && SameKeys(st) && SameKeys(end) && st.All() <= end.All()
    && Wealth(end, root) == Wealth(st, root) + worth
    && (forall t :: t in st.All() ==> Unmoved(st, end, t))
    && (forall t :: t in end.All() ==> NewStacks(st, end, ids, t))
    && (forall t, u :: t in end.All() && u in end.All() ==> OneOfEach(st, end, t, u))
  }

  function CoinIds(): (ids: set<nat>) {
    {ITEM_COINS_CRYSTAL, ITEM_COINS_PLATINUM, ITEM_COINS_GOLD}
  }

  lemma NotChanged(st: State, c: Thing, root: Thing)
    requires Setting(st, c, root)
    ensures Changed(st, st, c, root, 0, {})
  {
    hide Wealth, CoinsPlain, Forest;
    SettingMeans(st, c, root);
  }

  lemma ChangedMeans(st: State, end: State, c: Thing, root: Thing, worth: nat, ids: set<nat>)
    requires Changed(st, end, c, root, worth, ids)
    ensures Setting(end, c, root)
  {
  }

  /** One more kind of coin is given. */
  lemma ChangedMore(st: State, mid: State, end: State, c: Thing, root: Thing, worth: nat, ids: set<nat>,
                    typ: ThingType, w: nat)
    requires Changed(st, mid, c, root, worth, ids) && Given(mid, end, c, root, typ, w) && typ.id !in ids
    ensures Changed(st, end, c, root, worth + w, ids + {typ.id})
  {
    hide Setting, Wealth, NewStacks, OneOfEach, NewCoin;
    forall t | t in st.All() ensures Unmoved(st, end, t) {
      assert Unmoved(st, mid, t) && Stays(mid, end, typ.id, t);
    }
    forall t | t in end.All() ensures NewStacks(st, end, ids + {typ.id}, t) {
      StacksMore(st, mid, end, ids, typ, t);
    }
    forall t, u | t in end.All() && u in end.All() ensures OneOfEach(st, end, t, u) {
      OnesMore(st, mid, end, ids, typ, t, u);
    }
  }

  lemma StacksMore(st: State, mid: State, end: State, ids: set<nat>, typ: ThingType, t: Thing)
    requires SameKeys(mid) && SameKeys(end) && t in end.All() && typ.id !in ids
    requires Stays(mid, end, typ.id, t) && NewCoin(mid, end, typ, t) && (t in mid.All() ==> NewStacks(st, mid, ids, t))
    ensures NewStacks(st, end, ids + {typ.id}, t)
  {
  }

  lemma OnesMore(st: State, mid: State, end: State, ids: set<nat>, typ: ThingType, t: Thing, u: Thing)
    requires SameKeys(mid) && SameKeys(end) && t in end.All() && u in end.All() && typ.id !in ids
    requires Stays(mid, end, typ.id, t) && NewCoin(mid, end, typ, t) && (t in mid.All() ==> NewStacks(st, mid, ids, t))
    requires Stays(mid, end, typ.id, u) && NewCoin(mid, end, typ, u) && (u in mid.All() ==> NewStacks(st, mid, ids, u))
    requires t in mid.All() && u in mid.All() ==> OneOfEach(st, mid, t, u)
    requires Placed(mid, end, t) && Placed(mid, end, u) ==> t == u
    requires st.All() <= mid.All()
    ensures OneOfEach(st, end, t, u)
  {
  }

  lemma ChangeParts(remaind: nat, crys: nat, plat: nat, gold: nat)
    requires remaind < 1_000_000 && crys == remaind / 10000 && plat == (remaind - crys * 10000) / 100
    requires gold == remaind - crys * 10000 - plat * 100
    ensures crys <= 99 && plat <= 99 && gold <= 99
    ensures CoinsWorth(ITEM_COINS_CRYSTAL, crys) + CoinsWorth(ITEM_COINS_PLATINUM, plat)
            + CoinsWorth(ITEM_COINS_GOLD, gold) == remaind
  {
  }

  /** The stacks of change for an excess, in the order in which they are given. */
  datatype Stack = Stack(typ: ThingType, n: nat)

  function One(typ: ThingType, n: nat): seq<Stack> {
    if n == 0 then [] else [Stack(typ, n)]
  }

  function Stacks(coinage: Coinage, excess: nat): seq<Stack> {
    var crys := excess / 10000;
    var plat: nat := (excess - crys * 10000) / 100;
    var gold: nat := excess - crys * 10000 - plat * 100;
    One(coinage.crystal, crys) + (One(coinage.platinum, plat) + One(coinage.gold, gold))
  }

  function StacksWorth(stacks: seq<Stack>): nat {
    if stacks == [] then 0 else CoinsWorth(stacks[0].typ.id, stacks[0].n) + StacksWorth(stacks[1..])
  }

  /** The worth of the stacks that a container with so much room takes, one after the other. */
  function Kept(stacks: seq<Stack>, free: nat, noLimit: bool): (w: nat)
    ensures w <= StacksWorth(stacks)
  {
    if stacks == [] then 0
    else if Accepts(stacks[0].typ, free, noLimit)
    then CoinsWorth(stacks[0].typ.id, stacks[0].n) + Kept(stacks[1..], Max(free - 1, 0), noLimit)
    else Kept(stacks[1..], free, noLimit)
  }

  /** A container takes all stacks if and only if all may be picked up and it has room for each. */
  lemma {:induction false} AllKeptIff(stacks: seq<Stack>, free: nat, noLimit: bool)
    requires forall s :: s in stacks ==> CoinsWorth(s.typ.id, s.n) > 0
    ensures Kept(stacks, free, noLimit) == StacksWorth(stacks)
            <==> (forall s :: s in stacks ==> s.typ.pickupable) && (noLimit || |stacks| <= free)
  {
    hide CoinsWorth;
    if stacks != [] {
      AllKeptIff(stacks[1..], if Accepts(stacks[0].typ, free, noLimit) then Max(free - 1, 0) else free, noLimit);
      assert forall s :: s in stacks <==> s == stacks[0] || s in stacks[1..];
    }
  }

  lemma StacksAre(coinage: Coinage, excess: nat)
    requires Minted(coinage)
    ensures StacksWorth(Stacks(coinage, excess)) == excess
    ensures forall s :: s in Stacks(coinage, excess) ==> CoinsWorth(s.typ.id, s.n) > 0
  {
    var crys := excess / 10000;
    var plat: nat := (excess - crys * 10000) / 100;
    var gold: nat := excess - crys * 10000 - plat * 100;
    SumOne(coinage.gold, gold, []);
    assert One(coinage.gold, gold) + [] == One(coinage.gold, gold);
    SumOne(coinage.platinum, plat, One(coinage.gold, gold));
    SumOne(coinage.crystal, crys, One(coinage.platinum, plat) + One(coinage.gold, gold));
  }

  lemma SumOne(typ: ThingType, n: nat, rest: seq<Stack>)
    requires UnitWorth(typ.id) != 0
    ensures StacksWorth(One(typ, n) + rest) == CoinsWorth(typ.id, n) + StacksWorth(rest)
    ensures n != 0 ==> CoinsWorth(typ.id, n) > 0
  {
    if n != 0 {
      assert (One(typ, n) + rest)[1..] == rest;
    } else {
      assert One(typ, n) + rest == rest;
    }
  }

  /** What is kept of one stack, and the room after it. */
  function KeepOne(typ: ThingType, n: nat, free: nat, noLimit: bool): (nat, nat) {
    if n == 0 || !Accepts(typ, free, noLimit) then (0, free) else (CoinsWorth(typ.id, n), Max(free - 1, 0))
  }

  lemma KeptOne(typ: ThingType, n: nat, rest: seq<Stack>, free: nat, noLimit: bool)
    ensures var (w, free') := KeepOne(typ, n, free, noLimit);
            Kept(One(typ, n) + rest, free, noLimit) == w + Kept(rest, free', noLimit)
  {
    if n != 0 {
      assert (One(typ, n) + rest)[1..] == rest;
    } else {
      assert One(typ, n) + rest == rest;
    }
  }

  lemma KeptThree(coinage: Coinage, excess: nat, free: nat, noLimit: bool, crys: nat, plat: nat, gold: nat)
    requires crys == excess / 10000 && plat == (excess - crys * 10000) / 100
    requires gold == excess - crys * 10000 - plat * 100
    ensures var (a, f) := KeepOne(coinage.crystal, crys, free, noLimit);
            var (b, g) := KeepOne(coinage.platinum, plat, f, noLimit);
            var (c, _) := KeepOne(coinage.gold, gold, g, noLimit);
            Kept(Stacks(coinage, excess), free, noLimit) == a + b + c
  {
    hide Accepts, CoinsWorth;
    var last := One(coinage.gold, gold);
    KeptOne(coinage.crystal, crys, One(coinage.platinum, plat) + last, free, noLimit);
    var (a, f) := KeepOne(coinage.crystal, crys, free, noLimit);
    KeptOne(coinage.platinum, plat, last, f, noLimit);
    var (b, g) := KeepOne(coinage.platinum, plat, f, noLimit);
    KeptOne(coinage.gold, gold, [], g, noLimit);
    assert last + [] == last;
  }

  /** What has come in of the change for an excess. */
  ghost function ComesIn(root: Thing, coinage: Coinage, excess: nat, free: nat, noLimit: bool): nat {
    if root.typ.kind.Tile? then excess else Kept(Stacks(coinage, excess), free, noLimit)
  }

  /** The change for what the last coins are worth too much: as few coins as can be. */
  method GiveAllChange(g: Game, c: Thing, remaind: nat, noLimit: bool, coinage: Coinage, ghost root: Thing)
    requires Setting(g.World(), c, root) && Minted(coinage) && remaind < 1_000_000
    modifies g, g.things
    ensures g.Valid() && fresh(g.things - old(g.things))
    ensures Forest(old(g.World())) && c in old(g.World()).All()
    ensures Changed(old(g.World()), g.World(), c, root,
                    ComesIn(root, coinage, remaind, FreeFor(old(g.World()), c), noLimit), CoinIds())
  {
    hide *;
    ghost var st := g.World();
    SettingMeans(st, c, root);
    NotChanged(st, c, root);
    CoinageMeans(coinage);
    g.ValidMeans();
    var crys := remaind / 10000;
    var plat := (remaind - crys * 10000) / 100;
    var gold := remaind - crys * 10000 - plat * 100;
    ChangeParts(remaind, crys, plat, gold);
    ghost var free := FreeFor(st, c);
    KeptThree(coinage, remaind, free, noLimit, crys, plat, gold);
    ComesInIs(root, coinage, remaind, free, noLimit);
    ghost var a, b, d, ids;
    ids, a, free := GiveKind(g, c, coinage.crystal, crys, noLimit, root, st, 0, {}, free);
    ids, b, free := GiveKind(g, c, coinage.platinum, plat, noLimit, root, st, a, ids, free);
    ids, d, free := GiveKind(g, c, coinage.gold, gold, noLimit, root, st, a + b, ids, free);
    SettingMeans(g.World(), c, root);
    g.ValidMeans();
    ChangedAtMost(st, g.World(), c, root, a + b + d, ids, CoinIds());
  }

  lemma ComesInIs(root: Thing, coinage: Coinage, excess: nat, free: nat, noLimit: bool)
    ensures ComesIn(root, coinage, excess, free, noLimit)
            == if root.typ.kind.Tile? then excess else Kept(Stacks(coinage, excess), free, noLimit)
  {
  }

  /** The coins of one kind, if there are any; `free` is the room there is. */
  method GiveKind(g: Game, c: Thing, typ: ThingType, n: nat, noLimit: bool, ghost root: Thing,
                  ghost st: State, ghost worth: nat, ghost ids: set<nat>, ghost free: nat)
    returns (ghost ids': set<nat>, ghost w: nat, ghost free': nat)
    requires Changed(st, g.World(), c, root, worth, ids) && Setting(g.World(), c, root)
    requires Forest(g.World()) && c in g.World().All()
    requires !root.typ.kind.Tile? ==> free == FreeFor(g.World(), c)
    requires Coin(typ) && n <= 99 && typ.id !in ids
    modifies g, g.things
    ensures old(g.things) <= g.things && fresh(g.things - old(g.things))
    ensures ids <= ids' <= ids + {typ.id} && Setting(g.World(), c, root)
    ensures Forest(g.World()) && c in g.World().All()
    ensures Changed(st, g.World(), c, root, worth + w, ids')
    ensures if root.typ.kind.Tile? then w == CoinsWorth(typ.id, n)
            else (w, free') == KeepOne(typ, n, free, noLimit) && free' == FreeFor(g.World(), c)
  {
    hide *;
    NoCoins();
    KeepIs(typ, n, free, noLimit);
    ids', w, free' := ids, 0, free;
    if n != 0 {
      ghost var mid := g.World();
      w := GiveChange(g, c, typ, n, noLimit, root);
      ChangedMore(st, mid, g.World(), c, root, worth, ids, typ, w);
      ids' := ids + {typ.id};
      ChangedMeans(st, g.World(), c, root, worth + w, ids');
      g.ValidMeans();
      free' := FreeFor(g.World(), c);
    }
  }

  lemma KeepIs(typ: ThingType, n: nat, free: nat, noLimit: bool)
    ensures KeepOne(typ, n, free, noLimit)
            == if n == 0 || !Accepts(typ, free, noLimit) then (0, free) else (CoinsWorth(typ.id, n), Max(free - 1, 0))
  {
  }

  lemma CoinageMeans(coinage: Coinage)
    requires Minted(coinage)
    ensures Coin(coinage.gold) && coinage.gold.id == ITEM_COINS_GOLD
    ensures Coin(coinage.platinum) && coinage.platinum.id == ITEM_COINS_PLATINUM
    ensures Coin(coinage.crystal) && coinage.crystal.id == ITEM_COINS_CRYSTAL
    ensures ITEM_COINS_GOLD != ITEM_COINS_PLATINUM && ITEM_COINS_GOLD != ITEM_COINS_CRYSTAL
    ensures ITEM_COINS_PLATINUM != ITEM_COINS_CRYSTAL
    ensures CoinIds() == {coinage.crystal.id, coinage.platinum.id, coinage.gold.id}
  {
  }

  lemma NoCoins()
    ensures forall id: nat :: CoinsWorth(id, 0) == 0
  {
  }

  lemma ChangedAtMost(st: State, end: State, c: Thing, root: Thing, worth: nat, ids: set<nat>, more: set<nat>)
    requires Changed(st, end, c, root, worth, ids) && ids <= more
    ensures Changed(st, end, c, root, worth, more)
  {
    hide Setting, Wealth, SameKeys;
    forall t | t in end.All() ensures NewStacks(st, end, more, t) {
      assert NewStacks(st, end, ids, t);
    }
  }
}
