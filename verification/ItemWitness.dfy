/** Small worlds in which an operation on items does what it should not. */
module ItemWitness {
  import opened Bytes
  import opened ItemForest
  import opened ItemMove
  import opened MoveLaws
  import opened ItemOps

  function Nowhere(): State {
    State(map[], map[], map[], map[], {})
  }

  /** A world of one cylinder and the first item on it. */
  ghost function Stage(c: Thing, a: Thing, n: nat): State {
    var st := Create(Nowhere(), c, 1);
    var st' := Create(st, a, n);
    if c == a then st' else Link(st', c, 0, a)
  }

  /** The types that the witnesses need: a stack, and a cylinder for it. */
  ghost predicate Stacks(a: Thing) {
    a.typ.kind.Plain? && a.typ.stackable && a.typ.pickupable && a.typ.moveable && a.uniqueId == 0
  }

  lemma StageIs(c: Thing, a: Thing, n: byte)
    requires c != a && !c.typ.kind.Plain? && Stacks(a)
    ensures var st := Stage(c, a, n);
            && Forest(st) && st.All() == {c, a} && st.freed == {}
            && st.parent[c] == null && st.parent[a] == c && st.list[c] == [a] && st.list[a] == []
            && st.above[c] == {} && st.above[a] == {c} && st.count[c] == 1 && st.count[a] == n
  {
    hide Forest, Linked, ListOk, ChainOk, Create, Link, Attachable;
    var st := Create(Nowhere(), c, 1);
    NowhereForest();
    LooseIs(Nowhere(), c, 1, a);
    LooseIs(st, a, n, c);
    NewAttachable(st, c, a, n);
    var st' := Create(st, a, n);
    ForestKeys(st');
    LinkForest(st', c, 0, a);
    LinkAt(st', c, 0, a, a);
    LinkAt(st', c, 0, a, c);
    InsertFirst(a);
  }

  lemma InsertFirst(a: Thing)
    ensures Insert([], 0, a) == [a]
  {
  }

  lemma NowhereForest()
    ensures Forest(Nowhere())
  {
  }

  /** One more stack, nowhere yet. */
  lemma LooseIs(st: State, x: Thing, n: byte, t: Thing)
    requires Forest(st) && x !in st.All()
    ensures var st' := Create(st, x, n);
            && Forest(st') && st'.All() == st.All() + {x} && st'.freed == st.freed
            && st'.parent[x] == null && st'.list[x] == [] && st'.above[x] == {} && st'.count[x] == n
            && (t in st.All() ==> st'.parent[t] == st.parent[t] && st'.list[t] == st.list[t]
                                  && st'.above[t] == st.above[t] && st'.count[t] == st.count[t])
  {
    CreateForest(st, x, n);
    hide Forest, Linked, ListOk, ChainOk;
  }

  // ---------------------------------------------------------------- left behind

  /** 99 gold are added on a tile where 60 lie: 40 join them, 59 become a new stack, and the item that was added is
      neither anywhere nor handed over for deletion. */
  lemma GoldLeftBehind(tile: Thing, gold: Thing, x: Thing, y: Thing)
    requires tile.typ.kind.Tile? && Stacks(gold) && x.typ == gold.typ == y.typ
    requires tile != gold && x != tile && x != gold && y != tile && y != gold && y != x
    ensures var st := Create(Stage(tile, gold, 60), x, 99);
            && Forest(st) && tile in st.All() && x in st.All()
            && var (ret, end) := AddItem(st, tile, INDEX_WHEREEVER, x, false, y);
               && ret == RET_NOERROR && SameKeys(end) && x in end.All()
               && end.parent[x] == null && x !in end.freed && end.count[x] == 99
  {
    hide Forest, Linked, ListOk, ChainOk, Stage, Create, Added;
    StageIs(tile, gold, 60);
    var st0 := Stage(tile, gold, 60);
    ForestKeys(st0);
    LooseIs(st0, x, 99, tile);
    LooseIs(st0, x, 99, gold);
    var st := Create(st0, x, 99);
    ForestKeys(st);
    DestinationKnown(st, tile, INDEX_WHEREEVER);
    LeftBehindIff(st, tile, INDEX_WHEREEVER, x, false, y);
    var plan := AddPlan(st, tile, INDEX_WHEREEVER, x, false);
    AddPlanSound(st, tile, INDEX_WHEREEVER, x, false);
    AddedAt(st, x, plan.dest, plan.m, plan.n, y, x);
  }

  // ---------------------------------------------------------------- handed over too early

  /** A piece of 3 is taken from a stack of 10 in a container that is nowhere: the stack is handed over for deletion
      while the container still lists it, and 7 are lost. */
  lemma PieceFreesStack(box: Thing, x: Thing, y: Thing)
    requires box.typ.kind.Box? && box.typ.capacity == 2 && Stacks(x) && y.typ == x.typ
    requires box != x && y != box && y != x
    ensures var st := Stage(box, x, 10);
            && Forest(st) && box in st.All() && x in st.All()
            && var (ret, end) := Move(st, box, box, INDEX_WHEREEVER, x, 3, false, y);
               && ret == RET_NOERROR && SameKeys(end) && x in end.freed && box in end.All() && x in end.list[box]
               && Total(end, x.typ.id) == Total(st, x.typ.id) - 7
  {
    hide Forest, Linked, ListOk, ChainOk, Stage, Moved, TopOf, Total, Sound;
    StageIs(box, x, 10);
    var st := Stage(box, x, 10);
    ForestKeys(st);
    DestinationKnown(st, box, INDEX_WHEREEVER);
    TopIsSelf(st, box);
    var plan := MovePlan(st, box, box, INDEX_WHEREEVER, x, 3, false);
    assert plan == Go(Destination(box, INDEX_WHEREEVER, null), 3, 0, RET_NOERROR);
    PlanSound(st, box, box, INDEX_WHEREEVER, x, 3, false);
    PieceFreed(st, box, x, plan.dest, y);
    MoveLedger(st, box, x, plan.dest, 3, 0, y, x.typ.id);
  }

  /** One of a stack of 10 is removed from a container that is nowhere: the same happens. */
  lemma RemovalFreesStack(box: Thing, x: Thing)
    requires box.typ.kind.Box? && Stacks(x) && box != x
    ensures var st := Stage(box, x, 10);
            && Forest(st) && box in st.All() && x in st.All()
            && var (ret, end) := RemoveItem(st, x, 1);
               && ret == RET_NOERROR && SameKeys(end) && x in end.freed && end.parent[x] == box && end.count[x] == 9
  {
    hide Forest, Linked, ListOk, ChainOk, Stage, Removed;
    StageIs(box, x, 10);
    var st := Stage(box, x, 10);
    ForestKeys(st);
    ThingOk(st, box);
    RemovedAt(st, box, x, 1, x);
  }

  lemma TopIsSelf(st: State, c: Thing)
    requires Forest(st) && c in st.All() && st.parent[c] == null && !c.typ.kind.Plain?
    ensures TopOf(st, c) == c
  {
  }

  lemma PieceFreed(st: State, box: Thing, x: Thing, dest: Destination, y: Thing)
    requires Forest(st) && Sound(st, box, x, dest, 3, 0) && x.typ.stackable && st.count[x] == 10
    requires st.freed == {} && st.above[x] == {box} && !box.typ.kind.Tile? && !x.typ.kind.Tile?
    requires y !in st.All() && y.typ == x.typ
    ensures KnownDestination(st, dest) && box in st.All() && x in st.All() && ListOk(st, box)
    ensures var end := Moved(st, box, x, dest, 3, 0, y);
            SameKeys(end) && x in end.freed && box in end.All() && x in end.list[box]
  {
    hide Forest, Linked, ListOk, ChainOk, KnownDestination, Sound, Taken, Moved, Arrived, IsRemoved, Insert;
    ForestKeys(st);
    SoundKnown(st, box, x, dest, 3, 0);
    PieceStays(st, box, x, dest);
    MovedAt(st, box, x, dest, 3, 0, y, box);
    StackMoved(st, box, x, dest, 3, 0, y);
    var st2 := Taken(st, box, x, dest, 3, 0);
    ArrivedFreed(st2, x, dest, 3, 0, y);
    StillListed(st2.list[box], x, y);
  }

  /** Once the piece is out, the stack is as removed as its container is. */
  lemma PieceStays(st: State, box: Thing, x: Thing, dest: Destination)
    requires Forest(st) && Sound(st, box, x, dest, 3, 0) && x.typ.stackable && st.count[x] == 10
    requires st.above[x] == {box} && !box.typ.kind.Tile? && !x.typ.kind.Tile?
    ensures SameKeys(st) && KnownDestination(st, dest) && box in st.All() && ListOk(st, box)
    ensures x in Taken(st, box, x, dest, 3, 0).list[box]
    ensures IsRemoved(Taken(st, box, x, dest, 3, 0), x)
  {
    hide Forest, Linked, ListOk, ChainOk, KnownDestination, Sound, Taken;
    ForestKeys(st);
    SoundKnown(st, box, x, dest, 3, 0);
    TakenAt(st, box, x, dest, 3, 0, box);
    TakenAt(st, box, x, dest, 3, 0, x);
  }

  lemma ArrivedFreed(st: State, x: Thing, dest: Destination, m: nat, n: nat, y: Thing)
    requires SameKeys(st) && x in st.All() && dest.c in st.All() && n <= m && IsRemoved(st, x)
    ensures x in Arrived(st, x, dest, m, n, y).freed
  {
  }

  lemma StillListed(s: seq<Thing>, x: Thing, y: Thing)
    requires x in s
    ensures x in Insert(s, 0, y)
  {
    var i :| 0 <= i < |s| && s[i] == x;
    assert Insert(s, 0, y)[i + 1] == x;
  }

  // ---------------------------------------------------------------- more than eight bits

  /** A tile where 200 of `a` lie, and behind them 100 of `x`. */
  ghost function Piles(tile: Thing, a: Thing, x: Thing): State {
    var st := Create(Stage(tile, a, 200), x, 100);
    if tile in st.All() && 1 <= |st.list[tile]| then Link(st, tile, 1, x) else st
  }

  lemma PilesAre(tile: Thing, a: Thing, x: Thing)
    requires tile.typ.kind.Tile? && Stacks(a) && x.typ == a.typ && tile != a && x != tile && x != a
    ensures var st := Piles(tile, a, x);
            && Forest(st) && st.All() == {tile, a, x} && st.freed == {}
            && st.parent[tile] == null && st.parent[a] == tile && st.parent[x] == tile
            && st.list[tile] == [a, x] && st.above[tile] == {} && st.above[x] == {tile}
            && st.count[a] == 200 && st.count[x] == 100
  {
    hide Forest, Linked, ListOk, ChainOk, Stage, Create, Link, Attachable;
    StageIs(tile, a, 200);
    var s := Stage(tile, a, 200);
    ForestKeys(s);
    LooseIs(s, x, 100, tile);
    LooseIs(s, x, 100, a);
    NewAttachable(s, tile, x, 100);
    var st := Create(s, x, 100);
    ForestKeys(st);
    LinkForest(st, tile, 1, x);
    LinkAt(st, tile, 1, x, tile);
    LinkAt(st, tile, 1, x, x);
    LinkAt(st, tile, 1, x, a);
    InsertSecond(a, x);
  }

  lemma InsertSecond(a: Thing, x: Thing)
    ensures Insert([a], 1, x) == [a, x]
  {
  }

  /** 100 of a kind are moved onto 200: the count that is stored is 44, and 256 are lost. */
  lemma StackSpills(tile: Thing, a: Thing, x: Thing, y: Thing)
    requires tile.typ.kind.Tile? && Stacks(a) && x.typ == a.typ == y.typ && x.uniqueId == 0
    requires tile != a && x != tile && x != a && y != tile && y != a && y != x
    ensures var st := Piles(tile, a, x);
            && Forest(st) && tile in st.All() && x in st.All()
            && var (ret, end) := Move(st, tile, tile, 0, x, 100, false, y);
               && ret == RET_NOERROR && SameKeys(end) && a in end.All()
               && Total(end, a.typ.id) == Total(st, a.typ.id) - 256
  {
    hide Forest, Linked, ListOk, ChainOk, Piles, Moved, Total, IsRemoved;
    PilesAre(tile, a, x);
    var st := Piles(tile, a, x);
    ForestKeys(st);
    DestinationKnown(st, tile, 0);
    var plan := MovePlan(st, tile, tile, 0, x, 100, false);
    assert plan == Go(Destination(tile, 0, a), 100, 100, RET_NOERROR);
    PlanSound(st, tile, tile, 0, x, 100, false);
    TileStays(st, tile);
    MoveLedger(st, tile, x, plan.dest, 100, 100, y, a.typ.id);
    ThingKept(st, tile, x, plan.dest, y, a);
  }

  lemma TileStays(st: State, tile: Thing)
    requires tile in st.above.Keys && tile.typ.kind.Tile?
    ensures !IsRemoved(st, tile)
  {
  }

  lemma ThingKept(st: State, tile: Thing, x: Thing, dest: Destination, y: Thing, a: Thing)
    requires Forest(st) && Sound(st, tile, x, dest, 100, 100) && a in st.All() && y !in st.All()
    ensures KnownDestination(st, dest) && tile in st.All() && x in st.All() && ListOk(st, tile)
    ensures SameKeys(Moved(st, tile, x, dest, 100, 100, y)) && a in Moved(st, tile, x, dest, 100, 100, y).All()
  {
    hide Forest, Linked, ChainOk, ListOk, KnownDestination, Sound;
    ForestKeys(st);
    SoundKnown(st, tile, x, dest, 100, 100);
    MovedAt(st, tile, x, dest, 100, 100, y, a);
  }
}
