/** Where a moved item ends up, how much of it, and when it is moved at all. */
module MoveWhere {
  import opened Bytes
  import opened ItemForest
  import opened ItemMove
  import opened MoveLaws
  import opened DepotLaw
  import opened ItemOps
  import opened ItemSearch
  import opened GameWorld

  /** An item dropped on `to` at `index` goes into `c`, onto `item` if that is of the same kind. A tile takes it itself,
      onto its first item. In a container, 254 means the container around it if there is one, 255 the container itself,
      and another slot the container lying there, or else the container itself, onto the item lying there. */
  ghost predicate Target(st: State, to: Thing, index: int, c: Thing, item: Thing?)
    requires SameKeys(st) && to in st.All()
  {
    var list, p := st.list[to], st.parent[to];
    if to.typ.kind.Tile? then c == to && (if list == [] then item == null else item == list[0])
    else if index == 254 then item == null && c == if p == null || p.typ.kind.Tile? then to else p
    else if index == 255 || !(0 <= index < |list| && index < to.typ.capacity) then c == to && item == null
    else if list[index].typ.kind.Plain? then c == to && item == list[index]
    else c == list[index] && item == null
  }

  lemma TargetIs(st: State, to: Thing, index: int, c: Thing, item: Thing?)
    requires SameKeys(st) && to in st.All()
    ensures Target(st, to, index, c, item)
            <==> QueryDestination(st, to, index).c == c && QueryDestination(st, to, index).item == item
  {
  }

  /** An item that does not stack and is moved without error goes to the front of its target and nothing else moves; on
      itself, or with an error, nothing happens. */
  lemma WholeGoes(st: State, from: Thing, to: Thing, index: int, x: Thing, count: nat, noLimit: bool, y: Thing,
                  c: Thing, item: Thing?, t: Thing)
    requires Forest(st) && from in st.All() && to in st.All() && x in st.All() && !to.typ.kind.Plain? && t in st.All()
    requires !x.typ.stackable && SameKeys(st) && Target(st, to, index, c, item)
    ensures var (r, end) := Move(st, from, to, index, x, count, noLimit, y);
            if r != RET_NOERROR || item == x then end == st && (item == x ==> r == RET_NOERROR)
            else
              && SameKeys(end) && t in end.All() && c in st.All() && x in st.list[from]
              && end.parent[t] == (if t == x then c else st.parent[t])
              && end.list[t] == var kept := if t == from then Without(st.list[t], x) else st.list[t];
                                if t == c then [x] + kept else kept
  {
    hide Forest, Linked, ListOk, ChainOk, Sound, MovePlan, Moved, Target, KnownDestination, Without, Move;
    TargetIs(st, to, index, c, item);
    MoveDestination(st, from, to, index);
    MoveOfPlan(st, from, to, index, x, count, noLimit, y);
    PlanSound(st, from, to, index, x, count, noLimit);
    WholePlanAnswer(st, from, to, index, x, count, noLimit);
    var plan := MovePlan(st, from, to, index, x, count, noLimit);
    if plan.Go? {
      SoundKnown(st, from, x, plan.dest, plan.m, plan.n);
      WholeMoved(st, from, x, plan.dest, plan.m, plan.n, y, t);
    }
  }

  lemma WholeMoved(st: State, from: Thing, x: Thing, dest: Destination, m: nat, n: nat, y: Thing, t: Thing)
    requires Forest(st) && Sound(st, from, x, dest, m, n) && !x.typ.stackable && t in st.All()
    ensures from in st.All() && x in st.All() && ListOk(st, from) && KnownDestination(st, dest) && n <= m
    ensures var end := Moved(st, from, x, dest, m, n, y);
            && SameKeys(end) && t in end.All() && dest.c in st.All() && x in st.list[from]
            && end.parent[t] == (if t == x then dest.c else st.parent[t])
            && end.list[t] == var kept := if t == from then Without(st.list[t], x) else st.list[t];
                              if t == dest.c then [x] + kept else kept
  {
    hide Forest, Linked, ListOk, ChainOk, Sound, Moved, KnownDestination, Without, Taken;
    ForestKeys(st);
    SoundKnown(st, from, x, dest, m, n);
    TakenAt(st, from, x, dest, m, n, t);
    MovedAt(st, from, x, dest, m, n, y, t);
    AtFront(Taken(st, from, x, dest, m, n).list[t], x);
  }

  lemma AtFront(s: seq<Thing>, x: Thing)
    ensures Insert(s, 0, x) == [x] + s
  {
  }

  lemma WholePlanAnswer(st: State, from: Thing, to: Thing, index: int, x: Thing, count: nat, noLimit: bool)
    requires Forest(st) && from in st.All() && to in st.All() && x in st.All() && !x.typ.stackable
    ensures var plan, dest := MovePlan(st, from, to, index, x, count, noLimit), QueryDestination(st, to, index);
            && (plan.Refuse? && plan.ret == RET_NOERROR <==> dest.item == x)
            && (plan.Go? ==> plan.ret == RET_NOERROR && plan.dest == dest)
  {
    hide Forest, QueryDestination, QueryAdd, QueryMaxCount, QueryRemove, Merged;
  }

  // ---------------------------------------------------------------- stacks

  ghost predicate Joins(x: Thing, item: Thing?) {
    item != null && item.typ.id == x.typ.id
  }

  /** How many of a stack fit in: as many as free slots can hold and as the item there is short of 100. */
  ghost function Space(st: State, c: Thing, item: Thing?, x: Thing, count: nat, noLimit: bool): nat
    requires SameKeys(st) && c in st.All() && (item != null ==> item in st.All())
  {
    if c.typ.kind.Tile? || noLimit then count
    else
      var there: int := if item != null then st.count[item] else 0;
      100 * Max(0, c.typ.capacity - |st.list[c]|) + if Joins(x, item) then Max(0, 100 - there) else 0
  }

  /** A stack that is moved loses what goes, as much as was asked for and fits; the item at the target takes what it is
      short of 100, and the rest becomes a new stack at the front of the target. The answer is that of a full container
      if not all asked for has gone. */
  lemma StackGoes(st: State, from: Thing, to: Thing, index: int, x: Thing, count: nat, noLimit: bool, y: Thing,
                  c: Thing, item: Thing?)
    requires Forest(st) && from in st.All() && to in st.All() && x in st.All() && !to.typ.kind.Plain?
    requires NothingLost(st) && StacksOk(st) && x.typ.stackable && y !in st.All() && y.typ == x.typ
    requires Target(st, to, index, c, item)
    requires MovePlan(st, from, to, index, x, count, noLimit).Go?
    ensures c in st.All() && (item != null ==> item in st.All())
    ensures var (r, end) := Move(st, from, to, index, x, count, noLimit, y);
            var m := Min(count, Space(st, c, item, x, count, noLimit));
            var n := if Joins(x, item) then Min(100 - st.count[item], m) else 0;
            && SameKeys(end) && x in end.All() && (item != null ==> item in end.All())
            && r == (if m == count then RET_NOERROR else RET_CONTAINERNOTENOUGHROOM)
            && 1 <= m <= st.count[x]
            && (if m == st.count[x] then end.parent[x] == null && x in end.freed
                else end.parent[x] == st.parent[x] && end.count[x] == st.count[x] - m)
            && (Joins(x, item) ==> end.count[item] == st.count[item] + n)
            && (if m > n then y in end.All() && end.parent[y] == c && end.count[y] == m - n else end.All() == st.All())
  {
    TargetIs(st, to, index, c, item);
    hide Forest, Linked, ListOk, ChainOk, Sound, MovePlan, Moved, Target, KnownDestination, NothingLost, StacksOk;
    hide Move, Space, QueryDestination;
    ForestKeys(st);
    DestinationKnown(st, to, index);
    MoveOfPlan(st, from, to, index, x, count, noLimit, y);
    PlanSound(st, from, to, index, x, count, noLimit);
    StackPlan(st, from, to, index, x, count, noLimit, c, item);
    var plan := MovePlan(st, from, to, index, x, count, noLimit);
    StackCounts(st, from, x, plan.dest, plan.m, plan.n, y);
  }

  /** The plan for a stack, in terms of the space there is. */
  lemma StackPlan(st: State, from: Thing, to: Thing, index: int, x: Thing, count: nat, noLimit: bool, c: Thing,
                  item: Thing?)
    requires Forest(st) && from in st.All() && to in st.All() && x in st.All() && !to.typ.kind.Plain?
    requires NothingLost(st) && StacksOk(st) && x.typ.stackable && SameKeys(st)
    requires QueryDestination(st, to, index).c == c && QueryDestination(st, to, index).item == item
    requires MovePlan(st, from, to, index, x, count, noLimit).Go?
    ensures c in st.All() && (item != null ==> item in st.All())
    ensures var plan := MovePlan(st, from, to, index, x, count, noLimit);
            var m := Min(count, Space(st, c, item, x, count, noLimit));
            && plan.dest == QueryDestination(st, to, index) && plan.m == m
            && plan.n == (if Joins(x, item) then Min(100 - st.count[item], m) else 0)
            && plan.ret == if m == count then RET_NOERROR else RET_CONTAINERNOTENOUGHROOM
  {
    hide Forest, Linked, ListOk, ChainOk, QueryDestination, QueryAdd, QueryRemove, NothingLost, StacksOk, Room;
    hide KnownDestination;
    var dest := QueryDestination(st, to, index);
    DestinationKnown(st, to, index);
    DestKnown(st, dest);
    DestItems(st, c);
    DestinationItem(st, to, index);
  }

  /** What a moved stack changes in the counts and parents of what there was, and the new stack. */
  lemma StackCounts(st: State, from: Thing, x: Thing, dest: Destination, m: nat, n: nat, y: Thing)
    requires Forest(st) && NothingLost(st) && StacksOk(st) && Sound(st, from, x, dest, m, n) && x.typ.stackable
    requires y !in st.All() && y.typ == x.typ
    ensures KnownDestination(st, dest) && (dest.item != null ==> dest.item in st.All()) && dest.c in st.All()
    ensures x in st.All() && from in st.All() && ListOk(st, from) && n <= m <= st.count[x]
    ensures var end := Moved(st, from, x, dest, m, n, y);
            && SameKeys(end) && x in end.All() && (dest.item != null ==> dest.item in end.All())
            && (if m == st.count[x] then end.parent[x] == null && x in end.freed
                else end.parent[x] == st.parent[x] && end.count[x] == st.count[x] - m)
            && (Joins(x, dest.item) ==> end.count[dest.item] == st.count[dest.item] + n)
            && (if m > n then y in end.All() && end.parent[y] == dest.c && end.count[y] == m - n
                else end.All() == st.All())
  {
    hide Forest, Linked, ListOk, ChainOk, KnownDestination, Moved, NothingLost, StacksOk, Sound;
    ForestKeys(st);
    SoundKnown(st, from, x, dest, m, n);
    SoundMerged(st, from, x, dest, m, n);
    DestKnown(st, dest);
    StackOut(st, from, x, dest, m, n, y);
    StackIn(st, from, x, dest, m, n, y);
    AliveStack(st, from, x);
    if dest.item != null {
      AliveStack(st, dest.c, dest.item);
    }
  }

  lemma AliveStack(st: State, c: Thing, t: Thing)
    requires Forest(st) && NothingLost(st) && StacksOk(st) && c in st.All() && t in st.list[c]
    ensures t in st.All() && 1 <= st.count[t] <= 100
  {
    hide Forest;
    ForestKeys(st);
    ListedAlive(st, c, t);
    assert StackOk(t, st.count[t]);
  }

  lemma StackOut(st: State, from: Thing, x: Thing, dest: Destination, m: nat, n: nat, y: Thing)
    requires Forest(st) && Sound(st, from, x, dest, m, n) && x.typ.stackable && y !in st.All()
    ensures KnownDestination(st, dest) && x in st.All() && from in st.All() && ListOk(st, from) && n <= m <= st.count[x]
    ensures var end := Moved(st, from, x, dest, m, n, y);
            && SameKeys(end) && x in end.All()
            && (if m == st.count[x] then end.parent[x] == null && x in end.freed
                else end.parent[x] == st.parent[x] && end.count[x] == st.count[x] - m)
  {
    hide Forest, Linked, ListOk, ChainOk, KnownDestination, Moved, Sound, Taken, Arrived, IsRemoved;
    ForestKeys(st);
    SoundKnown(st, from, x, dest, m, n);
    SoundMerged(st, from, x, dest, m, n);
    StackMoved(st, from, x, dest, m, n, y);
    MovedFreed(st, from, x, dest, m, n, y);
    TakenRemoved(st, from, x, dest, m, n);
    TakenCount(st, from, x, dest, m, n);
    MovedParents(st, from, x, dest, m, n, y, x);
    ArrivedCounts(Taken(st, from, x, dest, m, n), x, dest, m, n, y, x);
  }

  lemma StackIn(st: State, from: Thing, x: Thing, dest: Destination, m: nat, n: nat, y: Thing)
    requires Forest(st) && Sound(st, from, x, dest, m, n) && x.typ.stackable && y !in st.All()
    ensures KnownDestination(st, dest) && (dest.item != null ==> dest.item in st.All()) && dest.c in st.All()
    ensures x in st.All() && from in st.All() && ListOk(st, from) && n <= m
    ensures var end := Moved(st, from, x, dest, m, n, y);
            && SameKeys(end) && (dest.item != null ==> dest.item in end.All())
            && (Joins(x, dest.item) ==> end.count[dest.item] == LowByte(st.count[dest.item] + n))
            && (if m > n then y in end.All() && end.parent[y] == dest.c && end.count[y] == LowByte(m - n)
                else end.All() == st.All())
  {
    hide Forest, Linked, ListOk, ChainOk, KnownDestination, Moved, Sound, Taken, Arrived, IsRemoved, Joins;
    ForestKeys(st);
    SoundKnown(st, from, x, dest, m, n);
    SoundIndex(st, from, x, dest, m, n);
    DestKnown(st, dest);
    StackMoved(st, from, x, dest, m, n, y);
    MovedFreed(st, from, x, dest, m, n, y);
    NotAbove(st, from, x, dest, m, n, y, x);
    var st2 := Taken(st, from, x, dest, m, n);
    StackArrivesAt(st2, x, dest, m, n, y, x);
    ArrivedCounts(st2, x, dest, m, n, y, x);
    if Joins(x, dest.item) {
      TakenItem(st, from, x, dest, m, n);
      ArrivedCounts(st2, x, dest, m, n, y, dest.item);
    }
  }

  lemma ArrivedCounts(st: State, x: Thing, dest: Destination, m: nat, n: nat, y: Thing, t: Thing)
    requires SameKeys(st) && x in st.All() && dest.c in st.All() && n <= m && y !in st.All() && t in st.All()
    ensures var end := Arrived(st, x, dest, m, n, y);
            && t in end.All() && end.count[t] == st.count[t]
            && (m > n ==> y in end.All() && end.count[y] == LowByte(m - n))
  {
    hide IsRemoved, AddThing;
  }

  lemma TakenItem(st: State, from: Thing, x: Thing, dest: Destination, m: nat, n: nat)
    requires Forest(st) && Sound(st, from, x, dest, m, n) && x.typ.stackable && Joins(x, dest.item)
    ensures KnownDestination(st, dest) && dest.item in st.All() && from in st.All() && x in st.All() && ListOk(st, from)
    ensures Taken(st, from, x, dest, m, n).count[dest.item] == LowByte(st.count[dest.item] + n)
  {
    hide Forest, Linked, ListOk, ChainOk, KnownDestination, Sound, RemoveThing;
    ForestKeys(st);
    SoundKnown(st, from, x, dest, m, n);
    SoundMerged(st, from, x, dest, m, n);
    DestKnown(st, dest);
    RemovedCount(st, from, x, m, dest.item);
  }

  // ---------------------------------------------------------------- when an item is moved

  /** The item is in the depot; but if the depot stands nowhere, only what is in its list and holds nothing counts. */
  ghost predicate Inside(st: State, x: Thing, d: Thing)
    requires SameKeys(st) && d in st.All() && x in st.All()
  {
    Within(st, x, d) && (st.parent[d] != null || x == d || (x.typ.kind.Plain? && st.parent[x] == d))
  }

  /** How many things come into a depot with so many of an item: none if the item is there already and is moved whole,
      one for a piece of a stack, and otherwise the item and what is inside it. */
  ghost function Comes(st: State, d: Thing, x: Thing, count: nat): nat
    requires SameKeys(st) && d in st.All() && x in st.All()
  {
    if Inside(st, x, d) then (if x.typ.stackable && count != st.count[x] then 1 else 0)
    else if x.typ.kind.Plain? then 1 else 1 + |st.Below(x)|
  }

  ghost predicate DepotTakes(st: State, c: Thing, x: Thing, count: nat, d: Thing)
    requires SameKeys(st) && c in st.All() && x in st.All() && d in st.All()
  {
    d.typ.kind.Depot? && Within(st, c, d) && (st.parent[d] != null || d == c) ==>
      |st.Below(d)| + Comes(st, d, x, count) <= d.depotLimit
  }

  /** Every depot around the container has room for what comes; one that stands nowhere speaks for itself only. */
  ghost predicate DepotsTake(st: State, c: Thing, x: Thing, count: nat)
    requires SameKeys(st) && c in st.All() && x in st.All()
  {
    forall d :: d in st.All() ==> DepotTakes(st, c, x, count, d)
  }

  ghost predicate AllStand(st: State)
    requires SameKeys(st)
  {
    forall d :: d in st.All() && d.typ.kind.Depot? ==> Stands(st, d)
  }

  /** Nothing stands in the way of an item: it may be picked up, is not put into itself, has room, is there in the
      quantity that would go, and may be moved. */
  ghost predicate Movable(st: State, from: Thing, x: Thing, count: nat, noLimit: bool, c: Thing, item: Thing?)
    requires SameKeys(st) && from in st.All() && x in st.All() && c in st.All() && (item != null ==> item in st.All())
  {
    && MayEnter(st, x, count, noLimit, c)
    && HasRoom(st, x, count, noLimit, c, item)
    && x in st.list[from] && x.typ.moveable && x.uniqueId == 0
  }

  ghost predicate MayEnter(st: State, x: Thing, count: nat, noLimit: bool, c: Thing)
    requires SameKeys(st) && x in st.All() && c in st.All()
  {
    c.typ.kind.Tile? ||
    (x.typ.pickupable && x != c && x !in st.above[c] && (noLimit || DepotsTake(st, c, x, count)))
  }

  ghost predicate HasRoom(st: State, x: Thing, count: nat, noLimit: bool, c: Thing, item: Thing?)
    requires SameKeys(st) && x in st.All() && c in st.All() && (item != null ==> item in st.All())
  {
    if x.typ.stackable then 0 < Min(count, Space(st, c, item, x, count, noLimit)) <= st.count[x]
    else c.typ.kind.Tile? || noLimit || |st.list[c]| < c.typ.capacity
  }

  /** An item is moved exactly if it is not dropped on itself and nothing stands in its way. */
  lemma MovedIff(st: State, from: Thing, to: Thing, index: int, x: Thing, count: nat, noLimit: bool, c: Thing, item: Thing?)
    requires Forest(st) && NothingLost(st) && StacksOk(st) && AllStand(st) && SameKeys(st)
    requires from in st.All() && to in st.All() && x in st.All() && !to.typ.kind.Plain?
    requires Target(st, to, index, c, item)
    ensures c in st.All() && (item != null ==> item in st.All())
    ensures MovePlan(st, from, to, index, x, count, noLimit).Go?
            <==> item != x && Movable(st, from, x, count, noLimit, c, item)
  {
    hide Forest, Linked, ListOk, ChainOk, NothingLost, StacksOk, AllStand, Target, QueryDestination, MovePlan;
    hide QueryAdd, QueryMaxCount, MayEnter, Space, Known, KnownDestination, Merged, HasRoom;
    TargetIs(st, to, index, c, item);
    DestinationKnown(st, to, index);
    var dest := QueryDestination(st, to, index);
    DestKnown(st, dest);
    DestinationItem(st, to, index);
    PlanIs(st, from, to, index, x, count, noLimit);
    EntersIff(st, c, dest.index, x, count, noLimit);
    RoomIff(st, dest, x, count, noLimit);
  }

  /** The query to add says yes if the item may enter, and the container is not full when any slot will do. */
  lemma EntersIff(st: State, c: Thing, index: int, x: Thing, count: nat, noLimit: bool)
    requires Forest(st) && SameKeys(st) && AllStand(st) && c in st.All() && x in st.All() && !c.typ.kind.Plain?
    ensures QueryAdd(st, c, index, x, count, noLimit) == RET_NOERROR
            <==> && MayEnter(st, x, count, noLimit, c)
                 && (c.typ.kind.Tile? || noLimit || index != INDEX_WHEREEVER || |st.list[c]| < c.typ.capacity)
  {
    hide Forest, Linked, ListOk, ChainOk, DepotQuery, DepotsTake, TopOf, AllStand;
    if !c.typ.kind.Tile? {
      TopTakesIff(st, c, x, count);
      DepotTop(st, c);
      NoLimitAsks(st, x, count);
    }
  }

  lemma NoLimitAsks(st: State, x: Thing, count: nat)
    requires Forest(st) && x in st.All()
    ensures forall d :: d in st.All() ==> DepotQuery(st, d, x, count, true) == RET_NOERROR
  {
    hide Forest, TopOf;
  }

  lemma DepotTop(st: State, c: Thing)
    requires Forest(st) && SameKeys(st) && AllStand(st) && c in st.All() && !c.typ.kind.Plain?
    ensures c.typ.kind.Depot? ==> TopOf(st, c) == c
    ensures TopOf(st, c) != null && TopOf(st, c) in st.All()
  {
    TopIs(st, c);
    if c.typ.kind.Depot? {
      TopIsDepot(st, c, c);
    }
  }

  lemma {:induction false} TopIs(st: State, c: Thing)
    requires Forest(st) && c in st.All() && !c.typ.kind.Plain?
    ensures TopOf(st, c) != null
    decreases |st.above[c]|
  {
    hide Linked;
    ThingOk(st, c);
    var p := st.parent[c];
    if p != null {
      ThingOk(st, p);
      if st.parent[p] != null {
        SmallerAbove(st, c);
        TopIs(st, p);
      }
    }
  }

  /** The depots around a container have room exactly if the outermost container, being one, says so. */
  lemma TopTakesIff(st: State, c: Thing, x: Thing, count: nat)
    requires Forest(st) && SameKeys(st) && AllStand(st) && c in st.All() && x in st.All() && !c.typ.kind.Plain?
    ensures var top := TopOf(st, c);
            DepotsTake(st, c, x, count)
            <==> (top != null && top.typ.kind.Depot? ==> DepotQuery(st, top, x, count, false) == RET_NOERROR)
  {
    hide Forest, Linked, ListOk, ChainOk, DepotQuery, Comes, TopOf;
    var top := TopOf(st, c);
    forall d | d in st.All() && d.typ.kind.Depot?
      ensures DepotTakes(st, c, x, count, d)
              <==> (top == d ==> DepotQuery(st, d, x, count, false) == RET_NOERROR)
    {
      TopIsDepot(st, c, d);
      DepotQueryIs(st, d, x, count);
    }
  }

  lemma DepotQueryIs(st: State, d: Thing, x: Thing, count: nat)
    requires Forest(st) && SameKeys(st) && d in st.All() && x in st.All() && Stands(st, d)
    ensures DepotQuery(st, d, x, count, false) == RET_NOERROR
            <==> |st.Below(d)| + Comes(st, d, x, count) <= d.depotLimit
  {
    hide Forest, Linked, ListOk, ChainOk, TopOf;
    TopIsDepot(st, x, d);
  }

  /** What the query for the quantity answers, in terms of the space there is. */
  lemma MaxIs(st: State, dest: Destination, x: Thing, count: nat, noLimit: bool)
    requires Forest(st) && NothingLost(st) && StacksOk(st) && SameKeys(st) && x in st.All()
    requires dest.c in st.All() && KnownDestination(st, dest)
    requires !dest.c.typ.kind.Tile? ==> dest.item == GetThing(st.list[dest.c], dest.index)
    ensures Known(st, st.list[dest.c]) && (dest.item != null ==> dest.item in st.All())
    ensures var (ret, max) := QueryMaxCount(st, dest.c, dest.index, x, count, noLimit);
            var limited := !dest.c.typ.kind.Tile? && !noLimit;
            && ret in {RET_NOERROR, RET_CONTAINERNOTENOUGHROOM}
            && (!limited ==> ret == RET_NOERROR && max == Max(1, count))
            && (limited && x.typ.stackable ==>
                  && max == Space(st, dest.c, dest.item, x, count, noLimit)
                  && (ret == RET_NOERROR <==> max >= count))
            && (limited && !x.typ.stackable ==>
                  && max == Max(0, dest.c.typ.capacity - |st.list[dest.c]|)
                  && (ret == RET_NOERROR <==> max > 0))
  {
    hide Forest, Linked, ListOk, ChainOk, NothingLost, StacksOk, Room, KnownDestination;
    DestKnown(st, dest);
    DestItems(st, dest.c);
  }

  /** The queries let so much of an item pass, and the source has it, exactly if there is room and the item is there. */
  lemma RoomIff(st: State, dest: Destination, x: Thing, count: nat, noLimit: bool)
    requires Forest(st) && NothingLost(st) && StacksOk(st) && SameKeys(st) && x in st.All()
    requires dest.c in st.All() && KnownDestination(st, dest)
    requires !dest.c.typ.kind.Tile? ==> dest.item == GetThing(st.list[dest.c], dest.index)
    ensures Known(st, st.list[dest.c]) && (dest.item != null ==> dest.item in st.All())
    ensures var (ret, max) := QueryMaxCount(st, dest.c, dest.index, x, count, noLimit);
            var m := if x.typ.stackable then Min(count, max) else max;
            var limited := !dest.c.typ.kind.Tile? && !noLimit;
            HasRoom(st, x, count, noLimit, dest.c, dest.item)
            <==> && !(ret != RET_NOERROR && max == 0) && m != 0 && (x.typ.stackable ==> m <= st.count[x])
                 && (!limited || dest.index != INDEX_WHEREEVER || |st.list[dest.c]| < dest.c.typ.capacity)
  {
    hide Forest, Linked, ListOk, ChainOk, NothingLost, StacksOk, QueryMaxCount, KnownDestination;
    MaxIs(st, dest, x, count, noLimit);
  }

  /** Each answer has its reason. */
  lemma RefusedBecause(st: State, from: Thing, to: Thing, index: int, x: Thing, count: nat, noLimit: bool, y: Thing,
                       c: Thing, item: Thing?)
    requires Forest(st) && NothingLost(st) && StacksOk(st) && AllStand(st) && SameKeys(st)
    requires from in st.All() && to in st.All() && x in st.All() && !to.typ.kind.Plain?
    requires Target(st, to, index, c, item) && item != x && MovePlan(st, from, to, index, x, count, noLimit).Refuse?
    ensures c in st.All() && (item != null ==> item in st.All())
    ensures var r := Move(st, from, to, index, x, count, noLimit, y).0;
            && r != RET_NOERROR
            && (r == RET_CANNOTPICKUP ==> !c.typ.kind.Tile? && !x.typ.pickupable)
            && (r == RET_THISISIMPOSSIBLE ==> !c.typ.kind.Tile? && (x == c || x in st.above[c]))
            && (r == RET_DEPOTISFULL ==> !c.typ.kind.Tile? && !noLimit && !DepotsTake(st, c, x, count))
            && (r == RET_CONTAINERNOTENOUGHROOM ==>
                  !c.typ.kind.Tile? && !noLimit && !HasRoom(st, x, count, noLimit, c, item))
            && (r == RET_NOTMOVEABLE ==> !x.typ.moveable || x.uniqueId != 0)
            && (r == RET_NOTPOSSIBLE ==>
                  x !in st.list[from] || (x.typ.stackable && !HasRoom(st, x, count, noLimit, c, item)))
  {
    hide Forest, Linked, ListOk, ChainOk, NothingLost, StacksOk, AllStand, Target, QueryDestination, MovePlan, Move;
    hide QueryAdd, QueryMaxCount, DepotsTake, Space, Known, KnownDestination, Merged, HasRoom;
    TargetIs(st, to, index, c, item);
    DestinationKnown(st, to, index);
    var dest := QueryDestination(st, to, index);
    DestKnown(st, dest);
    DestinationItem(st, to, index);
    PlanIs(st, from, to, index, x, count, noLimit);
    MoveOfPlan(st, from, to, index, x, count, noLimit, y);
    MaxIs(st, dest, x, count, noLimit);
    EntersBecause(st, c, dest.index, x, count, noLimit);
    RoomIff(st, dest, x, count, noLimit);
    if !c.typ.kind.Tile? && !noLimit && |st.list[c]| >= c.typ.capacity {
      NoRoomAnywhere(st, dest, x, count, noLimit);
    }
  }

  lemma EntersBecause(st: State, c: Thing, index: int, x: Thing, count: nat, noLimit: bool)
    requires Forest(st) && SameKeys(st) && AllStand(st) && c in st.All() && x in st.All() && !c.typ.kind.Plain?
    ensures var r := QueryAdd(st, c, index, x, count, noLimit);
            && (r == RET_CANNOTPICKUP ==> !c.typ.kind.Tile? && !x.typ.pickupable)
            && (r == RET_THISISIMPOSSIBLE ==> !c.typ.kind.Tile? && (x == c || x in st.above[c]))
            && (r == RET_DEPOTISFULL ==> !c.typ.kind.Tile? && !noLimit && !DepotsTake(st, c, x, count))
            && (r == RET_CONTAINERNOTENOUGHROOM ==>
                  !c.typ.kind.Tile? && !noLimit && index == INDEX_WHEREEVER && |st.list[c]| >= c.typ.capacity)
            && r != RET_NOTMOVEABLE && r != RET_NOTPOSSIBLE
  {
    hide Forest, Linked, ListOk, ChainOk, DepotQuery, DepotsTake, TopOf, AllStand;
    if !c.typ.kind.Tile? {
      TopTakesIff(st, c, x, count);
      DepotTop(st, c);
      NoLimitAsks(st, x, count);
      DepotAnswers(st, x, count, noLimit);
    }
  }

  lemma DepotAnswers(st: State, x: Thing, count: nat, noLimit: bool)
    requires Forest(st) && x in st.All()
    ensures forall d :: d in st.All() ==> DepotQuery(st, d, x, count, noLimit) in {RET_NOERROR, RET_DEPOTISFULL}
  {
    hide Forest, TopOf;
  }

  /** A full container has no room if any slot would do, and none for what does not stack. */
  lemma NoRoomAnywhere(st: State, dest: Destination, x: Thing, count: nat, noLimit: bool)
    requires SameKeys(st) && x in st.All() && dest.c in st.All() && (dest.item != null ==> dest.item in st.All())
    requires !dest.c.typ.kind.Tile? && !noLimit && |st.list[dest.c]| >= dest.c.typ.capacity
    requires dest.item == GetThing(st.list[dest.c], dest.index)
    ensures dest.index == INDEX_WHEREEVER || !x.typ.stackable ==> !HasRoom(st, x, count, noLimit, dest.c, dest.item)
  {
  }

  // ---------------------------------------------------------------- adding and removing

  /** An item that is nowhere is added exactly if it may enter and there is room for all of it. */
  lemma AddedIff(st: State, to: Thing, index: int, x: Thing, noLimit: bool, c: Thing, item: Thing?)
    requires Forest(st) && NothingLost(st) && StacksOk(st) && AllStand(st) && SameKeys(st)
    requires to in st.All() && x in st.All() && !to.typ.kind.Plain? && Target(st, to, index, c, item)
    requires x !in st.freed
    ensures c in st.All() && (item != null ==> item in st.All())
    ensures AddPlan(st, to, index, x, noLimit).Go?
            <==> && MayEnter(st, x, st.count[x], noLimit, c)
                 && if x.typ.stackable then Space(st, c, item, x, st.count[x], noLimit) >= st.count[x]
                    else c.typ.kind.Tile? || noLimit || |st.list[c]| < c.typ.capacity
    ensures AddPlan(st, to, index, x, noLimit).Go? ==> AddPlan(st, to, index, x, noLimit).dest.c == c
  {
    AliveCount(st, x);
    hide Forest, Linked, ListOk, ChainOk, NothingLost, StacksOk, AllStand, Target, QueryDestination;
    hide QueryAdd, QueryMaxCount, MayEnter, Known, KnownDestination, Merged;
    TargetIs(st, to, index, c, item);
    DestinationKnown(st, to, index);
    var dest := QueryDestination(st, to, index);
    DestKnown(st, dest);
    DestinationItem(st, to, index);
    MaxIs(st, dest, x, st.count[x], noLimit);
    EntersIff(st, c, dest.index, x, st.count[x], noLimit);
  }

  /** What is added goes into its target: the item there takes what it is short of 100; what is left of a stack that was
      split becomes a new stack; and otherwise the item itself goes in. */
  lemma AddGoes(st: State, to: Thing, index: int, x: Thing, noLimit: bool, y: Thing, c: Thing, item: Thing?)
    requires Forest(st) && NothingLost(st) && StacksOk(st) && SameKeys(st)
    requires to in st.All() && x in st.All() && !to.typ.kind.Plain? && Target(st, to, index, c, item)
    requires st.parent[x] == null && x !in st.freed && !x.typ.kind.Tile? && (x.typ.stackable ==> y !in st.All())
    requires AddPlan(st, to, index, x, noLimit).Go?
    ensures c in st.All() && (item != null ==> item in st.All())
    ensures var (r, end) := AddItem(st, to, index, x, noLimit, y);
            var n := if x.typ.stackable && Joins(x, item) then Min(100 - st.count[item], st.count[x]) else 0;
            && r == RET_NOERROR && SameKeys(end) && x in end.All() && (item != null ==> item in end.All())
            && (n > 0 ==> end.count[item] == st.count[item] + n)
            && if x.typ.stackable && n == st.count[x] then x in end.freed && end.parent[x] == null
               else if n > 0 then y in end.All() && end.parent[y] == c && end.count[y] == st.count[x] - n
               else end.parent[x] == c && end.count[x] == st.count[x]
  {
    hide Forest, Linked, ListOk, ChainOk, NothingLost, StacksOk, Target, AddPlan, AddSound, Added, KnownDestination;
    AliveCount(st, x);
    TargetIs(st, to, index, c, item);
    AddPlanSound(st, to, index, x, noLimit);
    AddPlanMerges(st, to, index, x, noLimit);
    var plan := AddPlan(st, to, index, x, noLimit);
    AddKnown(st, x, plan.dest, plan.m, plan.n);
    AddEffects(st, x, plan.dest, plan.m, plan.n, y);
  }

  lemma AddEffects(st: State, x: Thing, dest: Destination, m: nat, n: nat, y: Thing)
    requires Forest(st) && NothingLost(st) && StacksOk(st) && AddSound(st, x, dest, m, n) && x !in st.freed
    requires x.typ.stackable ==> y !in st.All()
    requires n > 0 ==> x.typ.stackable && dest.item != null && Joins(x, dest.item)
    ensures SameKeys(st) && x in st.All() && KnownDestination(st, dest) && n <= m && dest.c in st.All()
    ensures dest.item != null ==> dest.item in st.All()
    ensures var end := Added(st, x, dest, m, n, y);
            && SameKeys(end) && x in end.All() && (dest.item != null ==> dest.item in end.All())
            && (n > 0 ==> end.count[dest.item] == st.count[dest.item] + n)
            && if x.typ.stackable && n == st.count[x] then x in end.freed && end.parent[x] == null
               else if n > 0 then y in end.All() && end.parent[y] == dest.c && end.count[y] == st.count[x] - n
               else end.parent[x] == dest.c && end.count[x] == st.count[x]
  {
    hide Forest, Linked, ListOk, ChainOk, NothingLost, StacksOk, AddSound, Added, KnownDestination, Topped;
    ForestKeys(st);
    AddKnown(st, x, dest, m, n);
    AliveCount(st, x);
    AddedAt(st, x, dest, m, n, y, x);
    AddedNew(st, x, dest, m, n, y);
    ToppedCount(st, x, dest, n);
    if n > 0 {
      DestKnown(st, dest);
      AliveStack(st, dest.c, dest.item);
      AddedAt(st, x, dest, m, n, y, dest.item);
    }
  }

  lemma AddPlanMerges(st: State, to: Thing, index: int, x: Thing, noLimit: bool)
    requires Forest(st) && NothingLost(st) && StacksOk(st) && SameKeys(st) && to in st.All() && x in st.All()
    requires AddPlan(st, to, index, x, noLimit).Go?
    ensures var plan, item := AddPlan(st, to, index, x, noLimit), QueryDestination(st, to, index).item;
            && plan.dest == QueryDestination(st, to, index) && (item != null ==> item in st.All())
            && plan.n == if x.typ.stackable && Joins(x, item) then Min(100 - st.count[item], plan.m) else 0
  {
    hide Forest, Linked, ListOk, ChainOk, NothingLost, StacksOk, QueryDestination, QueryAdd, QueryMaxCount;
    DestinationKnown(st, to, index);
    var dest := QueryDestination(st, to, index);
    DestKnown(st, dest);
    if dest.item != null {
      AliveStack(st, dest.c, dest.item);
    }
  }

  lemma ToppedCount(st: State, x: Thing, dest: Destination, n: nat)
    requires SameKeys(st) && KnownDestination(st, dest) && x in st.All() && dest.item != x
    ensures Topped(st, x, dest, n).count[x] == st.count[x]
    ensures x.typ.stackable && Joins(x, dest.item) ==>
              dest.item in st.All() && Topped(st, x, dest, n).count[dest.item] == LowByte(st.count[dest.item] + n)
  {
  }

  lemma AliveCount(st: State, x: Thing)
    requires SameKeys(st) && StacksOk(st) && x in st.All() && x !in st.freed
    ensures 1 <= st.count[x] <= 100
  {
    assert StackOk(x, st.count[x]);
  }

  /** A removal of a count, or of all with -1, goes through exactly if the item is in a container, is no depot and has
      so many; then a piece leaves the rest where it is, and otherwise the item is gone. */
  lemma RemoveGoes(st: State, x: Thing, count: int)
    requires Forest(st) && SameKeys(st) && x in st.All() && -1 <= count < UINT32
    ensures var (r, end), n := RemoveItem(st, x, count), if count == -1 then st.count[x] else count;
            && (r == RET_NOERROR
                <==> st.parent[x] != null && !x.typ.kind.Depot? && n > 0 && (x.typ.stackable ==> n <= st.count[x]))
            && (r != RET_NOERROR ==> end == st)
            && (r == RET_NOERROR ==>
                  && SameKeys(end) && x in end.All()
                  && if x.typ.stackable && n < st.count[x]
                     then end.parent[x] == st.parent[x] && end.count[x] == st.count[x] - n
                     else end.parent[x] == null && x in end.freed)
  {
    hide Linked, ListOk, ChainOk, Removed, IsRemoved;
    if st.parent[x] != null {
      ThingOk(st, x);
      ThingOk(st, st.parent[x]);
      var n: nat := Asked(count, st.count[x]);
      if RemoveItem(st, x, count).0 == RET_NOERROR {
        RemovedAt(st, st.parent[x], x, n, x);
      }
    }
  }
}
