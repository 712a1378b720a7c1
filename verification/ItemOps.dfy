/** Adding, removing and replacing items, and what each of them keeps. */
module ItemOps {
  import opened Bytes
  import opened ItemForest
  import opened ItemMove
  import opened MoveLaws
  import opened DepotLaw

  // ---------------------------------------------------------------- the operations

  /** What `internalAddItem` decides to do with an item that is nowhere yet. */
  ghost function AddPlan(st: State, to: Thing, index: int, x: Thing, noLimit: bool): Plan
    requires Forest(st) && to in st.All() && x in st.All()
  {
    var dest := QueryDestination(st, to, index);
    DestinationKnown(st, to, index);
    var ret := QueryAdd(st, dest.c, dest.index, x, st.count[x], noLimit);
    if ret != RET_NOERROR then Refuse(ret)
    else
      var (retMax, max) := QueryMaxCount(st, dest.c, dest.index, x, st.count[x], noLimit);
      if retMax != RET_NOERROR then Refuse(retMax)
      else
        var m := if x.typ.stackable then Min(st.count[x], max) else max;
        Go(dest, m, Merged(st, dest, x, m), RET_NOERROR)
  }

  /** The item at the destination takes `n`. */
  ghost function Topped(st: State, x: Thing, dest: Destination, n: nat): (r: State)
    requires SameKeys(st) && KnownDestination(st, dest)
    ensures SameKeys(r) && r.All() == st.All() && r.freed == st.freed && r.above == st.above
    ensures r.parent == st.parent && r.list == st.list
  {
    if x.typ.stackable && dest.item != null && dest.item.typ.id == x.typ.id
    then SetCount(st, dest.item, st.count[dest.item] + n) else st
  }

  /** The item, or the new item `y` for what did not merge, goes into the destination. An item that only lost a part
      to the item at the destination is neither linked nor handed over for deletion. */
  ghost function Added(st: State, x: Thing, dest: Destination, m: nat, n: nat, y: Thing): (r: State)
    requires SameKeys(st) && x in st.All() && KnownDestination(st, dest) && n <= m
    ensures SameKeys(r)
  {
    var st1 := Topped(st, x, dest, n);
    if x.typ.stackable && m == n then Free(st1, x)
    else if x.typ.stackable && m - n != st.count[x] then AddThing(Create(st1, y, m - n), dest.c, dest.index, y)
    else AddThing(st1, dest.c, dest.index, x)
  }

  ghost function AddItem(st: State, to: Thing, index: int, x: Thing, noLimit: bool, y: Thing): (ReturnValue, State)
    requires Forest(st) && to in st.All() && x in st.All()
  {
    var plan := AddPlan(st, to, index, x, noLimit);
    if plan.Refuse? then (plan.ret, st)
    else
      DestinationKnown(st, to, index);
      (RET_NOERROR, Added(st, x, plan.dest, plan.m, plan.n, y))
  }

  /** How many items a removal is about: -1 stands for all of them, and other counts are read as unsigned. */
  function Asked(count: int, held: nat): nat {
    if count == -1 then held else count % UINT32
  }

  /** `internalRemoveItem`: -1 stands for the whole item. */
  ghost function RemoveItem(st: State, x: Thing, count: int): (ReturnValue, State)
    requires Forest(st) && x in st.All()
  {
    assert ParentOk(st, x);
    var c := st.parent[x];
    if c == null then (RET_NOTPOSSIBLE, st)
    else
      assert ListOk(st, c);
      var n: nat := Asked(count, st.count[x]);
      var ret := QueryRemove(st, c, x, n);
      if ret != RET_NOERROR && ret != RET_NOTMOVEABLE then (ret, st)
      else if x.typ.kind.Depot? then (RET_NOTPOSSIBLE, st)
      else (RET_NOERROR, Removed(st, c, x, n))
  }

  ghost function Removed(st: State, c: Thing, x: Thing, n: nat): (r: State)
    requires SameKeys(st) && c in st.All() && x in st.All() && ListOk(st, c)
    ensures SameKeys(r) && r.All() == st.All()
  {
    var st1 := RemoveThing(st, c, x, n);
    if IsRemoved(st1, x) then Free(st1, x) else st1
  }

  /** `__replaceThing`: the item takes the place of the one at the index. */
  ghost function ReplaceThing(st: State, c: Thing, index: nat, x: Thing): (r: State)
    requires Forest(st) && c in st.All() && x in st.All()
    ensures SameKeys(r) && r.All() == st.All()
  {
    if index < |st.list[c]| then
      var was := st.list[c][index];
      ListItem(st, c, was);
      assert ListOk(st, c);
      WithoutIs(st.list[c], was);
      Link(Unlink(st, was), c, index, x)
    else st
  }

  // ---------------------------------------------------------------- adding

  /** What a plan to add promises about the things involved. */
  ghost predicate AddSound(st: State, x: Thing, dest: Destination, m: nat, n: nat)
    requires SameKeys(st)
  {
    && KnownDestination(st, dest) && x in st.All() && Attachable(st, dest.c, x) && dest.item != x
    && (dest.c.typ.kind.Tile? || dest.index < dest.c.typ.capacity)
    && (x.typ.stackable ==> m == st.count[x]) && n == Merged(st, dest, x, m)
  }

  lemma AddPlanSound(st: State, to: Thing, index: int, x: Thing, noLimit: bool)
    requires Forest(st) && to in st.All() && x in st.All() && !to.typ.kind.Plain?
    requires st.parent[x] == null && !x.typ.kind.Tile?
    ensures var plan := AddPlan(st, to, index, x, noLimit);
            plan.Go? ==> AddSound(st, x, plan.dest, plan.m, plan.n)
  {
    var dest := QueryDestination(st, to, index);
    DestinationKnown(st, to, index);
    DestinationIndex(st, to, index);
    assert ChainOk(st, dest.c) && ParentOk(st, dest.c);
    if dest.item != null {
      ListItem(st, dest.c, dest.item);
    }
    MaxCount(st, dest.c, dest.index, x, st.count[x], noLimit);
    hide QueryDestination, QueryMaxCount, Merged, ChainOk, KnownDestination;
  }

  /** Without an error, all of a stack fits. */
  lemma MaxCount(st: State, c: Thing, index: int, x: Thing, count: nat, noLimit: bool)
    requires SameKeys(st) && c in st.All() && forall t :: t in st.list[c] ==> t in st.All()
    ensures var (ret, max) := QueryMaxCount(st, c, index, x, count, noLimit);
            ret == RET_NOERROR && x.typ.stackable ==> count <= max
  {
  }

  lemma ToppedForest(st: State, x: Thing, dest: Destination, n: nat)
    requires Forest(st) && KnownDestination(st, dest)
    ensures Forest(Topped(st, x, dest, n))
  {
    hide Forest, Linked, ChainOk, ListOk, SetCount;
    ForestKeys(st);
    if x.typ.stackable && dest.item != null && dest.item.typ.id == x.typ.id {
      SetCountForest(st, dest.item, st.count[dest.item] + n);
    }
  }

  lemma AddedForest(st: State, x: Thing, dest: Destination, m: nat, n: nat, y: Thing)
    requires Forest(st) && AddSound(st, x, dest, m, n)
    requires x.typ.stackable ==> y !in st.All() && !y.typ.kind.Tile?
    ensures Forest(Added(st, x, dest, m, n, y))
  {
    hide Forest, Linked, ChainOk, ListOk, ParentOk, Topped, Merged, Free, Create, AddThing, IsRemoved;
    ForestKeys(st);
    var st1 := Topped(st, x, dest, n);
    ToppedForest(st, x, dest, n);
    if x.typ.stackable && m == n {
      FreeForest(st1, x);
    } else if x.typ.stackable && m - n != st.count[x] {
      CreateForest(st1, y, m - n);
      NewAttachable(st1, dest.c, y, m - n);
      AddForest(Create(st1, y, m - n), dest.c, dest.index, y);
    } else {
      AddForest(st1, dest.c, dest.index, x);
    }
  }

  /** What arrives in the destination: the item itself, or a new stack for what the item there could not take. */
  ghost predicate NewStack(x: Thing, n: nat) {
    x.typ.stackable && n != 0
  }

  ghost predicate Arrives(x: Thing, m: nat, n: nat) {
    !x.typ.stackable || m != n
  }

  lemma AddKnown(st: State, x: Thing, dest: Destination, m: nat, n: nat)
    requires SameKeys(st) && AddSound(st, x, dest, m, n)
    ensures KnownDestination(st, dest) && dest.c in st.All() && x in st.All() && n <= m
    ensures x != dest.c && x !in st.above[dest.c] && st.parent[x] == null && !dest.c.typ.kind.Plain?
    ensures dest.c.typ.kind.Tile? || dest.index < dest.c.typ.capacity
    ensures dest.item != x && (x.typ.stackable ==> m == st.count[x])
    ensures dest.item != null ==> dest.item in st.All()
  {
  }

  /** What adding does to the record of one thing that was there before. */
  lemma AddedAt(st: State, x: Thing, dest: Destination, m: nat, n: nat, y: Thing, t: Thing)
    requires Forest(st) && AddSound(st, x, dest, m, n) && t in st.All()
    requires x.typ.stackable ==> y !in st.All()
    ensures n <= m && x in st.All() && dest.c in st.All() && KnownDestination(st, dest)
    ensures var end, z := Added(st, x, dest, m, n, y), if NewStack(x, n) then y else x;
            && t in end.All()
            && end.parent[t] == (if Arrives(x, m, n) && t == z then dest.c else st.parent[t])
            && end.list[t] == (if Arrives(x, m, n) && t == dest.c then Insert(st.list[t], 0, z) else st.list[t])
            && end.above[t] == (if Arrives(x, m, n) && z == x && Moves(st, t, x)
                                then st.above[t] + st.above[dest.c] + {dest.c} else st.above[t])
            && end.count[t] == Topped(st, x, dest, n).count[t]
            && (t in end.freed <==> t in st.freed || (!Arrives(x, m, n) && t == x))
  {
    hide Linked, ListOk, ChainOk, KnownDestination, AddSound, Topped, Insert, AddThing, Create, SameKeys;
    ForestKeys(st);
    AddKnown(st, x, dest, m, n);
    var st1 := Topped(st, x, dest, n);
    ThingKnown(st, t);
    if x.typ.stackable && m != n && n != 0 {
      NewAt(st1, dest.c, dest.index, y, m - n, t);
    } else {
      WholeAt(st1, dest.c, dest.index, x, t);
    }
  }

  lemma ThingKnown(st: State, t: Thing)
    requires Forest(st) && t in st.All()
    ensures t in st.above && st.above[t] <= st.All()
  {
    assert ChainOk(st, t);
  }

  lemma WholeAt(st: State, c: Thing, index: int, x: Thing, t: Thing)
    requires SameKeys(st) && c in st.All() && x in st.All() && t in st.All()
    requires c.typ.kind.Tile? || index < c.typ.capacity
    ensures var end := AddThing(st, c, index, x);
            && end.parent[t] == (if t == x then c else st.parent[t])
            && end.list[t] == (if t == c then Insert(st.list[t], 0, x) else st.list[t])
            && end.above[t] == if Moves(st, t, x) then st.above[t] + st.above[c] + {c} else st.above[t]
  {
    hide Insert;
    LinkAt(st, c, 0, x, t);
  }

  /** What adding does to the new stack. */
  lemma AddedNew(st: State, x: Thing, dest: Destination, m: nat, n: nat, y: Thing)
    requires Forest(st) && AddSound(st, x, dest, m, n)
    requires x.typ.stackable ==> y !in st.All()
    ensures n <= m && x in st.All() && dest.c in st.All() && KnownDestination(st, dest)
    ensures var end := Added(st, x, dest, m, n, y);
            if NewStack(x, n) && Arrives(x, m, n)
            then && end.All() == st.All() + {y} && y in end.All() && end.parent[y] == dest.c && end.list[y] == []
                 && end.above[y] == st.above[dest.c] + {dest.c} && end.count[y] == m - n && y !in end.freed
            else end.All() == st.All()
  {
    hide Forest, Linked, ListOk, ChainOk, KnownDestination, AddSound, Topped, Insert, AddThing, Create, SameKeys;
    ForestKeys(st);
    AddKnown(st, x, dest, m, n);
    ThingKnown(st, dest.c);
    if x.typ.stackable && m != n && n != 0 {
      NewAt(Topped(st, x, dest, n), dest.c, dest.index, y, m - n, dest.c);
    }
  }

  lemma AddedNothingLost(st: State, x: Thing, dest: Destination, m: nat, n: nat, y: Thing)
    requires Forest(st) && NothingLost(st) && AddSound(st, x, dest, m, n) && x !in st.freed
    requires x.typ.stackable ==> y !in st.All()
    ensures NothingLost(Added(st, x, dest, m, n, y))
  {
    hide Forest, Linked, ListOk, ChainOk, KnownDestination, AddSound, Added;
    ForestKeys(st);
    AddKnown(st, x, dest, m, n);
    var end := Added(st, x, dest, m, n, y);
    forall t | t in end.freed ensures end.parent[t] == null {
      AddedNew(st, x, dest, m, n, y);
      if t in st.All() {
        AddedAt(st, x, dest, m, n, y, t);
      }
    }
  }

  lemma ToppedStacks(st: State, x: Thing, dest: Destination, m: nat, n: nat, t: Thing)
    requires Forest(st) && NothingLost(st) && StacksOk(st) && AddSound(st, x, dest, m, n)
    requires t in st.All() && t !in st.freed
    ensures KnownDestination(st, dest) && StackOk(t, Topped(st, x, dest, n).count[t])
  {
    hide Forest, Linked, ListOk, ChainOk, Room;
    ForestKeys(st);
    DestKnown(st, dest);
    if dest.item != null {
      ListedAlive(st, dest.c, dest.item);
    }
    assert StackOk(t, st.count[t]);
  }

  lemma AddedStacks(st: State, x: Thing, dest: Destination, m: nat, n: nat, y: Thing)
    requires Forest(st) && NothingLost(st) && StacksOk(st) && AddSound(st, x, dest, m, n) && x !in st.freed
    requires x.typ.stackable ==> y !in st.All() && y.typ == x.typ
    ensures StacksOk(Added(st, x, dest, m, n, y))
  {
    hide Forest, Linked, ListOk, ChainOk, KnownDestination, AddSound, Added, Topped;
    ForestKeys(st);
    AddKnown(st, x, dest, m, n);
    var end := Added(st, x, dest, m, n, y);
    AddedNew(st, x, dest, m, n, y);
    assert StackOk(x, st.count[x]);
    forall t | t in end.All() && t !in end.freed ensures StackOk(t, end.count[t]) {
      if t in st.All() {
        AddedAt(st, x, dest, m, n, y, t);
        ToppedStacks(st, x, dest, m, n, t);
      }
    }
  }

  /** Without the flag that lifts limits, something new goes only where a slot is free. */
  lemma AddHasRoom(st: State, to: Thing, index: int, x: Thing)
    requires Forest(st) && to in st.All() && x in st.All() && !to.typ.kind.Plain?
    ensures var plan := AddPlan(st, to, index, x, false);
            plan.Go? ==>
              && plan.dest.c in st.All()
              && QueryAdd(st, plan.dest.c, plan.dest.index, x, st.count[x], false) == RET_NOERROR
              && (|| plan.dest.c.typ.kind.Tile? || !Arrives(x, plan.m, plan.n)
                  || |st.list[plan.dest.c]| < plan.dest.c.typ.capacity)
  {
    hide Forest, Linked, ListOk, ChainOk, ContainerQuery, QueryAdd, QueryDestination;
    ForestKeys(st);
    var dest := QueryDestination(st, to, index);
    DestinationKnown(st, to, index);
    DestKnown(st, dest);
    DestinationItem(st, to, index);
  }

  lemma AddedRoom(st: State, x: Thing, dest: Destination, m: nat, n: nat, y: Thing)
    requires Forest(st) && RoomOk(st) && AddSound(st, x, dest, m, n)
    requires x.typ.stackable ==> y !in st.All()
    requires dest.c in st.All()
    requires dest.c.typ.kind.Tile? || !Arrives(x, m, n) || |st.list[dest.c]| < dest.c.typ.capacity
    ensures RoomOk(Added(st, x, dest, m, n, y))
  {
    hide Forest, Linked, ListOk, ChainOk, KnownDestination, AddSound, Added, Topped;
    ForestKeys(st);
    AddKnown(st, x, dest, m, n);
    var end := Added(st, x, dest, m, n, y);
    AddedNew(st, x, dest, m, n, y);
    forall c | c in end.All() ensures RoomFor(c, |end.list[c]|) {
      if c in st.All() {
        AddedAt(st, x, dest, m, n, y, c);
        assert RoomFor(c, |st.list[c]|);
      }
    }
  }

  /** What is in a depot after adding was there before, or came with the item. */
  lemma AddedInDepot(st: State, x: Thing, dest: Destination, m: nat, n: nat, y: Thing, d: Thing, t: Thing)
    requires Forest(st) && AddSound(st, x, dest, m, n) && d in st.All()
    requires x.typ.stackable ==> y !in st.All()
    requires t in Added(st, x, dest, m, n, y).Below(d)
    ensures || t in st.Below(d)
            || (&& dest.c in st.All() && Within(st, dest.c, d) && Arrives(x, m, n)
                && if NewStack(x, n) then t == y else t in st.All() && Moves(st, t, x))
  {
    hide Forest, Linked, ListOk, ChainOk, KnownDestination, AddSound, Added, Topped;
    ForestKeys(st);
    AddedNew(st, x, dest, m, n, y);
    if t in st.All() {
      AddedAt(st, x, dest, m, n, y, t);
    }
  }

  lemma AddedWithin(st: State, x: Thing, dest: Destination, m: nat, n: nat, y: Thing, d: Thing, count: nat)
    requires Forest(st) && AddSound(st, x, dest, m, n) && (x.typ.stackable ==> y !in st.All())
    requires d in st.All() && DepotOk(st, d) && Stands(st, d) && st.parent[d] != null && st.parent[x] == null
    requires dest.c in st.All() && Within(st, dest.c, d) ==> DepotQuery(st, d, x, count, false) == RET_NOERROR
    ensures |Added(st, x, dest, m, n, y).Below(d)| <= d.depotLimit
  {
    hide Forest, Linked, ListOk, Added, AddSound, TopOf, KnownDestination;
    ForestKeys(st);
    AddKnown(st, x, dest, m, n);
    var now, was := Added(st, x, dest, m, n, y).Below(d), st.Below(d);
    TopIsDepot(st, x, d);
    ThingOk(st, x);
    hide ChainOk;
    forall t | t in now
      ensures t in was || (&& Within(st, dest.c, d)
                           && if NewStack(x, n) then t == y else t in st.All() && Moves(st, t, x))
    {
      AddedInDepot(st, x, dest, m, n, y, d, t);
    }
    if Within(st, dest.c, d) {
      if NewStack(x, n) {
        NoMore(now, was + {y});
      } else {
        NoMore(now, was + {x} + st.Below(x));
        if x.typ.kind.Plain? {
          forall t | t in st.Below(x) ensures false {
            PlainHoldsNothing(st, x, t);
          }
          assert st.Below(x) == {};
        }
      }
    } else {
      NoMore(now, was);
    }
  }

  lemma AddedDepot(st: State, to: Thing, index: int, x: Thing, y: Thing, d: Thing)
    requires Forest(st) && d in st.All() && DepotOk(st, d) && d.typ.kind.Depot? && x != d
    requires to in st.All() && x in st.All() && !to.typ.kind.Plain? && st.parent[x] == null && !x.typ.kind.Tile?
    requires x.typ.stackable ==> y !in st.All()
    requires AddPlan(st, to, index, x, false).Go?
    ensures DepotOk(AddItem(st, to, index, x, false, y).1, d)
  {
    hide Forest, Linked, ListOk, ChainOk, Added, AddSound, TopOf, KnownDestination, AddPlan, DepotQuery, Within;
    ForestKeys(st);
    var plan := AddPlan(st, to, index, x, false);
    AddPlanSound(st, to, index, x, false);
    AddHasRoom(st, to, index, x);
    DepotChain(st, d);
    AddKnown(st, x, plan.dest, plan.m, plan.n);
    if st.parent[d] != null {
      if Within(st, plan.dest.c, d) {
        DepotIsAsked(st, plan.dest.c, plan.dest.index, x, st.count[x], d);
      }
      AddedWithin(st, x, plan.dest, plan.m, plan.n, y, d, st.count[x]);
    }
    AddedAt(st, x, plan.dest, plan.m, plan.n, y, d);
  }

  /** Adding an item without the flag that lifts limits leaves no depot over its limit. */
  lemma AddDepots(st: State, to: Thing, index: int, x: Thing, y: Thing)
    requires Forest(st) && DepotsOk(st)
    requires to in st.All() && x in st.All() && !to.typ.kind.Plain? && st.parent[x] == null && !x.typ.kind.Tile?
    requires !x.typ.kind.Depot? && (x.typ.stackable ==> y !in st.All() && y.typ == x.typ)
    ensures DepotsOk(AddItem(st, to, index, x, false, y).1)
  {
    hide Forest, Linked, ListOk, ChainOk, Added, AddSound, TopOf, KnownDestination, AddPlan, Within;
    ForestKeys(st);
    var plan := AddPlan(st, to, index, x, false);
    if plan.Go? {
      AddPlanSound(st, to, index, x, false);
      AddedNew(st, x, plan.dest, plan.m, plan.n, y);
      var end := AddItem(st, to, index, x, false, y).1;
      forall d | d in end.All() ensures DepotOk(end, d) {
        if d.typ.kind.Depot? {
          assert d in st.All();
          AddedDepot(st, to, index, x, y, d);
        }
      }
    }
  }

  /** The item at the destination takes part of the stack, and the rest becomes a new stack. */
  ghost predicate Overflows(st: State, x: Thing, dest: Destination)
    requires SameKeys(st) && (dest.item != null ==> dest.item in st.All()) && x in st.All()
  {
    && x.typ.stackable && dest.item != null && dest.item.typ.id == x.typ.id
    && 0 < Room(st.count[dest.item]) < st.count[x]
  }

  /** An added item ends up in a container or is handed over for deletion, but for one case: when it is split between
      the item at the destination and a new stack, it is left behind as an item that is nowhere. */
  lemma LeftBehindIff(st: State, to: Thing, index: int, x: Thing, noLimit: bool, y: Thing)
    requires Forest(st) && to in st.All() && x in st.All() && !to.typ.kind.Plain?
    requires st.parent[x] == null && x !in st.freed && !x.typ.kind.Tile?
    requires x.typ.stackable ==> y !in st.All()
    requires AddPlan(st, to, index, x, noLimit).Go?
    ensures var end, dest := AddItem(st, to, index, x, noLimit, y).1, QueryDestination(st, to, index);
            && SameKeys(end) && x in end.All() && (dest.item != null ==> dest.item in st.All())
            && (end.parent[x] == null && x !in end.freed <==> Overflows(st, x, dest))
  {
    hide Forest, Linked, ListOk, ChainOk, Added, QueryDestination, QueryAdd, QueryMaxCount, KnownDestination, AddSound;
    ForestKeys(st);
    DestinationKnown(st, to, index);
    DestKnown(st, QueryDestination(st, to, index));
    var plan := AddPlan(st, to, index, x, noLimit);
    AddPlanSound(st, to, index, x, noLimit);
    AddKnown(st, x, plan.dest, plan.m, plan.n);
    AddedAt(st, x, plan.dest, plan.m, plan.n, y, x);
  }

  // ---------------------------------------------------------------- removing

  /** What a removal that goes through may rely on. */
  ghost predicate RemoveSound(st: State, c: Thing, x: Thing, n: nat)
    requires SameKeys(st)
  {
    && c in st.All() && x in st.All() && ListOk(st, c) && x in st.list[c] && !x.typ.kind.Depot?
    && 1 <= n && (x.typ.stackable ==> n <= st.count[x])
  }

  lemma RemovedForest(st: State, c: Thing, x: Thing, n: nat)
    requires Forest(st) && RemoveSound(st, c, x, n)
    ensures Forest(Removed(st, c, x, n))
  {
    hide Forest, Linked, ListOk, ChainOk, RemoveThing, IsRemoved, Free;
    ForestKeys(st);
    RemoveForest(st, c, x, n);
    FreeForest(RemoveThing(st, c, x, n), x);
  }

  /** What removing does to the record of one thing. */
  lemma RemovedAt(st: State, c: Thing, x: Thing, n: nat, t: Thing)
    requires Forest(st) && RemoveSound(st, c, x, n) && t in st.All()
    ensures c in st.All() && x in st.All() && ListOk(st, c)
    ensures var end, gone := Removed(st, c, x, n), Leaves(st, x, n);
            && end.parent[t] == (if gone && t == x then null else st.parent[t])
            && end.list[t] == (if gone && t == c then Without(st.list[t], x) else st.list[t])
            && end.above[t] == (if gone && Moves(st, t, x) then st.above[t] - st.above[x] else st.above[t])
            && end.count[t] == (if !gone && t == x then st.count[x] - n else st.count[t])
            && end.freed == if gone || IsRemoved(st, x) then st.freed + {x} else st.freed
  {
    hide Linked, ListOk, ChainOk, Unlink;
    ListItem(st, c, x);
    ThingOk(st, x);
    UnlinkAt(st, x, t);
    UnlinkAt(st, x, x);
  }

  /** No piece is taken from an item that hangs under no tile. */
  ghost predicate CleanRemoval(st: State, x: Thing, n: nat)
    requires SameKeys(st) && x in st.All()
  {
    st.parent[x] == null || !IsRemoved(st, x) || Leaves(st, x, n)
  }

  /** Removing hands an item that is still in its container over for deletion in one case only: a piece of it was
      removed under no tile. */
  lemma RemovedNothingLostIff(st: State, c: Thing, x: Thing, n: nat)
    requires Forest(st) && NothingLost(st) && RemoveSound(st, c, x, n)
    ensures c in st.All() && x in st.All() && ListOk(st, c)
    ensures NothingLost(Removed(st, c, x, n)) <==> CleanRemoval(st, x, n)
  {
    hide Forest, Linked, ListOk, ChainOk, Removed, IsRemoved;
    ForestKeys(st);
    ListItem(st, c, x);
    RemovedAt(st, c, x, n, x);
    var end := Removed(st, c, x, n);
    forall t | t in st.freed ensures end.parent[t] == null {
      RemovedAt(st, c, x, n, t);
    }
  }

  /** Removing keeps stacks whole. */
  lemma RemovedStacks(st: State, c: Thing, x: Thing, n: nat)
    requires Forest(st) && NothingLost(st) && StacksOk(st) && RemoveSound(st, c, x, n)
    ensures c in st.All() && x in st.All() && ListOk(st, c)
    ensures StacksOk(Removed(st, c, x, n))
  {
    hide Forest, Linked, ListOk, ChainOk, Removed, IsRemoved;
    ForestKeys(st);
    ListedAlive(st, c, x);
    assert StackOk(x, st.count[x]);
    RemovedAt(st, c, x, n, x);
    var end := Removed(st, c, x, n);
    forall t | t in st.All() ensures t !in end.freed ==> StackOk(t, end.count[t]) {
      RemovedAt(st, c, x, n, t);
    }
  }

  /** Removing gives every container and every depot more room, if anything. */
  lemma RemovedLimits(st: State, c: Thing, x: Thing, n: nat)
    requires Forest(st) && RoomOk(st) && DepotsOk(st) && RemoveSound(st, c, x, n)
    ensures c in st.All() && x in st.All() && ListOk(st, c)
    ensures RoomOk(Removed(st, c, x, n)) && DepotsOk(Removed(st, c, x, n))
  {
    hide Forest, Linked, ListOk, ChainOk, Removed, IsRemoved, Without;
    ForestKeys(st);
    RemovedAt(st, c, x, n, x);
    var end := Removed(st, c, x, n);
    forall d | d in st.All() ensures RoomFor(d, |end.list[d]|) && DepotOk(end, d) {
      RemovedAt(st, c, x, n, d);
      assert RoomFor(d, |st.list[d]|) && DepotOk(st, d);
      WithoutShorter(st, c, x);
      forall t | t in end.Below(d) ensures t in st.Below(d) {
        RemovedAt(st, c, x, n, t);
      }
      NoMore(end.Below(d), st.Below(d));
    }
  }

  // ---------------------------------------------------------------- replacing

  /** An empty, detached item takes the place of another. */
  ghost predicate Replaceable(st: State, c: Thing, index: nat, x: Thing)
    requires SameKeys(st)
  {
    Attachable(st, c, x) && index < |st.list[c]| && st.list[x] == [] && !c.typ.kind.Tile?
  }

  lemma EmptyHoldsNothing(st: State, x: Thing, t: Thing)
    requires Forest(st) && x in st.All() && st.list[x] == [] && t in st.All()
    ensures x !in st.above[t]
    decreases |st.above[t]|
  {
    hide Linked;
    ThingOk(st, t);
    var p := st.parent[t];
    if p != null {
      ThingOk(st, p);
      SmallerAbove(st, t);
      EmptyHoldsNothing(st, x, p);
    }
  }

  lemma ReplacedForest(st: State, c: Thing, index: nat, x: Thing)
    requires Forest(st) && Replaceable(st, c, index, x)
    ensures Forest(ReplaceThing(st, c, index, x))
  {
    hide Forest, Linked, ListOk, ChainOk, ParentOk, Link, Unlink, Without;
    ForestKeys(st);
    var was := st.list[c][index];
    ListItem(st, c, was);
    ListKnown(st, c);
    WithoutIs(st.list[c], was);
    UnlinkForest(st, was);
    UnlinkAt(st, was, c);
    UnlinkAt(st, was, x);
    LinkForest(Unlink(st, was), c, index, x);
  }

  lemma ListKnown(st: State, c: Thing)
    requires Forest(st) && c in st.All()
    ensures ListOk(st, c) && NoDuplicates(st.list[c])
  {
    assert ListOk(st, c);
  }

  /** What replacing does to the record of one thing. */
  lemma ReplacedAt(st: State, c: Thing, index: nat, x: Thing, t: Thing)
    requires Forest(st) && Replaceable(st, c, index, x) && t in st.All()
    ensures var end, was := ReplaceThing(st, c, index, x), st.list[c][index];
            && end.count == st.count && end.freed == st.freed
            && end.parent[t] == (if t == x then c else if t == was then null else st.parent[t])
            && |end.list[t]| == |st.list[t]|
            && end.above[t] <= (if t == x then st.above[c] + {c} else st.above[t])
            && end.above[was] == {}
  {
    hide Forest, Linked, ListOk, ParentOk, Link, Unlink, Without;
    ForestKeys(st);
    var was := st.list[c][index];
    ListItem(st, c, was);
    ListKnown(st, c);
    WithoutIs(st.list[c], was);
    EmptyHoldsNothing(st, x, t);
    EmptyHoldsNothing(st, x, was);
    UnlinkAt(st, was, t);
    UnlinkAt(st, was, was);
    UnlinkAt(st, was, c);
    UnlinkAt(st, was, x);
    ChainKnown(st, x);
    ChainKnown(st, was);
    ChainKnown(st, t);
    hide ChainOk;
    var st1 := Unlink(st, was);
    LinkAt(st1, c, index, x, t);
    LinkAt(st1, c, index, x, was);
  }

  lemma ChainKnown(st: State, t: Thing)
    requires Forest(st) && t in st.All()
    ensures t !in st.above[t] && (st.parent[t] == null ==> st.above[t] == {})
    ensures st.parent[t] != null ==> st.parent[t] in st.above[t] && st.parent[t] in st.All()
  {
    assert ChainOk(st, t);
  }

  lemma ReplacedSane(st: State, c: Thing, index: nat, x: Thing)
    requires Forest(st) && NothingLost(st) && StacksOk(st) && Replaceable(st, c, index, x) && x !in st.freed
    ensures NothingLost(ReplaceThing(st, c, index, x)) && StacksOk(ReplaceThing(st, c, index, x))
  {
    hide Forest, Linked, ListOk, ChainOk, ReplaceThing;
    ForestKeys(st);
    var end := ReplaceThing(st, c, index, x);
    forall t | t in st.All()
      ensures (t in end.freed ==> end.parent[t] == null) && (t !in end.freed ==> StackOk(t, end.count[t]))
    {
      ReplacedAt(st, c, index, x, t);
    }
  }

  lemma ReplacedLimits(st: State, c: Thing, index: nat, x: Thing)
    requires Forest(st) && RoomOk(st) && DepotsOk(st) && Replaceable(st, c, index, x) && !x.typ.kind.Depot?
    ensures RoomOk(ReplaceThing(st, c, index, x)) && DepotsOk(ReplaceThing(st, c, index, x))
  {
    hide Forest, Linked, ListOk, ChainOk, ReplaceThing;
    ForestKeys(st);
    var end := ReplaceThing(st, c, index, x);
    forall d | d in st.All() ensures RoomFor(d, |end.list[d]|) && DepotOk(end, d) {
      ReplacedAt(st, c, index, x, d);
      assert RoomFor(d, |st.list[d]|) && DepotOk(st, d);
      if d.typ.kind.Depot? {
        ReplacedDepot(st, c, index, x, d);
        DepotStays(st, c, index, x, d);
      }
    }
  }

  lemma DepotStays(st: State, c: Thing, index: nat, x: Thing, d: Thing)
    requires Forest(st) && Replaceable(st, c, index, x) && !x.typ.kind.Depot?
    requires d in st.All() && DepotOk(st, d) && d.typ.kind.Depot?
    ensures d != x && d != st.list[c][index]
  {
    ListItem(st, c, st.list[c][index]);
  }

  lemma ReplacedDepot(st: State, c: Thing, index: nat, x: Thing, d: Thing)
    requires Forest(st) && Replaceable(st, c, index, x) && d in st.All()
    ensures |ReplaceThing(st, c, index, x).Below(d)| <= |st.Below(d)|
  {
    hide Forest, Linked, ListOk, ChainOk, ReplaceThing;
    ForestKeys(st);
    var now, was, gone := ReplaceThing(st, c, index, x).Below(d), st.Below(d), st.list[c][index];
    ListItem(st, c, gone);
    AboveListed(st, c, gone);
    forall t | t in now ensures (t in was && t != gone) || (t == x && (c == d || d in st.above[c])) {
      ReplacedAt(st, c, index, x, t);
    }
    if c == d || d in st.above[c] {
      NoMore(now, was - {gone} + {x});
    } else {
      NoMore(now, was);
    }
  }

  lemma AboveListed(st: State, c: Thing, t: Thing)
    requires Forest(st) && c in st.All() && t in st.list[c]
    ensures t in st.All() && st.above[t] == st.above[c] + {c}
  {
    ListItem(st, c, t);
    assert ChainOk(st, t);
  }
}
