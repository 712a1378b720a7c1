/** What every move keeps: the forest, the number of items, the size of stacks, the room in containers and depots. */
module MoveLaws {
  import opened Bytes
  import opened ItemForest
  import opened ItemMove
  import opened Sums

  // ---------------------------------------------------------------- the forest

  lemma ForestKeys(st: State)
    requires Forest(st)
    ensures SameKeys(st)
  {
  }

  lemma SetCountForest(st: State, x: Thing, n: nat)
    requires Forest(st) && x in st.All()
    ensures Forest(SetCount(st, x, n))
  {
    var st' := SetCount(st, x, n);
    forall t | t in st.All() ensures ParentOk(st', t) && ListOk(st', t) && ChainOk(st', t) {
      assert ParentOk(st, t) && ListOk(st, t) && ChainOk(st, t);
    }
  }

  lemma FreeForest(st: State, x: Thing)
    requires Forest(st) && x in st.All()
    ensures Forest(Free(st, x))
  {
    var st' := Free(st, x);
    forall t | t in st.All() ensures ParentOk(st', t) && ListOk(st', t) && ChainOk(st', t) {
      assert ParentOk(st, t) && ListOk(st, t) && ChainOk(st, t);
    }
  }

  lemma CreateForest(st: State, y: Thing, n: nat)
    requires Forest(st) && y !in st.All()
    ensures Forest(Create(st, y, n))
  {
    var st' := Create(st, y, n);
    forall t | t in st'.All() ensures ParentOk(st', t) && ListOk(st', t) && ChainOk(st', t) {
      if t != y {
        assert ParentOk(st, t) && ListOk(st, t) && ChainOk(st, t);
      }
    }
  }

  lemma RemoveForest(st: State, c: Thing, x: Thing, n: nat)
    requires Forest(st) && c in st.All() && x in st.All() && ListOk(st, c)
    ensures Forest(RemoveThing(st, c, x, n))
  {
    hide Forest, Linked, ChainOk, Unlink, SetCount;
    ForestKeys(st);
    if x in st.list[c] {
      if x.typ.stackable && n != st.count[x] {
        SetCountForest(st, x, Max(0, st.count[x] - n));
      } else {
        UnlinkForest(st, x);
      }
    }
  }

  /** What a plan to move promises about the things involved. */
  ghost predicate Sound(st: State, from: Thing, x: Thing, dest: Destination, m: nat, n: nat)
    requires SameKeys(st)
  {
    && KnownDestination(st, dest) && !dest.c.typ.kind.Plain?
    && from in st.All() && x in st.All() && x in st.list[from] && ListOk(st, from)
    && x != dest.c && x !in st.above[dest.c] && dest.item != x
    && (dest.c.typ.kind.Tile? || dest.index < dest.c.typ.capacity)
    && 1 <= m && (x.typ.stackable ==> m <= st.count[x])
    && n == Merged(st, dest, x, m)
  }

  lemma PlanSound(st: State, from: Thing, to: Thing, index: int, x: Thing, count: nat, noLimit: bool)
    requires Forest(st) && from in st.All() && to in st.All() && x in st.All() && !to.typ.kind.Plain?
    ensures var plan := MovePlan(st, from, to, index, x, count, noLimit);
            plan.Go? ==> Sound(st, from, x, plan.dest, plan.m, plan.n)
  {
    var dest := QueryDestination(st, to, index);
    DestinationKnown(st, to, index);
    assert ListOk(st, from) && ParentOk(st, x) && ChainOk(st, dest.c) && ParentOk(st, dest.c);
    DestinationIndex(st, to, index);
    if QueryAdd(st, dest.c, dest.index, x, count, noLimit) == RET_NOERROR && !dest.c.typ.kind.Tile? {
      assert x != dest.c && x !in st.above[dest.c];
    }
    hide QueryDestination, QueryAdd, ContainerQuery, QueryMaxCount, Merged, ChainOk, KnownDestination;
  }

  lemma DestinationIndex(st: State, to: Thing, index: int)
    requires SameKeys(st) && to in st.All()
    ensures var dest := QueryDestination(st, to, index);
            dest.c.typ.kind.Tile? || dest.index < dest.c.typ.capacity
  {
  }

  lemma TakenForest(st: State, from: Thing, x: Thing, dest: Destination, m: nat, n: nat)
    requires Forest(st) && Sound(st, from, x, dest, m, n)
    ensures Forest(Taken(st, from, x, dest, m, n))
  {
    hide Forest, Linked, ChainOk, ListOk, RemoveThing, SetCount, Merged;
    ForestKeys(st);
    RemoveForest(st, from, x, m);
    var st1 := RemoveThing(st, from, x, m);
    if x.typ.stackable && dest.item != null && dest.item.typ.id == x.typ.id {
      SetCountForest(st1, dest.item, st1.count[dest.item] + n);
    }
  }

  /** The chain above a thing only gets shorter when something is taken away. */
  lemma TakenAbove(st: State, from: Thing, x: Thing, dest: Destination, m: nat, n: nat, t: Thing)
    requires Forest(st) && Sound(st, from, x, dest, m, n) && t in st.All()
    ensures Taken(st, from, x, dest, m, n).above[t] <= st.above[t]
    ensures !x.typ.stackable ==> Taken(st, from, x, dest, m, n).parent[x] == null
  {
    hide Linked, ChainOk, Unlink, Merged;
    ListItem(st, from, x);
    UnlinkAt(st, x, t);
    UnlinkAt(st, x, x);
  }

  /** A move keeps the forest a forest. */
  lemma MovedForest(st: State, from: Thing, x: Thing, dest: Destination, m: nat, n: nat, y: Thing)
    requires Forest(st) && Sound(st, from, x, dest, m, n)
    requires x.typ.stackable ==> y !in st.All() && !y.typ.kind.Tile?
    ensures Forest(Moved(st, from, x, dest, m, n, y))
  {
    hide Forest, Linked, ChainOk, ListOk, ParentOk, Taken, Merged, IsRemoved, Free, Create, AddThing;
    ForestKeys(st);
    var st2 := Taken(st, from, x, dest, m, n);
    TakenForest(st, from, x, dest, m, n);
    TakenAbove(st, from, x, dest, m, n, dest.c);
    if x.typ.stackable {
      FreeForest(st2, x);
      if m > n {
        var st3 := if IsRemoved(st2, x) then Free(st2, x) else st2;
        CreateForest(st3, y, m - n);
        NewAttachable(st3, dest.c, y, m - n);
        AddForest(Create(st3, y, m - n), dest.c, dest.index, y);
      }
    } else {
      NotTile(st, from, x);
      AddForest(st2, dest.c, dest.index, x);
    }
  }

  lemma NewAttachable(st: State, c: Thing, y: Thing, n: nat)
    requires Forest(st) && c in st.All() && y !in st.All() && !c.typ.kind.Plain? && !y.typ.kind.Tile?
    ensures Attachable(Create(st, y, n), c, y)
  {
    assert ChainOk(st, c);
  }

  lemma NotTile(st: State, c: Thing, x: Thing)
    requires Forest(st) && c in st.All() && x in st.list[c]
    ensures !x.typ.kind.Tile?
  {
    ListItem(st, c, x);
    assert ParentOk(st, x);
  }

  lemma AddForest(st: State, c: Thing, index: int, x: Thing)
    requires Forest(st) && Attachable(st, c, x)
    ensures Forest(AddThing(st, c, index, x))
  {
    LinkForest(st, c, 0, x);
  }

  // ---------------------------------------------------------------- conservation

  /** The things of one item type that have not been handed over for deletion. */
  ghost function Live(st: State, id: nat): set<Thing> {
    set t | t in st.All() && t !in st.freed && t.typ.id == id
  }

  /** How many items of one type the world has. */
  ghost function Total(st: State, id: nat): nat
    requires SameKeys(st)
  {
    Sum(Live(st, id), st.count)
  }

  /** Only what has left its container is handed over for deletion. */
  ghost predicate NothingLost(st: State)
    requires SameKeys(st)
  {
    forall t :: t in st.freed ==> st.parent[t] == null
  }

  /** Stacks hold 1 to 100 items, and only simple items stack. */
  ghost predicate StackOk(t: Thing, count: nat) {
    1 <= count <= 100 && (t.typ.stackable ==> t.typ.kind.Plain?)
  }

  ghost predicate StacksOk(st: State)
    requires SameKeys(st)
  {
    forall t :: t in st.All() && t !in st.freed ==> StackOk(t, st.count[t])
  }

  lemma TotalSetCount(st: State, x: Thing, n: nat, id: nat)
    requires SameKeys(st) && x in st.All() && x !in st.freed
    ensures Total(SetCount(st, x, n), id) + (if x.typ.id == id then st.count[x] else 0)
            == Total(st, id) + (if x.typ.id == id then LowByte(n) else 0)
  {
    var s, st' := Live(st, id), SetCount(st, x, n);
    assert Live(st', id) == s;
    if x in s {
      SumSplit(s, st.count, x);
      SumSplit(s, st'.count, x);
      SumSame(s - {x}, st.count, st'.count);
    } else {
      SumSame(s, st.count, st'.count);
    }
  }

  lemma TotalFree(st: State, x: Thing, id: nat)
    requires SameKeys(st) && x in st.All() && x !in st.freed
    ensures Total(st, id) == Total(Free(st, x), id) + if x.typ.id == id then st.count[x] else 0
  {
    var s := Live(st, id);
    if x in s {
      assert Live(Free(st, x), id) == s - {x};
      SumSplit(s, st.count, x);
    } else {
      assert Live(Free(st, x), id) == s;
    }
  }

  lemma TotalCreate(st: State, y: Thing, n: nat, id: nat)
    requires SameKeys(st) && y !in st.All()
    ensures Total(Create(st, y, n), id) == Total(st, id) + if y.typ.id == id then LowByte(n) else 0
  {
    var s, st' := Live(st, id), Create(st, y, n);
    SumSame(s, st.count, st'.count);
    if y.typ.id == id {
      assert Live(st', id) == s + {y};
      SumSplit(s + {y}, st'.count, y);
      assert s + {y} - {y} == s;
    } else {
      assert Live(st', id) == s;
    }
  }

  lemma TotalSame(st: State, st': State, id: nat)
    requires SameKeys(st) && SameKeys(st')
    requires st'.All() == st.All() && st'.count == st.count && st'.freed == st.freed
    ensures Total(st', id) == Total(st, id)
  {
    assert Live(st', id) == Live(st, id);
  }

  /** What is in a list is alive. */
  lemma ListedAlive(st: State, c: Thing, t: Thing)
    requires Forest(st) && NothingLost(st) && c in st.All() && t in st.list[c]
    ensures t in st.All() && t !in st.freed
  {
    ListItem(st, c, t);
  }

  /** The item at the destination would hold more than eight bits can count. */
  ghost predicate Spills(st: State, dest: Destination, n: nat)
    requires SameKeys(st) && (dest.item != null ==> dest.item in st.All())
  {
    n != 0 && dest.item != null && st.count[dest.item] + n > 255
  }

  /** What is lost of one type if it does. */
  function Spilled(x: Thing, id: nat, spills: bool): nat {
    if x.typ.id == id && spills then 256 else 0
  }

  /** Only a stack that holds more than 100 already can be made to spill. */
  lemma SpillsOver(st: State, dest: Destination, x: Thing, m: nat)
    requires SameKeys(st) && (dest.item != null ==> dest.item in st.All())
    ensures Spills(st, dest, Merged(st, dest, x, m)) ==> st.count[dest.item] > 100
  {
    hide Room;
  }

  lemma TakenCount(st: State, from: Thing, x: Thing, dest: Destination, m: nat, n: nat)
    requires SameKeys(st) && Sound(st, from, x, dest, m, n) && x.typ.stackable
    ensures Taken(st, from, x, dest, m, n).count[x] == if m == st.count[x] then m else st.count[x] - m
  {
    hide KnownDestination, ListOk, Room, Unlink;
    DestKnown(st, dest);
  }

  /** Taking `m` away leaves the source with that many less, and the item at the destination with `n` more. */
  lemma TotalTaken(st: State, from: Thing, x: Thing, dest: Destination, m: nat, n: nat, id: nat)
    requires Forest(st) && NothingLost(st) && Sound(st, from, x, dest, m, n) && x.typ.stackable
    requires dest.item != null ==> dest.item in st.All()
    ensures var st2 := Taken(st, from, x, dest, m, n);
            Total(st2, id) + (if x.typ.id == id && m != st.count[x] then m else 0)
               + Spilled(x, id, Spills(st, dest, n))
            == Total(st, id) + if x.typ.id == id then n else 0
  {
    hide Forest, Linked, ChainOk, ListOk, Total, KnownDestination, Sound, Merged, RemoveThing, SetCount;
    ForestKeys(st);
    SoundKnown(st, from, x, dest, m, n);
    SoundMerged(st, from, x, dest, m, n);
    DestKnown(st, dest);
    MergesSame(st, dest, x, m);
    TotalRemoved(st, from, x, m, id);
    var st1 := RemoveThing(st, from, x, m);
    if dest.item != null {
      ListedAlive(st, dest.c, dest.item);
      RemovedCount(st, from, x, m, dest.item);
      if dest.item.typ.id == x.typ.id {
        TotalSetCount(st1, dest.item, st1.count[dest.item] + n, id);
      }
    }
  }

  lemma TotalRemoved(st: State, from: Thing, x: Thing, m: nat, id: nat)
    requires Forest(st) && NothingLost(st) && from in st.All() && x in st.list[from] && x in st.All() && ListOk(st, from)
    requires x.typ.stackable && m <= st.count[x]
    ensures Total(RemoveThing(st, from, x, m), id) + (if x.typ.id == id && m != st.count[x] then m else 0)
            == Total(st, id)
  {
    hide Forest, Linked, ChainOk, ListOk, Total, Unlink, SetCount;
    ForestKeys(st);
    ListedAlive(st, from, x);
    ListItem(st, from, x);
    if m != st.count[x] {
      TotalSetCount(st, x, st.count[x] - m, id);
    } else {
      TotalSame(st, RemoveThing(st, from, x, m), id);
    }
  }

  lemma RemovedCount(st: State, from: Thing, x: Thing, m: nat, t: Thing)
    requires SameKeys(st) && from in st.All() && x in st.All() && ListOk(st, from) && t in st.All() && t != x
    ensures RemoveThing(st, from, x, m).count[t] == st.count[t]
  {
    hide ListOk, Unlink;
  }

  lemma MergesSame(st: State, dest: Destination, x: Thing, m: nat)
    requires SameKeys(st) && (dest.item != null ==> dest.item in st.All())
    ensures Merged(st, dest, x, m) != 0 ==> dest.item != null && dest.item.typ.id == x.typ.id && x.typ.stackable
  {
    hide Room;
  }

  lemma DestKnown(st: State, dest: Destination)
    requires SameKeys(st) && KnownDestination(st, dest)
    ensures dest.c in st.All() && (dest.item != null ==> dest.item in st.All() && dest.item in st.list[dest.c])
  {
  }

  /** Once a stack has been taken from, it is removed if the whole of it was taken or its container is removed. */
  lemma TakenRemoved(st: State, from: Thing, x: Thing, dest: Destination, m: nat, n: nat)
    requires Forest(st) && Sound(st, from, x, dest, m, n) && x.typ.stackable
    ensures IsRemoved(Taken(st, from, x, dest, m, n), x) <==> m == st.count[x] || IsRemoved(st, from)
  {
    hide Forest, Linked, ListOk, Sound, Taken, KnownDestination;
    ForestKeys(st);
    SoundKnown(st, from, x, dest, m, n);
    ListItem(st, from, x);
    ThingOk(st, x);
    TakenAt(st, from, x, dest, m, n, x);
  }

  /** The plan never asks for a piece of a stack from a container that hangs under no tile. */
  ghost predicate CleanSource(st: State, from: Thing, x: Thing, m: nat)
    requires SameKeys(st) && from in st.All() && x in st.All()
  {
    !IsRemoved(st, from) || !x.typ.stackable || m == st.count[x]
  }

  /** What is lost of one type when the rest of a stack is handed over for deletion. */
  ghost function LostRest(st: State, from: Thing, x: Thing, m: nat, id: nat): nat
    requires SameKeys(st) && from in st.All() && x in st.All()
  {
    if x.typ.id == id && !CleanSource(st, from, x, m) && m <= st.count[x] then st.count[x] - m else 0
  }

  /** Whatever a move does, the number of items of every type stays the same, but for what spills and for the rest of a
      stack that is handed over for deletion. */
  lemma MoveLedger(st: State, from: Thing, x: Thing, dest: Destination, m: nat, n: nat, y: Thing, id: nat)
    requires Forest(st) && NothingLost(st) && Sound(st, from, x, dest, m, n)
    requires x.typ.stackable ==> y !in st.All() && y.typ == x.typ
    ensures dest.item != null ==> dest.item in st.All()
    ensures from in st.All() && x in st.All()
    ensures Total(Moved(st, from, x, dest, m, n, y), id) + Spilled(x, id, Spills(st, dest, n)) + LostRest(st, from, x, m, id)
            == Total(st, id)
  {
    hide Forest, Linked, ChainOk, ListOk, Total, KnownDestination, Taken, AddThing, IsRemoved, Merged, Arrived, Sound;
    ForestKeys(st);
    SoundKnown(st, from, x, dest, m, n);
    DestKnown(st, dest);
    SoundMerged(st, from, x, dest, m, n);
    if x.typ.stackable {
      ListedAlive(st, from, x);
      TotalTaken(st, from, x, dest, m, n, id);
      TakenCount(st, from, x, dest, m, n);
      TakenRemoved(st, from, x, dest, m, n);
      StackArrives(Taken(st, from, x, dest, m, n), x, dest, m, n, y, id);
    } else {
      TakenSame(st, from, x, dest, m, n);
      TotalSame(st, Moved(st, from, x, dest, m, n, y), id);
    }
  }

  /** A move keeps the number of items of every type if and only if nothing spills and no piece is taken from a container
      that hangs under no tile; and nothing spills unless the stack at the destination holds more than 100. */
  lemma MoveConservesIff(st: State, from: Thing, x: Thing, dest: Destination, m: nat, n: nat, y: Thing)
    requires Forest(st) && NothingLost(st) && Sound(st, from, x, dest, m, n)
    requires x.typ.stackable ==> y !in st.All() && y.typ == x.typ
    ensures dest.item != null ==> dest.item in st.All()
    ensures from in st.All() && x in st.All()
    ensures (forall id :: Total(Moved(st, from, x, dest, m, n, y), id) == Total(st, id))
            <==> !Spills(st, dest, n) && CleanSource(st, from, x, m)
    ensures Spills(st, dest, n) ==> st.count[dest.item] > 100
  {
    hide Forest, Linked, ChainOk, ListOk, Total, KnownDestination, Moved, IsRemoved, Merged;
    ForestKeys(st);
    SoundKnown(st, from, x, dest, m, n);
    DestKnown(st, dest);
    SoundMerged(st, from, x, dest, m, n);
    SpillsOver(st, dest, x, m);
    MoveLedger(st, from, x, dest, m, n, y, x.typ.id);
    forall id | !Spills(st, dest, n) && CleanSource(st, from, x, m)
      ensures Total(Moved(st, from, x, dest, m, n, y), id) == Total(st, id)
    {
      MoveLedger(st, from, x, dest, m, n, y, id);
    }
  }

  lemma SoundMerged(st: State, from: Thing, x: Thing, dest: Destination, m: nat, n: nat)
    requires SameKeys(st) && Sound(st, from, x, dest, m, n)
    ensures dest.item != null ==> dest.item in st.All()
    ensures n == Merged(st, dest, x, m) && (!x.typ.stackable ==> n == 0) && dest.item != x
    ensures x.typ.stackable ==> x in st.All() && m <= st.count[x]
  {
    hide Room;
  }

  /** So while stacks hold 100 at most, the number of items of every type stays the same if the source is clean. */
  lemma MoveConserves(st: State, from: Thing, x: Thing, dest: Destination, m: nat, n: nat, y: Thing, id: nat)
    requires Forest(st) && NothingLost(st) && StacksOk(st) && Sound(st, from, x, dest, m, n)
    requires x.typ.stackable ==> y !in st.All() && y.typ == x.typ
    ensures from in st.All() && x in st.All()
    ensures CleanSource(st, from, x, m) ==> Total(Moved(st, from, x, dest, m, n, y), id) == Total(st, id)
  {
    hide Forest, Linked, ChainOk, ListOk, Total, KnownDestination, Moved, IsRemoved, Sound;
    ForestKeys(st);
    SoundKnown(st, from, x, dest, m, n);
    DestKnown(st, dest);
    MoveConservesIff(st, from, x, dest, m, n, y);
    if dest.item != null {
      ListedAlive(st, dest.c, dest.item);
      assert StackOk(dest.item, st.count[dest.item]);
    }
  }

  lemma StackArrives(st: State, x: Thing, dest: Destination, m: nat, n: nat, y: Thing, id: nat)
    requires SameKeys(st) && x in st.All() && x !in st.freed && dest.c in st.All() && n <= m
    requires y !in st.All() && y.typ == x.typ
    ensures Total(Arrived(st, x, dest, m, n, y), id) + (if x.typ.id == id && IsRemoved(st, x) then st.count[x] else 0)
            == Total(st, id) + if x.typ.id == id then LowByte(m - n) else 0
  {
    hide Total, AddThing, IsRemoved;
    TotalFree(st, x, id);
    if m > n {
      var st3 := if IsRemoved(st, x) then Free(st, x) else st;
      TotalCreate(st3, y, m - n, id);
      TotalSame(Create(st3, y, m - n), Arrived(st, x, dest, m, n, y), id);
    }
  }

  lemma SoundKnown(st: State, from: Thing, x: Thing, dest: Destination, m: nat, n: nat)
    requires SameKeys(st) && Sound(st, from, x, dest, m, n)
    ensures from in st.All() && ListOk(st, from) && x in st.All() && x in st.list[from] && dest.c in st.All() && n <= m
    ensures KnownDestination(st, dest)
  {
  }

  lemma TakenSame(st: State, from: Thing, x: Thing, dest: Destination, m: nat, n: nat)
    requires SameKeys(st) && Sound(st, from, x, dest, m, n) && !x.typ.stackable
    ensures Taken(st, from, x, dest, m, n).count == st.count
  {
  }

  // ---------------------------------------------------------------- stacks

  lemma TakenStacks(st: State, from: Thing, x: Thing, dest: Destination, m: nat, n: nat, t: Thing)
    requires Forest(st) && NothingLost(st) && StacksOk(st) && Sound(st, from, x, dest, m, n)
    requires t in st.All() && t !in st.freed
    ensures StackOk(t, Taken(st, from, x, dest, m, n).count[t])
    ensures NothingLost(Taken(st, from, x, dest, m, n))
  {
    hide Forest, Linked, ListOk, ChainOk, Unlink, Room;
    ForestKeys(st);
    ListedAlive(st, from, x);
    DestKnown(st, dest);
    if dest.item != null {
      ListedAlive(st, dest.c, dest.item);
    }
    assert StackOk(t, st.count[t]) && StackOk(x, st.count[x]);
    forall f | f in st.freed ensures Taken(st, from, x, dest, m, n).parent[f] == null {
      ListItem(st, from, x);
      UnlinkAt(st, x, f);
    }
  }

  /** A move leaves every stack between 1 and 100. */
  lemma MoveStacks(st: State, from: Thing, x: Thing, dest: Destination, m: nat, n: nat, y: Thing)
    requires Forest(st) && NothingLost(st) && StacksOk(st) && Sound(st, from, x, dest, m, n)
    requires x.typ.stackable ==> y !in st.All() && y.typ == x.typ
    ensures StacksOk(Moved(st, from, x, dest, m, n, y))
  {
    hide Forest, Linked, ListOk, ChainOk, Moved, Taken, Merged, KnownDestination, Room;
    ForestKeys(st);
    SoundKnown(st, from, x, dest, m, n);
    ListedAlive(st, from, x);
    var end := Moved(st, from, x, dest, m, n, y);
    forall t | t in end.All() && t !in end.freed ensures StackOk(t, end.count[t]) {
      MovedCount(st, from, x, dest, m, n, y, t);
      if t in st.All() {
        TakenStacks(st, from, x, dest, m, n, t);
      } else {
        assert StackOk(x, st.count[x]);
      }
    }
  }

  lemma MovedCount(st: State, from: Thing, x: Thing, dest: Destination, m: nat, n: nat, y: Thing, t: Thing)
    requires SameKeys(st) && from in st.All() && x in st.All() && ListOk(st, from) && KnownDestination(st, dest)
    requires n <= m && dest.c in st.All() && (x.typ.stackable ==> y !in st.All())
    requires t in Moved(st, from, x, dest, m, n, y).All() && t !in Moved(st, from, x, dest, m, n, y).freed
    ensures var end := Moved(st, from, x, dest, m, n, y);
            if t in st.All() then t !in st.freed && end.count[t] == Taken(st, from, x, dest, m, n).count[t]
            else t == y && x.typ.stackable && n < m && end.count[t] == LowByte(m - n)
  {
    hide Taken, AddThing, IsRemoved, KnownDestination, ListOk;
  }

  /** An item still in a container is handed over for deletion in one case only: a piece of it was taken from a
      container that hangs under no tile. */
  lemma NothingLostIff(st: State, from: Thing, x: Thing, dest: Destination, m: nat, n: nat, y: Thing)
    requires Forest(st) && NothingLost(st) && Sound(st, from, x, dest, m, n)
    requires x.typ.stackable ==> y !in st.All() && y.typ == x.typ
    ensures NothingLost(Moved(st, from, x, dest, m, n, y)) <==> CleanSource(st, from, x, m)
  {
    hide Forest, Linked, ListOk, ChainOk, Sound, Taken, Moved, Arrived, IsRemoved, KnownDestination;
    ForestKeys(st);
    SoundKnown(st, from, x, dest, m, n);
    ListedAlive(st, from, x);
    ListItem(st, from, x);
    MovedFreed(st, from, x, dest, m, n, y);
    MovedParents(st, from, x, dest, m, n, y, x);
    if x.typ.stackable {
      TakenRemoved(st, from, x, dest, m, n);
    }
    forall f | f in st.freed ensures Moved(st, from, x, dest, m, n, y).parent[f] == null {
      MovedParents(st, from, x, dest, m, n, y, f);
    }
  }

  /** What is handed over for deletion, and what is new. */
  lemma MovedFreed(st: State, from: Thing, x: Thing, dest: Destination, m: nat, n: nat, y: Thing)
    requires Forest(st) && Sound(st, from, x, dest, m, n)
    ensures var st2, end := Taken(st, from, x, dest, m, n), Moved(st, from, x, dest, m, n, y);
            && end.freed == (if x.typ.stackable && IsRemoved(st2, x) then st.freed + {x} else st.freed)
            && end.All() == if x.typ.stackable && m > n then st.All() + {y} else st.All()
  {
    hide Forest, Linked, ListOk, ChainOk, Sound, Taken, AddThing, Create, IsRemoved, KnownDestination;
    ForestKeys(st);
    SoundKnown(st, from, x, dest, m, n);
  }

  /** The item leaves its container altogether. */
  ghost predicate Leaves(st: State, x: Thing, m: nat)
    requires x in st.count.Keys
  {
    !x.typ.stackable || m == st.count[x]
  }

  /** What taking does to the record of one thing. */
  lemma TakenAt(st: State, from: Thing, x: Thing, dest: Destination, m: nat, n: nat, t: Thing)
    requires Forest(st) && Sound(st, from, x, dest, m, n) && t in st.All()
    ensures var st2, gone := Taken(st, from, x, dest, m, n), Leaves(st, x, m);
            && st2.parent[t] == (if gone && t == x then null else st.parent[t])
            && st2.list[t] == (if gone && t == from then Without(st.list[t], x) else st.list[t])
            && st2.above[t] == if gone && Moves(st, t, x) then st.above[t] - st.above[x] else st.above[t]
  {
    hide Forest, Linked, ListOk, ChainOk, Merged, Unlink;
    ForestKeys(st);
    DestKnown(st, dest);
    ListItem(st, from, x);
    UnlinkAt(st, x, t);
  }

  /** Something new is put into the destination. */
  ghost predicate Adds(x: Thing, m: nat, n: nat) {
    !x.typ.stackable || m > n
  }

  /** What the arrival does to the record of one thing that was there before. */
  lemma MovedAt(st: State, from: Thing, x: Thing, dest: Destination, m: nat, n: nat, y: Thing, t: Thing)
    requires Forest(st) && Sound(st, from, x, dest, m, n) && t in st.All()
    requires x.typ.stackable ==> y !in st.All()
    ensures var st2, end := Taken(st, from, x, dest, m, n), Moved(st, from, x, dest, m, n, y);
            var adds, z := Adds(x, m, n), if x.typ.stackable then y else x;
            && t in end.All() && dest.c in st2.All()
            && end.parent[t] == (if adds && t == z then dest.c else st2.parent[t])
            && end.list[t] == (if adds && t == dest.c then Insert(st2.list[t], 0, z) else st2.list[t])
            && end.above[t] == if adds && z in st2.All() && Moves(st2, t, z)
                               then st2.above[t] + st2.above[dest.c] + {dest.c} else st2.above[t]
  {
    hide Forest, Linked, ListOk, ChainOk, Taken, Moved, Arrived, Insert, KnownDestination, Sound;
    ForestKeys(st);
    SoundKnown(st, from, x, dest, m, n);
    var st2 := Taken(st, from, x, dest, m, n);
    SoundIndex(st, from, x, dest, m, n);
    if !x.typ.stackable {
      WholeArrives(st, from, x, dest, m, n, y, t);
    } else {
      NotAbove(st, from, x, dest, m, n, y, t);
      StackMoved(st, from, x, dest, m, n, y);
      StackArrivesAt(st2, x, dest, m, n, y, t);
    }
  }

  lemma SoundIndex(st: State, from: Thing, x: Thing, dest: Destination, m: nat, n: nat)
    requires SameKeys(st) && Sound(st, from, x, dest, m, n)
    ensures dest.c.typ.kind.Tile? || dest.index < dest.c.typ.capacity
  {
  }

  lemma StackMoved(st: State, from: Thing, x: Thing, dest: Destination, m: nat, n: nat, y: Thing)
    requires SameKeys(st) && from in st.All() && x in st.All() && ListOk(st, from) && KnownDestination(st, dest)
    requires n <= m && x.typ.stackable
    ensures Moved(st, from, x, dest, m, n, y) == Arrived(Taken(st, from, x, dest, m, n), x, dest, m, n, y)
  {
  }

  lemma WholeArrives(st: State, from: Thing, x: Thing, dest: Destination, m: nat, n: nat, y: Thing, t: Thing)
    requires SameKeys(st) && from in st.All() && x in st.All() && ListOk(st, from) && KnownDestination(st, dest)
    requires n <= m && !x.typ.stackable && t in st.All() && dest.c in st.All()
    requires dest.c.typ.kind.Tile? || dest.index < dest.c.typ.capacity
    ensures var st2, end := Taken(st, from, x, dest, m, n), Moved(st, from, x, dest, m, n, y);
            && t in end.All()
            && end.parent[t] == (if t == x then dest.c else st2.parent[t])
            && end.list[t] == (if t == dest.c then Insert(st2.list[t], 0, x) else st2.list[t])
            && end.above[t] == if Moves(st2, t, x) then st2.above[t] + st2.above[dest.c] + {dest.c} else st2.above[t]
  {
    hide Taken, KnownDestination, ListOk, Insert;
  }

  /** What a new item in a container changes: the container's list. */
  lemma NewAt(st: State, c: Thing, index: int, y: Thing, k: nat, t: Thing)
    requires SameKeys(st) && c in st.All() && y !in st.All() && t in st.All() && y !in st.above[t]
    requires c.typ.kind.Tile? || index < c.typ.capacity
    ensures var end := AddThing(Create(st, y, k), c, index, y);
            && end.All() == st.All() + {y} && t in end.All() && y in end.All() && end.freed == st.freed
            && end.parent[t] == st.parent[t] && end.above[t] == st.above[t] && end.count[t] == st.count[t]
            && end.list[t] == (if t == c then Insert(st.list[t], 0, y) else st.list[t])
            && end.parent[y] == c && end.list[y] == [] && end.above[y] == st.above[c] + {c} && end.count[y] == LowByte(k)
  {
    hide Insert, Link, Create;
    var st' := Create(st, y, k);
    CreateAt(st, y, k, t);
    CreateAt(st, y, k, c);
    LinkAt(st', c, 0, y, t);
    LinkAt(st', c, 0, y, y);
  }

  lemma CreateAt(st: State, y: Thing, n: nat, t: Thing)
    requires SameKeys(st) && y !in st.All() && t in st.All()
    ensures var st' := Create(st, y, n);
            && st'.parent[t] == st.parent[t] && st'.list[t] == st.list[t] && st'.above[t] == st.above[t]
            && st'.count[t] == st.count[t]
            && st'.parent[y] == null && st'.list[y] == [] && st'.above[y] == {} && st'.count[y] == LowByte(n)
  {
  }

  lemma StackArrivesAt(st: State, x: Thing, dest: Destination, m: nat, n: nat, y: Thing, t: Thing)
    requires SameKeys(st) && x in st.All() && dest.c in st.All() && n <= m
    requires y !in st.All() && t in st.All() && y !in st.above[t]
    requires dest.c.typ.kind.Tile? || dest.index < dest.c.typ.capacity
    ensures var end := Arrived(st, x, dest, m, n, y);
            && t in end.All()
            && end.parent[t] == st.parent[t] && end.above[t] == st.above[t]
            && end.list[t] == (if m > n && t == dest.c then Insert(st.list[t], 0, y) else st.list[t])
            && (m > n ==> y in end.All() && end.parent[y] == dest.c && end.list[y] == []
                          && end.above[y] == st.above[dest.c] + {dest.c})
  {
    hide IsRemoved, Insert, AddThing, Create;
    if m > n {
      NewAt(if IsRemoved(st, x) then Free(st, x) else st, dest.c, dest.index, y, m - n, t);
    }
  }

  lemma NotAbove(st: State, from: Thing, x: Thing, dest: Destination, m: nat, n: nat, y: Thing, t: Thing)
    requires Forest(st) && Sound(st, from, x, dest, m, n) && t in st.All() && y !in st.All()
    ensures y !in Taken(st, from, x, dest, m, n).above[t]
  {
    hide Linked, ListOk, Taken, Merged;
    TakenAbove(st, from, x, dest, m, n, t);
    assert ChainOk(st, t);
  }

  lemma MovedParents(st: State, from: Thing, x: Thing, dest: Destination, m: nat, n: nat, y: Thing, t: Thing)
    requires Forest(st) && Sound(st, from, x, dest, m, n) && t in st.All()
    requires x.typ.stackable ==> y !in st.All()
    ensures Moved(st, from, x, dest, m, n, y).parent[t]
            == if t != x || (x.typ.stackable && m != st.count[x]) then st.parent[t]
               else if x.typ.stackable then null else dest.c
  {
    hide Forest, Linked, ListOk, ChainOk, Merged, Taken, Moved, KnownDestination;
    ForestKeys(st);
    SoundKnown(st, from, x, dest, m, n);
    TakenAt(st, from, x, dest, m, n, t);
    MovedAt(st, from, x, dest, m, n, y, t);
  }

  // ---------------------------------------------------------------- room

  ghost predicate RoomFor(c: Thing, n: nat) {
    c.typ.kind.Box? || c.typ.kind.Depot? ==> n <= c.typ.capacity
  }

  /** No container holds more than its capacity. */
  ghost predicate RoomOk(st: State)
    requires SameKeys(st)
  {
    forall c :: c in st.All() ==> RoomFor(c, |st.list[c]|)
  }

  /** Without the flag that lifts limits, something new goes only where a slot is free. */
  lemma PlanHasRoom(st: State, from: Thing, to: Thing, index: int, x: Thing, count: nat)
    requires Forest(st) && from in st.All() && to in st.All() && x in st.All() && !to.typ.kind.Plain?
    ensures var plan := MovePlan(st, from, to, index, x, count, false);
            plan.Go? ==>
              && plan.dest.c in st.All()
              && (|| plan.dest.c.typ.kind.Tile? || !Adds(x, plan.m, plan.n)
                  || |st.list[plan.dest.c]| < plan.dest.c.typ.capacity)
  {
    hide Forest, Linked, ListOk, ChainOk, ContainerQuery, QueryAdd, QueryDestination;
    ForestKeys(st);
    var dest := QueryDestination(st, to, index);
    DestinationKnown(st, to, index);
    DestKnown(st, dest);
    DestinationItem(st, to, index);
  }

  lemma DestinationItem(st: State, to: Thing, index: int)
    requires SameKeys(st) && to in st.All() && QueryDestination(st, to, index).c in st.All()
    ensures var dest := QueryDestination(st, to, index);
            !dest.c.typ.kind.Tile? ==> dest.item == GetThing(st.list[dest.c], dest.index)
  {
  }

  lemma MoveRoom(st: State, from: Thing, x: Thing, dest: Destination, m: nat, n: nat, y: Thing)
    requires Forest(st) && RoomOk(st) && Sound(st, from, x, dest, m, n)
    requires x.typ.stackable ==> y !in st.All() && y.typ == x.typ
    requires dest.c.typ.kind.Tile? || !Adds(x, m, n) || |st.list[dest.c]| < dest.c.typ.capacity
    ensures RoomOk(Moved(st, from, x, dest, m, n, y))
  {
    hide Forest, Linked, ListOk, ChainOk, Merged, Taken, Moved, KnownDestination;
    ForestKeys(st);
    SoundKnown(st, from, x, dest, m, n);
    var end := Moved(st, from, x, dest, m, n, y);
    forall c | c in end.All() ensures RoomFor(c, |end.list[c]|) {
      if c in st.All() {
        TakenAt(st, from, x, dest, m, n, c);
        MovedAt(st, from, x, dest, m, n, y, c);
        assert RoomFor(c, |st.list[c]|);
        if c == from {
          WithoutShorter(st, c, x);
        }
      } else {
        NewIsEmpty(st, from, x, dest, m, n, y, c);
      }
    }
  }

  lemma WithoutShorter(st: State, c: Thing, x: Thing)
    requires SameKeys(st) && c in st.All() && ListOk(st, c)
    ensures |Without(st.list[c], x)| <= |st.list[c]|
  {
    WithoutIs(st.list[c], x);
  }

  lemma NewIsEmpty(st: State, from: Thing, x: Thing, dest: Destination, m: nat, n: nat, y: Thing, c: Thing)
    requires Forest(st) && Sound(st, from, x, dest, m, n)
    requires c in Moved(st, from, x, dest, m, n, y).All() && c !in st.All()
    ensures c == y && x.typ.stackable && m > n
    ensures Moved(st, from, x, dest, m, n, y).list[c] == []
  {
    hide Forest, Linked, ListOk, ChainOk, Sound, Taken, Moved, Arrived, IsRemoved, KnownDestination;
    ForestKeys(st);
    SoundKnown(st, from, x, dest, m, n);
    MovedFreed(st, from, x, dest, m, n, y);
    SoundIndex(st, from, x, dest, m, n);
    NotAbove(st, from, x, dest, m, n, y, x);
    StackMoved(st, from, x, dest, m, n, y);
    StackArrivesAt(Taken(st, from, x, dest, m, n), x, dest, m, n, y, x);
  }
}
