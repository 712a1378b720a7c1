/** The limit of a depot: no move makes it hold more than it may, however deep the item goes. */
module DepotLaw {
  import opened Bytes
  import opened ItemForest
  import opened ItemMove
  import opened MoveLaws

  /** A depot cannot be carried away; it stands on a tile, or nowhere until it is opened. */
  ghost predicate Stands(st: State, d: Thing)
    requires SameKeys(st) && d in st.All()
  {
    d.typ.kind.Depot? && !d.typ.moveable && (st.parent[d] != null ==> st.parent[d].typ.kind.Tile?)
  }

  /** On a tile, a depot is within its limit. */
  ghost predicate DepotOk(st: State, d: Thing)
    requires SameKeys(st) && d in st.All()
  {
    d.typ.kind.Depot? ==> Stands(st, d) && (st.parent[d] != null ==> |st.Below(d)| <= d.depotLimit)
  }

  ghost predicate DepotsOk(st: State)
    requires SameKeys(st)
  {
    forall d :: d in st.All() ==> DepotOk(st, d)
  }

  /** Being the depot or somewhere inside it. */
  ghost predicate Within(st: State, t: Thing, d: Thing)
    requires t in st.above.Keys
  {
    t == d || d in st.above[t]
  }

  lemma DepotChain(st: State, d: Thing)
    requires Forest(st) && d in st.All() && Stands(st, d)
    ensures if st.parent[d] == null then st.above[d] == {}
            else st.parent[d] in st.All() && st.parent[st.parent[d]] == null && st.above[d] == {st.parent[d]}
  {
    hide Linked;
    ThingOk(st, d);
    if st.parent[d] != null {
      ThingOk(st, st.parent[d]);
    }
  }

  /** The outermost container around a thing is the depot exactly when the thing is the depot or inside it; but if the
      depot stands nowhere, only when the thing is the depot or a simple item in its list. */
  lemma {:induction false} TopIsDepot(st: State, t: Thing, d: Thing)
    requires Forest(st) && t in st.All() && d in st.All() && Stands(st, d)
    ensures TopOf(st, t) == d
            <==> Within(st, t, d) && (st.parent[d] != null || t == d || (t.typ.kind.Plain? && st.parent[t] == d))
    decreases |st.above[t]|
  {
    hide Linked;
    ThingOk(st, t);
    DepotChain(st, d);
    var p := st.parent[t];
    if p != null {
      ThingOk(st, p);
      if st.parent[p] != null {
        SmallerAbove(st, t);
        TopIsDepot(st, p, d);
      }
    }
  }

  /** Whatever is added inside the depot, at any depth, the depot is asked if it stands on a tile; if not, it is asked
      for what is added to itself. */
  lemma DepotIsAsked(st: State, c: Thing, index: int, x: Thing, count: nat, d: Thing)
    requires Forest(st) && c in st.All() && x in st.All() && d in st.All() && Stands(st, d)
    requires Within(st, c, d) && (st.parent[d] != null || c == d)
    requires QueryAdd(st, c, index, x, count, false) == RET_NOERROR
    ensures DepotQuery(st, d, x, count, false) == RET_NOERROR
  {
    hide Forest, Linked, ListOk, TopOf, DepotQuery;
    ThingOk(st, c);
    DepotChain(st, d);
    TopIsDepot(st, c, d);
  }

  /** For what is added to a container inside a depot that stands nowhere, the depot is not asked, whatever its limit. */
  lemma NestedNotAsked(st: State, c: Thing, index: int, x: Thing, count: nat, noLimit: bool, d: Thing)
    requires Forest(st) && DepotsOk(st) && c in st.All() && x in st.All() && d in st.All()
    requires d.typ.kind.Depot? && st.parent[d] == null && d in st.above[c] && c.typ.kind.Box?
    ensures QueryAdd(st, c, index, x, count, noLimit) == RET_NOERROR
            <==> && x.typ.pickupable && x != c && x !in st.above[c]
                 && (index != INDEX_WHEREEVER || noLimit || |st.list[c]| < c.typ.capacity)
  {
    hide Linked, ListOk, ChainOk, TopOf, DepotsOk;
    TopNested(st, c, d);
  }

  /** The outermost container is then the one in the list of the depot. */
  lemma {:induction false} TopNested(st: State, c: Thing, d: Thing)
    requires Forest(st) && DepotsOk(st) && c in st.All() && d in st.All()
    requires d.typ.kind.Depot? && st.parent[d] == null && d in st.above[c] && !c.typ.kind.Plain?
    ensures TopOf(st, c) != null && !TopOf(st, c).typ.kind.Depot?
    decreases |st.above[c]|
  {
    hide Linked;
    ThingOk(st, c);
    var p := st.parent[c];
    ThingOk(st, p);
    if st.parent[p] == null {
      assert DepotOk(st, c);
    } else {
      SmallerAbove(st, c);
      TopNested(st, p, d);
    }
  }

  lemma PlainHoldsNothing(st: State, x: Thing, t: Thing)
    requires Forest(st) && x in st.All() && x.typ.kind.Plain? && t in st.All()
    ensures x !in st.above[t]
    decreases |st.above[t]|
  {
    hide Linked;
    ThingOk(st, t);
    var p := st.parent[t];
    if p != null {
      ThingOk(st, p);
      SmallerAbove(st, t);
      PlainHoldsNothing(st, x, p);
    }
  }

  /** A whole item arrives: the depot then holds what it held, and the item with its contents if it went inside. */
  lemma WholeInDepot(st: State, from: Thing, x: Thing, dest: Destination, m: nat, n: nat, y: Thing, d: Thing, t: Thing)
    requires Forest(st) && Sound(st, from, x, dest, m, n) && !x.typ.stackable && d in st.All()
    requires t in Moved(st, from, x, dest, m, n, y).Below(d)
    ensures t in st.Below(d) || (Moves(st, t, x) && dest.c in st.All() && Within(st, dest.c, d))
  {
    hide Forest, Linked, ListOk, ChainOk, Taken, Moved, KnownDestination, Sound, Insert;
    ForestKeys(st);
    SoundKnown(st, from, x, dest, m, n);
    WholeKeys(st, from, x, dest, m, n, y);
    MovedAt(st, from, x, dest, m, n, y, t);
    TakenAt(st, from, x, dest, m, n, t);
    TakenAbove(st, from, x, dest, m, n, dest.c);
  }

  lemma WholeKeys(st: State, from: Thing, x: Thing, dest: Destination, m: nat, n: nat, y: Thing)
    requires Forest(st) && Sound(st, from, x, dest, m, n) && !x.typ.stackable
    ensures Moved(st, from, x, dest, m, n, y).All() == st.All()
  {
    hide Forest, Linked, ListOk, ChainOk, Taken, Link, KnownDestination;
    ForestKeys(st);
  }

  /** A stack arrives: the depot then holds what it held, but for what left as a whole, and the new stack if it went
      inside. */
  lemma StackInDepot(st: State, from: Thing, x: Thing, dest: Destination, m: nat, n: nat, y: Thing, d: Thing, t: Thing)
    requires Forest(st) && Sound(st, from, x, dest, m, n) && x.typ.stackable && d in st.All() && y !in st.All()
    requires t in Moved(st, from, x, dest, m, n, y).Below(d)
    ensures || (t in st.Below(d) && !(Leaves(st, x, m) && t == x))
            || (t == y && n < m && dest.c in st.All() && Within(st, dest.c, d))
  {
    hide Forest, Linked, ListOk, ChainOk, Taken, Moved, KnownDestination, Sound, Insert;
    ForestKeys(st);
    SoundKnown(st, from, x, dest, m, n);
    if t in st.All() {
      MovedAt(st, from, x, dest, m, n, y, t);
      TakenAt(st, from, x, dest, m, n, t);
    } else {
      NewIsEmpty(st, from, x, dest, m, n, y, t);
      NewAbove(st, from, x, dest, m, n, y);
    }
  }

  lemma NewAbove(st: State, from: Thing, x: Thing, dest: Destination, m: nat, n: nat, y: Thing)
    requires Forest(st) && Sound(st, from, x, dest, m, n) && x.typ.stackable && y !in st.All() && n < m
    ensures var end := Moved(st, from, x, dest, m, n, y);
            dest.c in st.All() && y in end.All() && end.above[y] <= st.above[dest.c] + {dest.c}
  {
    hide Forest, Linked, ListOk, ChainOk, Taken, Moved, Arrived, KnownDestination, Sound, Insert;
    ForestKeys(st);
    SoundKnown(st, from, x, dest, m, n);
    SoundIndex(st, from, x, dest, m, n);
    NotAbove(st, from, x, dest, m, n, y, dest.c);
    StackMoved(st, from, x, dest, m, n, y);
    StackArrivesAt(Taken(st, from, x, dest, m, n), x, dest, m, n, y, dest.c);
    TakenAbove(st, from, x, dest, m, n, dest.c);
  }

  /** A stack that is split is asked about as one more item, unless it is taken whole. */
  lemma SplitIsAsked(st: State, from: Thing, to: Thing, index: int, x: Thing, count: nat)
    requires Forest(st) && from in st.All() && to in st.All() && x in st.All() && !to.typ.kind.Plain?
    requires NothingLost(st) && StacksOk(st) && x.typ.stackable && st.count[x] <= 100
    ensures var plan := MovePlan(st, from, to, index, x, count, false);
            plan.Go? ==>
              && plan.dest.c in st.All()
              && (|| plan.dest.c.typ.kind.Tile? || plan.m == plan.n || Leaves(st, x, plan.m)
                  || (plan.m == count && count != st.count[x]))
  {
    hide Forest, Linked, ListOk, ChainOk, ContainerQuery, QueryAdd, QueryDestination, Room;
    ForestKeys(st);
    PlanHasRoom(st, from, to, index, x, count);
    var dest := QueryDestination(st, to, index);
    DestinationKnown(st, to, index);
    DestKnown(st, dest);
    DestItems(st, dest.c);
    if !dest.c.typ.kind.Tile? && |st.list[dest.c]| < dest.c.typ.capacity {
      FreeSlots(st, dest.c, dest.index, x, count);
    }
  }

  lemma DestItems(st: State, c: Thing)
    requires Forest(st) && NothingLost(st) && StacksOk(st) && c in st.All()
    ensures forall t :: t in st.list[c] ==> t in st.All() && st.count[t] <= 100
  {
    hide Forest, Linked, ListOk, ChainOk;
    ForestKeys(st);
    forall t | t in st.list[c] ensures t in st.All() && st.count[t] <= 100 {
      ListedAlive(st, c, t);
      assert StackOk(t, st.count[t]);
    }
  }

  /** A free slot takes a whole stack. */
  lemma FreeSlots(st: State, c: Thing, index: int, x: Thing, count: nat)
    requires SameKeys(st) && c in st.All() && forall t :: t in st.list[c] ==> t in st.All() && st.count[t] <= 100
    requires x.typ.stackable && !c.typ.kind.Tile? && |st.list[c]| < c.typ.capacity
    ensures QueryMaxCount(st, c, index, x, count, false).1 >= 100
  {
    hide Room;
    var free, dest := c.typ.capacity - |st.list[c]|, GetThing(st.list[c], index);
    var n: nat := if dest != null && dest.typ.id == x.typ.id then Room(st.count[dest]) else 0;
    assert 0 <= n <= 100;
    assert (free * 100 + n) % UINT32 == free * 100 + n;
  }

  lemma NoMore(a: set<Thing>, b: set<Thing>)
    requires a <= b
    ensures |a| <= |b|
  {
    if a != b {
      SmallerSet(a, b);
    }
  }

  lemma WholeWithin(st: State, from: Thing, x: Thing, dest: Destination, m: nat, n: nat, y: Thing, d: Thing, count: nat)
    requires Forest(st) && Sound(st, from, x, dest, m, n) && !x.typ.stackable
    requires d in st.All() && DepotOk(st, d) && Stands(st, d) && st.parent[d] != null && x != d
    requires dest.c in st.All() && Within(st, dest.c, d) ==> DepotQuery(st, d, x, count, false) == RET_NOERROR
    ensures |Moved(st, from, x, dest, m, n, y).Below(d)| <= d.depotLimit
  {
    hide Forest, Linked, ListOk, ChainOk, Moved, Sound, TopOf, KnownDestination;
    ForestKeys(st);
    SoundKnown(st, from, x, dest, m, n);
    var now, was := Moved(st, from, x, dest, m, n, y).Below(d), st.Below(d);
    TopIsDepot(st, x, d);
    forall t | t in now ensures t in was || (t in st.All() && Moves(st, t, x) && Within(st, dest.c, d)) {
      WholeInDepot(st, from, x, dest, m, n, y, d, t);
      WholeKeys(st, from, x, dest, m, n, y);
    }
    if Within(st, dest.c, d) && !Within(st, x, d) {
      NoMore(now, was + {x} + st.Below(x));
      if x.typ.kind.Plain? {
        forall t | t in st.Below(x) ensures false {
          PlainHoldsNothing(st, x, t);
        }
        assert st.Below(x) == {};
      }
    } else {
      forall t | t in now && t in st.All() && Moves(st, t, x) && Within(st, x, d) ensures t in was {
        if t != x {
          AboveTransitive(st, t, x);
        }
      }
      NoMore(now, was);
    }
  }

  lemma StackWithin(st: State, from: Thing, x: Thing, dest: Destination, m: nat, n: nat, y: Thing, d: Thing, count: nat)
    requires Forest(st) && Sound(st, from, x, dest, m, n) && x.typ.stackable && x.typ.kind.Plain? && y !in st.All()
    requires d in st.All() && DepotOk(st, d) && Stands(st, d) && st.parent[d] != null
    requires dest.c in st.All() && Within(st, dest.c, d) ==> DepotQuery(st, d, x, count, false) == RET_NOERROR
    requires dest.c in st.All() && Within(st, dest.c, d) && n < m ==> Leaves(st, x, m) || count != st.count[x]
    ensures |Moved(st, from, x, dest, m, n, y).Below(d)| <= d.depotLimit
  {
    hide Forest, Linked, ListOk, ChainOk, Moved, Sound, TopOf, KnownDestination;
    ForestKeys(st);
    SoundKnown(st, from, x, dest, m, n);
    var now, was := Moved(st, from, x, dest, m, n, y).Below(d), st.Below(d);
    TopIsDepot(st, x, d);
    forall t | t in now
      ensures (t in was && !(Leaves(st, x, m) && t == x)) || (t == y && n < m && Within(st, dest.c, d))
    {
      StackInDepot(st, from, x, dest, m, n, y, d, t);
    }
    if n < m && Within(st, dest.c, d) {
      if Leaves(st, x, m) && x in was {
        NoMore(now, was - {x} + {y});
      } else {
        NoMore(now, was + {y});
      }
    } else {
      NoMore(now, was);
    }
  }

  /** A move without the flag that lifts limits leaves no depot over its limit. */
  lemma MoveDepots(st: State, from: Thing, to: Thing, index: int, x: Thing, count: nat, y: Thing)
    requires Forest(st) && NothingLost(st) && StacksOk(st) && DepotsOk(st)
    requires from in st.All() && to in st.All() && x in st.All() && !to.typ.kind.Plain?
    requires x.typ.stackable ==> y !in st.All() && y.typ == x.typ
    ensures DepotsOk(Move(st, from, to, index, x, count, false, y).1)
  {
    hide Forest, Linked, ListOk, ChainOk, Moved, Sound, TopOf, KnownDestination, MovePlan, DepotQuery, Within;
    ForestKeys(st);
    var plan := MovePlan(st, from, to, index, x, count, false);
    if plan.Go? {
      PlanSound(st, from, to, index, x, count, false);
      SoundKnown(st, from, x, plan.dest, plan.m, plan.n);
      ListedAlive(st, from, x);
      var end := Moved(st, from, x, plan.dest, plan.m, plan.n, y);
      forall d | d in end.All() ensures DepotOk(end, d) {
        if d in st.All() {
          if d.typ.kind.Depot? {
            OneDepot(st, from, to, index, x, count, y, d);
          }
        } else {
          NewIsEmpty(st, from, x, plan.dest, plan.m, plan.n, y, d);
          assert StackOk(x, st.count[x]);
        }
      }
    }
  }

  lemma OneDepot(st: State, from: Thing, to: Thing, index: int, x: Thing, count: nat, y: Thing, d: Thing)
    requires Forest(st) && NothingLost(st) && StacksOk(st) && x !in st.freed
    requires d in st.All() && DepotOk(st, d) && d.typ.kind.Depot?
    requires from in st.All() && to in st.All() && x in st.All() && !to.typ.kind.Plain?
    requires x.typ.stackable ==> y !in st.All() && y.typ == x.typ
    requires MovePlan(st, from, to, index, x, count, false).Go?
    ensures DepotOk(Move(st, from, to, index, x, count, false, y).1, d)
  {
    hide Forest, Linked, ListOk, ChainOk, Moved, Sound, TopOf, KnownDestination, MovePlan, DepotQuery, Within, Leaves;
    ForestKeys(st);
    var plan := MovePlan(st, from, to, index, x, count, false);
    PlanSound(st, from, to, index, x, count, false);
    SoundKnown(st, from, x, plan.dest, plan.m, plan.n);
    PlanAsks(st, from, to, index, x, count);
    assert StackOk(x, st.count[x]);
    DepotChain(st, d);
    if st.parent[d] != null {
      if Within(st, plan.dest.c, d) {
        DepotIsAsked(st, plan.dest.c, plan.dest.index, x, count, d);
      }
      if x.typ.stackable {
        SplitIsAsked(st, from, to, index, x, count);
        NoTileWithin(st, plan.dest.c, d);
        StackWithin(st, from, x, plan.dest, plan.m, plan.n, y, d, count);
      } else {
        WholeWithin(st, from, x, plan.dest, plan.m, plan.n, y, d, count);
      }
    }
    MovedParents(st, from, x, plan.dest, plan.m, plan.n, y, d);
  }

  lemma NoTileWithin(st: State, c: Thing, d: Thing)
    requires Forest(st) && c in st.All() && d in st.All() && d.typ.kind.Depot?
    ensures Within(st, c, d) ==> !c.typ.kind.Tile?
  {
    hide Linked;
    ThingOk(st, c);
  }

  lemma PlanAsks(st: State, from: Thing, to: Thing, index: int, x: Thing, count: nat)
    requires Forest(st) && from in st.All() && to in st.All() && x in st.All()
    ensures var plan := MovePlan(st, from, to, index, x, count, false);
            plan.Go? ==> plan.dest.c in st.All() && x.typ.moveable
                         && QueryAdd(st, plan.dest.c, plan.dest.index, x, count, false) == RET_NOERROR
  {
    hide Forest, Linked, ListOk, ChainOk, QueryAdd, QueryDestination, QueryMaxCount;
    ForestKeys(st);
    DestinationKnown(st, to, index);
    DestKnown(st, QueryDestination(st, to, index));
  }
}
