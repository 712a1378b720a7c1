/** Any number of moves, additions, removals and replacements, one after another. */
module ItemRuns {
  import opened ItemForest
  import opened ItemMove
  import opened MoveLaws
  import opened DepotLaw
  import opened ItemOps

  datatype Op =
    | MoveOp(from: Thing, to: Thing, index: int, x: Thing, count: nat, noLimit: bool, y: Thing)
    | AddOp(to: Thing, index: int, x: Thing, noLimit: bool, y: Thing)
    | RemoveOp(x: Thing, removed: int)
    | ReplaceOp(c: Thing, slot: nat, x: Thing)
    | NewOp(x: Thing, size: nat)

  /** What the callers of the operations see to; `y` is the object a call creates when it splits a stack. */
  ghost predicate Enabled(st: State, op: Op)
    requires Forest(st)
  {
    match op
    case MoveOp(from, to, _, x, _, _, y) =>
      && from in st.All() && to in st.All() && x in st.All() && !to.typ.kind.Plain?
      && (x.typ.stackable ==> y !in st.All() && y.typ == x.typ)
    case AddOp(to, _, x, _, y) =>
      && to in st.All() && x in st.All() && !to.typ.kind.Plain?
      && st.parent[x] == null && x !in st.freed && !x.typ.kind.Tile?
      && (x.typ.stackable ==> y !in st.All() && y.typ == x.typ)
    case RemoveOp(x, _) => x in st.All()
    case ReplaceOp(c, slot, x) => Replaceable(st, c, slot, x) && x !in st.freed
    case NewOp(x, size) => x !in st.All() && StackOk(x, size) && !x.typ.kind.Tile?
  }

  /** No piece is taken from a stack that hangs under no tile. */
  ghost predicate Clean(st: State, op: Op)
    requires Forest(st) && Enabled(st, op)
  {
    match op
    case MoveOp(from, to, index, x, count, noLimit, _) =>
      var plan := MovePlan(st, from, to, index, x, count, noLimit);
      plan.Go? ==> CleanSource(st, from, x, plan.m)
    case RemoveOp(x, removed) =>
      RemoveItem(st, x, removed).0 == RET_NOERROR ==> CleanRemoval(st, x, Asked(removed, st.count[x]))
    case _ => true
  }

  /** The operation does not lift limits; and depots are set up with the map, not added or put in the place of items. */
  ghost predicate Limited(op: Op) {
    && ((op.MoveOp? || op.AddOp?) ==> !op.noLimit)
    && ((op.AddOp? || op.ReplaceOp?) ==> !op.x.typ.kind.Depot?)
    && (op.NewOp? && op.x.typ.kind.Depot? ==> !op.x.typ.moveable)
  }

  ghost function Do(st: State, op: Op): State
    requires Forest(st) && Enabled(st, op)
  {
    match op
    case MoveOp(from, to, index, x, count, noLimit, y) => Move(st, from, to, index, x, count, noLimit, y).1
    case AddOp(to, index, x, noLimit, y) => AddItem(st, to, index, x, noLimit, y).1
    case RemoveOp(x, count) => RemoveItem(st, x, count).1
    case ReplaceOp(c, index, x) => ReplaceThing(st, c, index, x)
    case NewOp(x, count) => Create(st, x, count)
  }

  /** The world is a forest, nothing in a container has been handed over for deletion, stacks hold 1 to 100 items. */
  ghost predicate Sane(st: State) {
    Forest(st) && NothingLost(st) && StacksOk(st)
  }

  /** No container and no depot holds more than it may. */
  ghost predicate WithinLimits(st: State)
    requires SameKeys(st)
  {
    RoomOk(st) && DepotsOk(st)
  }

  lemma MoveSane(st: State, op: Op)
    requires Sane(st) && Enabled(st, op) && op.MoveOp?
    ensures Sane(Do(st, op)) <==> Clean(st, op)
    ensures Limited(op) && WithinLimits(st) ==> WithinLimits(Do(st, op))
  {
    hide Forest, Linked, ListOk, ChainOk, NothingLost, StacksOk, RoomOk, DepotsOk, Moved, MovePlan, Sound, IsRemoved;
    hide KnownDestination;
    ForestKeys(st);
    var plan := MovePlan(st, op.from, op.to, op.index, op.x, op.count, op.noLimit);
    if plan.Go? {
      PlanSound(st, op.from, op.to, op.index, op.x, op.count, op.noLimit);
      SoundKnown(st, op.from, op.x, plan.dest, plan.m, plan.n);
      NotTile(st, op.from, op.x);
      MovedForest(st, op.from, op.x, plan.dest, plan.m, plan.n, op.y);
      NothingLostIff(st, op.from, op.x, plan.dest, plan.m, plan.n, op.y);
      MoveStacks(st, op.from, op.x, plan.dest, plan.m, plan.n, op.y);
      if Limited(op) && WithinLimits(st) {
        PlanHasRoom(st, op.from, op.to, op.index, op.x, op.count);
        MoveRoom(st, op.from, op.x, plan.dest, plan.m, plan.n, op.y);
        MoveDepots(st, op.from, op.to, op.index, op.x, op.count, op.y);
      }
    }
  }

  lemma AddSane(st: State, op: Op)
    requires Sane(st) && Enabled(st, op) && op.AddOp?
    ensures Sane(Do(st, op))
    ensures Limited(op) && WithinLimits(st) ==> WithinLimits(Do(st, op))
  {
    hide Forest, Linked, ListOk, ChainOk, NothingLost, StacksOk, RoomOk, DepotsOk, Added, AddPlan, AddSound;
    hide KnownDestination;
    ForestKeys(st);
    var plan := AddPlan(st, op.to, op.index, op.x, op.noLimit);
    if plan.Go? {
      AddPlanSound(st, op.to, op.index, op.x, op.noLimit);
      AddKnown(st, op.x, plan.dest, plan.m, plan.n);
      AddedForest(st, op.x, plan.dest, plan.m, plan.n, op.y);
      AddedNothingLost(st, op.x, plan.dest, plan.m, plan.n, op.y);
      AddedStacks(st, op.x, plan.dest, plan.m, plan.n, op.y);
      if Limited(op) && WithinLimits(st) {
        AddHasRoom(st, op.to, op.index, op.x);
        AddedRoom(st, op.x, plan.dest, plan.m, plan.n, op.y);
        AddDepots(st, op.to, op.index, op.x, op.y);
      }
    }
  }

  lemma RemovePlan(st: State, x: Thing, count: int) returns (n: nat)
    requires Forest(st) && x in st.All() && RemoveItem(st, x, count).0 == RET_NOERROR
    ensures st.parent[x] != null && RemoveSound(st, st.parent[x], x, n)
    ensures st.parent[x] in st.All() && ListOk(st, st.parent[x])
    ensures RemoveItem(st, x, count) == (RET_NOERROR, Removed(st, st.parent[x], x, n)) && n == Asked(count, st.count[x])
  {
    hide Removed, Forest, Linked, ListOk, ChainOk;
    ForestKeys(st);
    ThingOk(st, x);
    n := Asked(count, st.count[x]);
    ThingOk(st, st.parent[x]);
  }

  lemma RemoveRefused(st: State, x: Thing, count: int)
    requires Forest(st) && x in st.All()
    ensures RemoveItem(st, x, count).0 != RET_NOERROR ==> RemoveItem(st, x, count).1 == st
  {
    hide Removed, Linked, ListOk, ChainOk;
  }

  lemma RemoveSane(st: State, op: Op)
    requires Sane(st) && Enabled(st, op) && op.RemoveOp?
    ensures Sane(Do(st, op)) <==> Clean(st, op)
    ensures Limited(op) && WithinLimits(st) ==> WithinLimits(Do(st, op))
  {
    hide Forest, Linked, ListOk, ChainOk, NothingLost, StacksOk, RoomOk, DepotsOk, Removed, RemoveSound, RemoveItem;
    ForestKeys(st);
    RemoveRefused(st, op.x, op.removed);
    if RemoveItem(st, op.x, op.removed).0 == RET_NOERROR {
      var n := RemovePlan(st, op.x, op.removed);
      RemovedForest(st, st.parent[op.x], op.x, n);
      RemovedNothingLostIff(st, st.parent[op.x], op.x, n);
      RemovedStacks(st, st.parent[op.x], op.x, n);
      if WithinLimits(st) {
        RemovedLimits(st, st.parent[op.x], op.x, n);
      }
    }
  }

  lemma NewSane(st: State, op: Op)
    requires Sane(st) && Enabled(st, op) && op.NewOp?
    ensures Sane(Do(st, op))
    ensures Limited(op) && WithinLimits(st) ==> WithinLimits(Do(st, op))
  {
    hide Forest, Linked, ListOk, ChainOk, RoomOk, DepotsOk;
    ForestKeys(st);
    CreateForest(st, op.x, op.size);
    if Limited(op) && WithinLimits(st) {
      CreateLimits(st, op.x, op.size);
    }
  }

  lemma CreateLimits(st: State, x: Thing, n: nat)
    requires SameKeys(st) && RoomOk(st) && DepotsOk(st) && x !in st.All()
    requires x.typ.kind.Depot? ==> !x.typ.moveable
    ensures RoomOk(Create(st, x, n)) && DepotsOk(Create(st, x, n))
  {
    var end := Create(st, x, n);
    forall d | d in end.All() ensures RoomFor(d, |end.list[d]|) && DepotOk(end, d) {
      if d != x {
        assert RoomFor(d, |st.list[d]|) && DepotOk(st, d);
        assert end.Below(d) == st.Below(d);
      }
    }
  }

  /** An operation keeps the world sane if and only if it is clean, and within its limits unless it lifts them. */
  lemma StepKeepsIff(st: State, op: Op)
    requires Sane(st) && Enabled(st, op)
    ensures Sane(Do(st, op)) <==> Clean(st, op)
    ensures Limited(op) && WithinLimits(st) ==> WithinLimits(Do(st, op))
  {
    hide *;
    if !op.MoveOp? && !op.RemoveOp? {
      OthersClean(st, op);
    }
    match op
    case MoveOp(_, _, _, _, _, _, _) => MoveSane(st, op);
    case AddOp(_, _, _, _, _) => AddSane(st, op);
    case RemoveOp(_, _) => RemoveSane(st, op);
    case ReplaceOp(_, _, _) => ReplaceSane(st, op);
    case NewOp(_, _) => NewSane(st, op);
  }

  lemma OthersClean(st: State, op: Op)
    requires Sane(st) && Enabled(st, op) && !op.MoveOp? && !op.RemoveOp?
    ensures Clean(st, op)
  {
  }

  lemma ReplaceSane(st: State, op: Op)
    requires Sane(st) && Enabled(st, op) && op.ReplaceOp?
    ensures Sane(Do(st, op))
    ensures Limited(op) && WithinLimits(st) ==> WithinLimits(Do(st, op))
  {
    hide Forest, Linked, ListOk, ChainOk, NothingLost, StacksOk, RoomOk, DepotsOk, ReplaceThing, Replaceable;
    ForestKeys(st);
    ReplacedForest(st, op.c, op.slot, op.x);
    ReplacedSane(st, op.c, op.slot, op.x);
    if Limited(op) && WithinLimits(st) {
      ReplacedLimits(st, op.c, op.slot, op.x);
    }
  }

  // ---------------------------------------------------------------- runs

  /** Each operation of the run is called as it should be and is clean, and `end` is the world after the last one. */
  ghost predicate Run(st: State, ops: seq<Op>, end: State)
    decreases |ops|
  {
    if ops == [] then end == st
    else Forest(st) && Enabled(st, ops[0]) && Clean(st, ops[0]) && Run(Do(st, ops[0]), ops[1..], end)
  }

  /** Over any run, the world stays sane, and within its limits if no operation lifts them. */
  lemma {:induction false} RunKeeps(st: State, ops: seq<Op>, end: State)
    requires Sane(st) && Run(st, ops, end)
    ensures Sane(end)
    ensures WithinLimits(st) && (forall op :: op in ops ==> Limited(op)) ==> WithinLimits(end)
    decreases |ops|
  {
    hide Forest, Enabled, Clean, Do, WithinLimits, Limited, NothingLost, StacksOk;
    if ops != [] {
      StepKeepsIff(st, ops[0]);
      RunKeeps(Do(st, ops[0]), ops[1..], end);
    }
  }

  /** Over any run of moves, the number of items of every type stays the same. */
  lemma {:induction false} RunConserves(st: State, ops: seq<Op>, end: State, id: nat)
    requires Sane(st) && Run(st, ops, end) && forall op :: op in ops ==> op.MoveOp?
    ensures Sane(end) && Total(end, id) == Total(st, id)
    decreases |ops|
  {
    hide Forest, Enabled, Clean, Do, WithinLimits, Limited, NothingLost, StacksOk, Total;
    if ops != [] {
      StepKeepsIff(st, ops[0]);
      StepConserves(st, ops[0], id);
      RunConserves(Do(st, ops[0]), ops[1..], end, id);
    }
  }

  lemma StepConserves(st: State, op: Op, id: nat)
    requires Sane(st) && Enabled(st, op) && Clean(st, op) && op.MoveOp?
    ensures SameKeys(st) && SameKeys(Do(st, op)) && Total(Do(st, op), id) == Total(st, id)
  {
    hide Forest, Linked, ListOk, ChainOk, NothingLost, StacksOk, Moved, MovePlan, Sound, IsRemoved, Total;
    hide KnownDestination;
    ForestKeys(st);
    var plan := MovePlan(st, op.from, op.to, op.index, op.x, op.count, op.noLimit);
    if plan.Go? {
      PlanSound(st, op.from, op.to, op.index, op.x, op.count, op.noLimit);
      SoundKnown(st, op.from, op.x, plan.dest, plan.m, plan.n);
      MoveConserves(st, op.from, op.x, plan.dest, plan.m, plan.n, op.y, id);
    }
  }
}
