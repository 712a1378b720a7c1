/** The queries a cylinder answers about an item, and what moving an item does to the world. */
module ItemMove {
  import opened Bytes
  import opened ItemForest

  const INDEX_WHEREEVER := -1

  datatype ReturnValue =
    | RET_NOERROR
    | RET_NOTPOSSIBLE
    | RET_NOTMOVEABLE
    | RET_CONTAINERNOTENOUGHROOM
    | RET_CANNOTPICKUP
    | RET_THISISIMPOSSIBLE
    | RET_DEPOTISFULL

  // ---------------------------------------------------------------- queries

  /** The outermost container around a thing, below the tile that the chain ends in. */
  ghost function TopOf(st: State, t: Thing): (top: Thing?)
    requires Forest(st) && t in st.All()
    ensures top != null ==> top in st.All() && (top == t || top in st.above[t])
    decreases |st.above[t]|
  {
    assert ParentOk(st, t) && ChainOk(st, t);
    var p := st.parent[t];
    if p == null then (if t.typ.kind.Plain? then null else t)
    else if st.parent[p] == null then (if t.typ.kind.Plain? then p else t)
    else
      SmallerAbove(st, t);
      TopOf(st, p)
  }

  lemma SmallerAbove(st: State, t: Thing)
    requires Forest(st) && t in st.All() && st.parent[t] != null
    ensures st.parent[t] in st.All() && |st.above[st.parent[t]]| < |st.above[t]|
  {
    assert ParentOk(st, t) && ChainOk(st, t) && ChainOk(st, st.parent[t]);
    SmallerSet(st.above[st.parent[t]], st.above[t]);
  }

  ghost function DepotQuery(st: State, d: Thing, x: Thing, count: nat, noLimit: bool): ReturnValue
    requires Forest(st) && d in st.All() && x in st.All()
  {
    var addCount :=
      if TopOf(st, x) != d then (if x.typ.kind.Plain? then 1 else |st.Below(x)| + 1)
      else if x.typ.stackable && st.count[x] != count then 1
      else 0;
    if !noLimit && |st.Below(d)| + addCount > d.depotLimit then RET_DEPOTISFULL else RET_NOERROR
  }

  /** The query on the top container, made for a container inside it. */
  ghost function ChildQuery(st: State, top: Thing, x: Thing, count: nat, noLimit: bool): ReturnValue
    requires Forest(st) && top in st.All() && x in st.All()
  {
    if top.typ.kind.Depot? then DepotQuery(st, top, x, count, noLimit) else RET_NOERROR
  }

  ghost function ContainerQuery(st: State, c: Thing, index: int, x: Thing, count: nat, noLimit: bool): ReturnValue
    requires Forest(st) && c in st.All() && x in st.All()
  {
    if !x.typ.pickupable then RET_CANNOTPICKUP
    else if x == c || x in st.above[c] then RET_THISISIMPOSSIBLE
    else if index == INDEX_WHEREEVER && !noLimit && |st.list[c]| >= c.typ.capacity then RET_CONTAINERNOTENOUGHROOM
    else
      var top := TopOf(st, c);
      if top != null && top != c then ChildQuery(st, top, x, count, noLimit) else RET_NOERROR
  }

  ghost function QueryAdd(st: State, c: Thing, index: int, x: Thing, count: nat, noLimit: bool): ReturnValue
    requires Forest(st) && c in st.All() && x in st.All()
  {
    if c.typ.kind.Tile? then RET_NOERROR
    else if c.typ.kind.Depot? && DepotQuery(st, c, x, count, noLimit) != RET_NOERROR then RET_DEPOTISFULL
    else ContainerQuery(st, c, index, x, count, noLimit)
  }

  function GetThing(list: seq<Thing>, index: int): Thing? {
    if 0 <= index < |list| then list[index] else null
  }

  /** What still fits on a stack, in unsigned arithmetic: a stack over 100 would seem to have endless room. */
  function Room(n: nat): (r: nat)
    ensures n <= 100 ==> r == 100 - n
  {
    (100 - n) % UINT32
  }

  /** How much of the item fits, and the answer if not all of it does. */
  ghost function QueryMaxCount(st: State, c: Thing, index: int, x: Thing, count: nat, noLimit: bool): (ReturnValue, nat)
    requires SameKeys(st) && c in st.All()
    requires forall t :: t in st.list[c] ==> t in st.All()
  {
    if c.typ.kind.Tile? || noLimit then (RET_NOERROR, Max(1, count))
    else
      var free: nat := Max(c.typ.capacity - |st.list[c]|, 0);
      if x.typ.stackable then
        var dest := GetThing(st.list[c], index);
        var n: nat := if dest != null && dest.typ.id == x.typ.id then Room(st.count[dest]) else 0;
        var max: nat := (free * 100 + n) % UINT32;
        (if max < count then RET_CONTAINERNOTENOUGHROOM else RET_NOERROR, max)
      else (if free == 0 then RET_CONTAINERNOTENOUGHROOM else RET_NOERROR, free)
  }

  ghost function QueryRemove(st: State, c: Thing, x: Thing, count: nat): ReturnValue
    requires SameKeys(st) && c in st.All() && x in st.All()
  {
    if x !in st.list[c] then RET_NOTPOSSIBLE
    else if count == 0 || (x.typ.stackable && count > st.count[x]) then RET_NOTPOSSIBLE
    else if !x.typ.moveable || x.uniqueId != 0 then RET_NOTMOVEABLE
    else RET_NOERROR
  }

  datatype Destination = Destination(c: Thing, index: int, item: Thing?)

  /** Where an item dropped on a cylinder really goes: 254 means one container up, 255 anywhere inside. */
  ghost function QueryDestination(st: State, c: Thing, index: int): Destination
    requires SameKeys(st) && c in st.All()
  {
    if c.typ.kind.Tile? then Destination(c, index, GetThing(st.list[c], 0))
    else if index == 254 then
      var p := st.parent[c];
      Destination(if p != null && !p.typ.kind.Tile? then p else c, INDEX_WHEREEVER, null)
    else if index == 255 then Destination(c, INDEX_WHEREEVER, null)
    else
      var at := if index >= c.typ.capacity then INDEX_WHEREEVER else index;
      var dest := GetThing(st.list[c], at);
      if dest != null && !dest.typ.kind.Plain? then Destination(dest, INDEX_WHEREEVER, null)
      else Destination(c, at, dest)
  }

  // ---------------------------------------------------------------- changes

  /** Counts are kept in eight bits. */
  ghost function SetCount(st: State, x: Thing, n: nat): (r: State)
    requires SameKeys(st) && x in st.All()
    ensures SameKeys(r) && r.All() == st.All() && r.freed == st.freed
  {
    st.(count := st.count[x := LowByte(n)])
  }

  /** `__removeThing`: part of a stack, or the whole item. */
  ghost function RemoveThing(st: State, c: Thing, x: Thing, n: nat): (r: State)
    requires SameKeys(st) && c in st.All() && x in st.All() && ListOk(st, c)
    ensures SameKeys(r) && r.All() == st.All() && r.freed == st.freed
  {
    if x !in st.list[c] then st
    else if x.typ.stackable && n != st.count[x] then SetCount(st, x, Max(0, st.count[x] - n))
    else Unlink(st, x)
  }

  /** A new item that is nowhere yet. */
  ghost function Create(st: State, y: Thing, n: nat): (r: State)
    requires SameKeys(st)
    ensures SameKeys(r) && r.All() == st.All() + {y} && r.freed == st.freed
  {
    st.(parent := st.parent[y := null], list := st.list[y := []], count := st.count[y := LowByte(n)],
        above := st.above[y := {}])
  }

  ghost function Free(st: State, x: Thing): (r: State)
    requires SameKeys(st) && x in st.All()
    ensures SameKeys(r) && r.All() == st.All()
  {
    st.(freed := st.freed + {x})
  }

  /** `isRemoved`: the chain does not end in a tile. */
  ghost predicate IsRemoved(st: State, t: Thing)
    requires t in st.above.Keys
  {
    !t.typ.kind.Tile? && forall a :: a in st.above[t] ==> !a.typ.kind.Tile?
  }

  /** `__addThing`: to the front, unless the index is beyond the container's slots. */
  ghost function AddThing(st: State, c: Thing, index: int, x: Thing): (r: State)
    requires SameKeys(st) && c in st.All() && x in st.All()
    ensures SameKeys(r) && r.All() == st.All() && r.count == st.count && r.freed == st.freed
  {
    if !c.typ.kind.Tile? && index >= c.typ.capacity then st else Link(st, c, 0, x)
  }

  /** What `internalMoveItem` decides to do: nothing, or to move `m`, of which `n` onto the item at the destination. */
  datatype Plan = Refuse(ret: ReturnValue) | Go(dest: Destination, m: nat, n: nat, ret: ReturnValue)

  ghost function MovePlan(st: State, from: Thing, to: Thing, index: int, x: Thing, count: nat, noLimit: bool): Plan
    requires Forest(st) && from in st.All() && to in st.All() && x in st.All()
  {
    var dest := QueryDestination(st, to, index);
    DestinationKnown(st, to, index);
    if dest.item == x then Refuse(RET_NOERROR)
    else
      var ret := QueryAdd(st, dest.c, dest.index, x, count, noLimit);
      if ret != RET_NOERROR then Refuse(ret)
      else
        var (retMax, max) := QueryMaxCount(st, dest.c, dest.index, x, count, noLimit);
        if retMax != RET_NOERROR && max == 0 then Refuse(retMax)
        else
          var m := if x.typ.stackable then Min(count, max) else max;
          var retRemove := QueryRemove(st, from, x, m);
          if retRemove != RET_NOERROR then Refuse(retRemove)
          else Go(dest, m, Merged(st, dest, x, m), if x.typ.stackable && max < count then retMax else RET_NOERROR)
  }

  /** How many of the `m` go onto the item at the destination. */
  ghost function Merged(st: State, dest: Destination, x: Thing, m: nat): (n: nat)
    requires SameKeys(st) && (dest.item != null ==> dest.item in st.All())
    ensures n <= m
  {
    if x.typ.stackable && dest.item != null && dest.item.typ.id == x.typ.id
    then Min(Room(st.count[dest.item]), m) else 0
  }

  ghost predicate KnownDestination(st: State, dest: Destination)
    requires SameKeys(st)
  {
    && dest.c in st.All() && ListOk(st, dest.c)
    && (dest.item != null ==> dest.item in st.All() && dest.item in st.list[dest.c])
  }

  lemma DestinationWhere(st: State, to: Thing, index: int)
    requires SameKeys(st) && to in st.All()
    ensures var dest := QueryDestination(st, to, index);
            && (|| dest.c == to
                || (st.parent[to] != null && dest.c == st.parent[to])
                || (dest.c in st.list[to] && !dest.c.typ.kind.Plain?))
            && (dest.item != null ==> dest.c == to && dest.item in st.list[to])
  {
  }

  lemma DestinationKnown(st: State, to: Thing, index: int)
    requires Forest(st) && to in st.All()
    ensures KnownDestination(st, QueryDestination(st, to, index))
    ensures !to.typ.kind.Plain? ==> !QueryDestination(st, to, index).c.typ.kind.Plain?
  {
    DestinationWhere(st, to, index);
    assert ListOk(st, to) && ParentOk(st, to);
    hide QueryDestination, ChainOk;
    var dest := QueryDestination(st, to, index);
    if st.parent[to] != null {
      assert ListOk(st, st.parent[to]);
    }
    if dest.c in st.list[to] {
      assert ListOk(st, dest.c);
    }
  }

  lemma ListItem(st: State, c: Thing, t: Thing)
    requires Forest(st) && c in st.All() && t in st.list[c]
    ensures t in st.All() && st.parent[t] == c
  {
    assert ListOk(st, c);
  }

  // ---------------------------------------------------------------- the move

  /** After the source has given up `m` of the item and the item at the destination has taken `n` of them. */
  ghost function Taken(st: State, from: Thing, x: Thing, dest: Destination, m: nat, n: nat): (r: State)
    requires SameKeys(st) && from in st.All() && x in st.All() && ListOk(st, from) && KnownDestination(st, dest)
    ensures SameKeys(r) && r.All() == st.All() && r.freed == st.freed
  {
    var st1 := RemoveThing(st, from, x, m);
    if x.typ.stackable && dest.item != null && dest.item.typ.id == x.typ.id
    then SetCount(st1, dest.item, st1.count[dest.item] + n) else st1
  }

  /** A stack arrives: an emptied item is handed over for deletion, and what did not merge becomes the new item `y`. */
  ghost function Arrived(st: State, x: Thing, dest: Destination, m: nat, n: nat, y: Thing): (r: State)
    requires SameKeys(st) && x in st.All() && dest.c in st.All() && n <= m
    ensures SameKeys(r)
  {
    var st3 := if IsRemoved(st, x) then Free(st, x) else st;
    if m > n then AddThing(Create(st3, y, m - n), dest.c, dest.index, y) else st3
  }

  /** The whole move. */
  ghost function Moved(st: State, from: Thing, x: Thing, dest: Destination, m: nat, n: nat, y: Thing): (r: State)
    requires SameKeys(st) && from in st.All() && x in st.All() && ListOk(st, from) && KnownDestination(st, dest)
    requires n <= m
    ensures SameKeys(r)
  {
    var st2 := Taken(st, from, x, dest, m, n);
    if x.typ.stackable then Arrived(st2, x, dest, m, n, y) else AddThing(st2, dest.c, dest.index, x)
  }

  /** `internalMoveItem`: its answer and the world after it. */
  ghost function Move(st: State, from: Thing, to: Thing, index: int, x: Thing, count: nat, noLimit: bool, y: Thing):
    (ReturnValue, State)
    requires Forest(st) && from in st.All() && to in st.All() && x in st.All()
  {
    var plan := MovePlan(st, from, to, index, x, count, noLimit);
    if plan.Refuse? then (plan.ret, st)
    else
      DestinationKnown(st, to, index);
      assert ListOk(st, from);
      (plan.ret, Moved(st, from, x, plan.dest, plan.m, plan.n, y))
  }
}
