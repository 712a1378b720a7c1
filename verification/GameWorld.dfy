/** The world of things as objects: containers change their item lists in place, parents are pointers. */
module GameWorld {
  import opened Bytes
  import opened ItemForest
  import opened ItemMove
  import opened MoveLaws
  import opened ItemOps
  import opened ItemSearch

  lemma {:induction false} BoxesPush(s: seq<Thing>, i: nat)
    requires i < |s|
    ensures BoxesOf(s[..i + 1]) == BoxesOf(s[..i]) + if s[i].typ.kind.Plain? then [] else [s[i]]
  {
    var more: seq<Thing> := if s[i].typ.kind.Plain? then [] else [s[i]];
    if i == 0 {
      assert s[..1] == [s[0]] && s[..1][1..] == [] && s[..0] == [];
    } else {
      BoxesPush(s[1..], i - 1);
      var first: seq<Thing> := if s[0].typ.kind.Plain? then [] else [s[0]];
      assert s[..i + 1][1..] == s[1..][..i] && s[..i][1..] == s[1..][..i - 1];
      assert first + (BoxesOf(s[1..][..i - 1]) + more) == (first + BoxesOf(s[1..][..i - 1])) + more;
    }
  }

  /** The queue while its first container is looked through: the containers among the first `i` items have joined. */
  ghost predicate Scanned(q: seq<Thing>, before: seq<Thing>, s: seq<Thing>, i: nat) {
    before != [] && i <= |s| && q == before[1..] + BoxesOf(s[..i])
  }

  lemma ScanStart(before: seq<Thing>, s: seq<Thing>)
    requires before != []
    ensures Scanned(before[1..], before, s, 0)
  {
  }

  lemma ScanNext(q: seq<Thing>, before: seq<Thing>, s: seq<Thing>, i: nat)
    requires Scanned(q, before, s, i) && i < |s|
    ensures Scanned(if s[i].typ.kind.Plain? then q else q + [s[i]], before, s, i + 1)
  {
    BoxesPush(s, i);
  }

  /** The walk through the rest of the queue once the first container's items have been looked at. */
  lemma WalkOn(st: State, q: seq<Thing>, rest: seq<Thing>)
    requires Forest(st) && Known(st, q) && q != [] && q[0] in st.list
    requires Scanned(rest, q, st.list[q[0]], |st.list[q[0]]|)
    ensures Known(st, rest) && Size(st, rest) < Size(st, q)
    ensures Visit(st, q) == st.list[q[0]] + Visit(st, rest)
  {
    ScanEnd(rest, q, st.list[q[0]]);
    hide *;
    NextFits(st, q);
    VisitStep(st, q);
    NextIs(st, q);
  }

  lemma ScanEnd(q: seq<Thing>, before: seq<Thing>, s: seq<Thing>)
    requires Scanned(q, before, s, |s|)
    ensures before != [] && q == before[1..] + BoxesOf(s)
  {
    assert s[..|s|] == s;
  }

  lemma NextIs(st: State, q: seq<Thing>)
    requires q != [] && q[0] in st.list
    ensures Next(st, q) == q[1..] + BoxesOf(st.list[q[0]])
  {
  }

  lemma {:induction false} WithoutAt(s: seq<Thing>, i: nat)
    requires i < |s| && s[i] !in s[..i]
    ensures Without(s, s[i]) == s[..i] + s[i + 1..]
  {
    if i != 0 {
      assert s[0] == s[..i][0];
      assert s[1..][..i - 1] == s[..i][1..];
      WithoutAt(s[1..], i - 1);
      assert [s[0]] + (s[1..][..i - 1] + s[1..][i..]) == s[..i] + s[i + 1..];
    }
  }

  lemma AddRefused(st: State, c: Thing, index: int, x: Thing)
    requires SameKeys(st) && c in st.All() && x in st.All()
    ensures !c.typ.kind.Tile? && index >= c.typ.capacity ==> AddThing(st, c, index, x) == st
  {
  }

  lemma AddIs(st: State, c: Thing, index: int, x: Thing, end: State)
    requires SameKeys(st) && c in st.All() && x in st.All() && (c.typ.kind.Tile? || index < c.typ.capacity)
    requires end.parent == st.parent[x := c] && end.list == st.list[c := [x] + st.list[c]]
    requires end.count == st.count && end.freed == st.freed && end.above == Link(st, c, 0, x).above
    ensures end == AddThing(st, c, index, x)
  {
    assert Insert(st.list[c], 0, x) == [x] + st.list[c];
  }

  lemma UnlinkIs(st: State, x: Thing, end: State)
    requires SameKeys(st) && x in st.All() && st.parent[x] != null && st.parent[x] in st.All()
    requires end.parent == st.parent[x := null]
    requires end.list == st.list[st.parent[x] := Without(st.list[st.parent[x]], x)]
    requires end.count == st.count && end.freed == st.freed && end.above == Unlink(st, x).above
    ensures end == Unlink(st, x)
  {
  }

  lemma CreateIs(st: State, y: Thing, n: nat, end: State)
    requires Forest(st)
    requires end.parent == st.parent[y := null] && end.list == st.list[y := []]
    requires end.count == st.count[y := LowByte(n)]
    requires end.above == st.above[y := {}] && end.freed == st.freed
    ensures SameKeys(st) && end == Create(st, y, n)
  {
  }

  lemma RemoveIs(st: State, c: Thing, x: Thing, n: nat)
    requires Forest(st) && c in st.All() && x in st.All()
    ensures ListOk(st, c)
    ensures if x !in st.list[c] then RemoveThing(st, c, x, n) == st
            else if x.typ.stackable && n != st.count[x]
            then RemoveThing(st, c, x, n) == SetCount(st, x, Max(0, st.count[x] - n))
            else st.parent[x] == c && RemoveThing(st, c, x, n) == Unlink(st, x)
  {
    assert ListOk(st, c);
  }

  lemma ReplaceIs(st: State, c: Thing, index: nat, x: Thing)
    requires Forest(st) && c in st.All() && x in st.All() && x !in st.list[c]
    ensures var end, list := ReplaceThing(st, c, index, x), st.list[c];
            if index < |list|
            then && end.parent == st.parent[list[index] := null][x := c]
                 && end.list == st.list[c := list[..index] + [x] + list[index + 1..]]
                 && end.count == st.count && end.freed == st.freed
            else end == st
  {
    hide Linked, ChainOk;
    if index < |st.list[c]| {
      ListItem(st, c, st.list[c][index]);
      ThingOk(st, c);
      WithoutAt(st.list[c], index);
      var w: seq<Thing> := Without(st.list[c], st.list[c][index]);
      assert w[..index] + [x] + w[index..] == st.list[c][..index] + [x] + st.list[c][index + 1..];
    }
  }

  class Game {
    ghost var things: set<Thing>
    ghost var above: map<Thing, set<Thing>>
    var released: set<Thing>

    constructor ()
      ensures Valid() && things == {} && released == {}
    {
      things, above, released := {}, map[], {};
    }

    ghost function Parents(): map<Thing, Thing?>
      reads this`things, things`parent
    {
      map t | t in things :: t.parent
    }

    ghost function Lists(): map<Thing, seq<Thing>>
      reads this`things, things`list
    {
      map t | t in things :: t.list
    }

    ghost function Counts(): map<Thing, byte>
      reads this`things, things`count
    {
      map t | t in things :: t.count
    }

    /** The fields of all things, as one value. */
    ghost function World(): (w: State)
      reads this, things
      ensures w.All() == things
    {
      State(Parents(), Lists(), Counts(), above, released)
    }

    ghost predicate Valid()
      reads this, things
    {
      Forest(World())
    }

    lemma WorldIs()
      ensures World() == State(Parents(), Lists(), Counts(), above, released)
    {
    }

    lemma ValidMeans()
      ensures Valid() <==> Forest(World())
    {
    }

    lemma InState(t: Thing)
      requires t in things
      ensures World().All() == things
      ensures World().parent[t] == t.parent && World().list[t] == t.list && World().count[t] == t.count
    {
    }

    // -------------------------------------------------------------- looking up and around

    /** `getTopParent` */
    method GetTopParent(t: Thing) returns (top: Thing?)
      requires Valid() && t in things
      ensures top == TopOf(World(), t)
    {
      ghost var st := World();
      ThingOk(st, t);
      if t.parent == null {
        return if t.typ.kind.Plain? then null else t;
      }
      var aux: Thing := t.parent;
      var prevaux: Thing? := if t.typ.kind.Plain? then null else t;
      while aux.parent != null
        invariant aux in things && st == World() && Forest(st)
        invariant TopOf(st, t) == if aux.parent == null then (if prevaux != null then prevaux else aux)
                                  else TopOf(st, aux)
        invariant st.list[aux] != []
        decreases |st.above[aux]|
      {
        ThingOk(st, aux);
        SmallerAbove(st, aux);
        ThingOk(st, aux.parent);
        prevaux := aux;
        aux := aux.parent;
      }
      return if prevaux != null then prevaux else aux;
    }

    /** The parent walk of `__queryAdd`: is the thing somewhere above the container? */
    method IsAbove(x: Thing, c: Thing) returns (found: bool)
      requires Valid() && x in things && c in things
      ensures found <==> x in World().above[c]
    {
      ghost var st := World();
      ChainIs(st, c);
      var cylinder := c.parent;
      while cylinder != null
        invariant st == World() && (cylinder != null ==> cylinder in things)
        invariant x in st.above[c] <==> cylinder != null && (cylinder == x || x in st.above[cylinder])
        decreases if cylinder == null then 0 else 1 + |st.above[cylinder]|
      {
        if cylinder == x {
          return true;
        }
        ChainIs(st, cylinder);
        if cylinder.parent != null {
          SmallerAbove(st, cylinder);
        }
        cylinder := cylinder.parent;
      }
      return false;
    }

    /** `getItemHoldingCount` counts each thing inside the container once. */
    method GetItemHoldingCount(c: Thing) returns (counter: nat)
      requires Valid() && c in things
      ensures counter == |World().Below(c)|
    {
      hide Forest, Visit, BoxesOf, Size, Known, Scanned, NoDuplicates;
      ghost var st := World();
      VisitOnce(st, c);
      OneKnown(st, c);
      ForestKeys(st);
      counter := 0;
      var queue: seq<Thing> := [c];
      while queue != []
        invariant st == World() && Known(st, queue)
        invariant counter + |Visit(st, queue)| == |Visit(st, [c])|
        decreases Size(st, queue)
      {
        ghost var before, had := queue, counter;
        FirstKnown(st, queue);
        var container := queue[0];
        queue := queue[1..];
        ScanStart(before, container.list);
        var i := 0;
        while i < |container.list|
          invariant i <= |container.list| && Scanned(queue, before, container.list, i) && counter == had + i
        {
          ScanNext(queue, before, container.list, i);
          if !container.list[i].typ.kind.Plain? {
            queue := queue + [container.list[i]];
          }
          counter := counter + 1;
          i := i + 1;
        }
        WalkOn(st, before, queue);
      }
      EmptyVisit(st);
    }

    /** `isHoldingItem` finds a thing exactly when it is inside the container. */
    method IsHoldingItem(c: Thing, item: Thing) returns (found: bool)
      requires Valid() && c in things && item in things
      ensures found <==> c in World().above[item]
    {
      hide Forest, Visit, BoxesOf, Size, Known, Scanned, NoDuplicates;
      ghost var st := World();
      VisitOnce(st, c);
      OneKnown(st, c);
      ForestKeys(st);
      var queue: seq<Thing> := [c];
      while queue != []
        invariant st == World() && Known(st, queue)
        invariant item in Visit(st, queue) <==> item in Visit(st, [c])
        decreases Size(st, queue)
      {
        ghost var before := queue;
        FirstKnown(st, queue);
        var container := queue[0];
        queue := queue[1..];
        ScanStart(before, container.list);
        FirstVisited(st, before, item);
        var i := 0;
        while i < |container.list|
          invariant i <= |container.list| && Scanned(queue, before, container.list, i)
          invariant forall j :: 0 <= j < i ==> container.list[j] != item
        {
          if container.list[i] == item {
            return true;
          }
          ScanNext(queue, before, container.list, i);
          if !container.list[i].typ.kind.Plain? {
            queue := queue + [container.list[i]];
          }
          i := i + 1;
        }
        WalkOn(st, before, queue);
      }
      EmptyVisit(st);
      return false;
    }

    /** `Container::getWeight` is the weight of the whole tree. */
    method GetWeight(c: Thing) returns (weight: real)
      requires Valid() && c in things && !c.typ.kind.Plain?
      ensures weight == WeightOf(World(), [c])
    {
      hide Forest, Visit, BoxesOf, Size, Known, Scanned, Inside, SumWeights, WeightOf, OwnWeight, NoDuplicates;
      ghost var st := World();
      WholeWeight(st, c);
      OneKnown(st, c);
      ForestKeys(st);
      weight := c.typ.weight;
      var queue: seq<Thing> := [c];
      while queue != []
        invariant st == World() && Known(st, queue)
        invariant weight + Inside(st, queue) == c.typ.weight + Inside(st, [c])
        decreases Size(st, queue)
      {
        ghost var before, had := queue, weight;
        FirstKnown(st, queue);
        var container := queue[0];
        queue := queue[1..];
        ScanStart(before, container.list);
        SumStart(st, container.list);
        var i := 0;
        while i < |container.list|
          invariant i <= |container.list| && Scanned(queue, before, container.list, i)
          invariant Known(st, container.list[..i]) && weight == had + SumWeights(st, container.list[..i])
        {
          ScanNext(queue, before, container.list, i);
          SumWeightsPush(st, container.list, i);
          var item := container.list[i];
          if !item.typ.kind.Plain? {
            queue := queue + [item];
            BoxWeight(item, item.count);
            weight := weight + item.typ.weight;
          } else {
            weight := weight + OwnWeight(item, item.count);
          }
          i := i + 1;
        }
        assert container.list[..i] == container.list;
        WeightOn(st, before, queue);
      }
      NothingInside(st);
    }

    /** `__getIndexOfThing` */
    method IndexOf(list: seq<Thing>, x: Thing) returns (index: int)
      ensures index == -1 ==> x !in list
      ensures index != -1 ==> 0 <= index < |list| && list[index] == x && x !in list[..index]
    {
      index := 0;
      while index < |list|
        invariant 0 <= index <= |list| && x !in list[..index]
      {
        if list[index] == x {
          return;
        }
        index := index + 1;
      }
      return -1;
    }

    // -------------------------------------------------------------- queries

    /** `Depot::__queryAdd`, its own part */
    method DepotQueryAdd(d: Thing, x: Thing, count: nat, noLimit: bool) returns (ret: ReturnValue)
      requires Valid() && d in things && x in things
      ensures ret == DepotQuery(World(), d, x, count, noLimit)
    {
      hide Forest, Linked, ChainOk, ListOk, TopOf, World;
      ghost var st := World();
      ForestKeys(st);
      InState(x);
      if !noLimit {
        var addCount := 0;
        if x.typ.stackable && x.count != count {
          addCount := 1;
        }
        var top := GetTopParent(x);
        if top != d {
          if !x.typ.kind.Plain? {
            var inside := GetItemHoldingCount(x);
            addCount := inside + 1;
          } else {
            addCount := 1;
          }
        }
        var held := GetItemHoldingCount(d);
        if held + addCount > d.depotLimit {
          return RET_DEPOTISFULL;
        }
      }
      return RET_NOERROR;
    }

    /** `Container::__queryAdd` */
    method ContainerQueryAdd(c: Thing, index: int, x: Thing, count: nat, noLimit: bool) returns (ret: ReturnValue)
      requires Valid() && c in things && x in things
      ensures ret == ContainerQuery(World(), c, index, x, count, noLimit)
    {
      hide Forest, Linked, ChainOk, ListOk, TopOf, DepotQuery;
      if !x.typ.pickupable {
        return RET_CANNOTPICKUP;
      }
      if x == c {
        return RET_THISISIMPOSSIBLE;
      }
      var inside := IsAbove(x, c);
      if inside {
        return RET_THISISIMPOSSIBLE;
      }
      if index == INDEX_WHEREEVER && !noLimit && |c.list| >= c.typ.capacity {
        return RET_CONTAINERNOTENOUGHROOM;
      }
      var top := GetTopParent(c);
      if top != null && top != c && top.typ.kind.Depot? {
        ret := DepotQueryAdd(top, x, count, noLimit);
      } else {
        ret := RET_NOERROR;
      }
    }

    /** `__queryAdd` of any cylinder */
    method CylinderQueryAdd(c: Thing, index: int, x: Thing, count: nat, noLimit: bool) returns (ret: ReturnValue)
      requires Valid() && c in things && x in things
      ensures ret == QueryAdd(World(), c, index, x, count, noLimit)
    {
      hide Forest, Linked, ChainOk, ListOk, TopOf, ContainerQuery;
      if c.typ.kind.Tile? {
        return RET_NOERROR;
      }
      if c.typ.kind.Depot? {
        ret := DepotQueryAdd(c, x, count, noLimit);
        if ret != RET_NOERROR {
          return;
        }
      }
      ret := ContainerQueryAdd(c, index, x, count, noLimit);
    }

    /** `__queryMaxCount` */
    method CylinderMaxCount(c: Thing, index: int, x: Thing, count: nat, noLimit: bool)
      returns (ret: ReturnValue, max: nat)
      requires Valid() && c in things
      ensures Known(World(), World().list[c])
      ensures (ret, max) == QueryMaxCount(World(), c, index, x, count, noLimit)
    {
      hide Forest, Linked, ChainOk, ListOk, Room, Size, BoxesOf;
      KidsFit(World(), c);
      if c.typ.kind.Tile? || noLimit {
        return RET_NOERROR, Max(1, count);
      }
      var freeSlots: nat := Max(c.typ.capacity - |c.list|, 0);
      if x.typ.stackable {
        var n := 0;
        var dest := GetThing(c.list, index);
        if dest != null && dest.typ.id == x.typ.id {
          n := Room(dest.count);
        }
        max := (freeSlots * 100 + n) % UINT32;
        return if max < count then RET_CONTAINERNOTENOUGHROOM else RET_NOERROR, max;
      }
      return if freeSlots == 0 then RET_CONTAINERNOTENOUGHROOM else RET_NOERROR, freeSlots;
    }

    /** `__queryRemove` */
    method CylinderQueryRemove(c: Thing, x: Thing, count: nat) returns (ret: ReturnValue)
      requires Valid() && c in things && x in things
      ensures ret == QueryRemove(World(), c, x, count)
    {
      hide Forest, Linked, ChainOk, ListOk;
      var index := IndexOf(c.list, x);
      if index == -1 || count == 0 || (x.typ.stackable && count > x.count) {
        return RET_NOTPOSSIBLE;
      }
      return if !x.typ.moveable || x.uniqueId != 0 then RET_NOTMOVEABLE else RET_NOERROR;
    }

    /** `__queryDestination` */
    method CylinderDestination(c: Thing, index: int) returns (dest: Destination)
      requires Valid() && c in things
      ensures dest == QueryDestination(World(), c, index)
      ensures KnownDestination(World(), dest)
    {
      hide Forest, Linked, ChainOk, ListOk, KnownDestination;
      DestinationKnown(World(), c, index);
      ThingOk(World(), c);
      if c.typ.kind.Tile? {
        return Destination(c, index, GetThing(c.list, 0));
      }
      if index == 254 {
        var p := c.parent;
        return Destination(if p != null && !p.typ.kind.Tile? then p else c, INDEX_WHEREEVER, null);
      }
      if index == 255 {
        return Destination(c, INDEX_WHEREEVER, null);
      }
      var at := if index >= c.typ.capacity then INDEX_WHEREEVER else index;
      var item := GetThing(c.list, at);
      if item != null && !item.typ.kind.Plain? {
        return Destination(item, INDEX_WHEREEVER, null);
      }
      return Destination(c, at, item);
    }

    // -------------------------------------------------------------- changes

    method SetParent(x: Thing, p: Thing?)
      requires x in things
      modifies x`parent
      ensures x.parent == p && Parents() == old(Parents())[x := p]
    {
      x.parent := p;
    }

    method SetItems(c: Thing, list: seq<Thing>)
      requires c in things
      modifies c`list
      ensures c.list == list && Lists() == old(Lists())[c := list]
    {
      c.list := list;
    }

    /** `__addThing` */
    method CylinderAdd(c: Thing, index: int, x: Thing)
      requires Valid() && c in things && x in things
      modifies this`above, c`list, x`parent
      ensures World() == AddThing(old(World()), c, index, x)
    {
      hide *;
      ValidMeans();
      ghost var st := World();
      ForestKeys(st);
      InState(c);
      WorldIs();
      AddRefused(st, c, index, x);
      if !c.typ.kind.Tile? && index >= c.typ.capacity {
        return;
      }
      SetParent(x, c);
      SetItems(c, [x] + c.list);
      above := Link(st, c, 0, x).above;
      WorldIs();
      AddIs(st, c, index, x, World());
    }

    /** `__updateThing` */
    method CylinderUpdate(x: Thing, count: nat)
      requires Valid() && x in things
      modifies x`count
      ensures World() == SetCount(old(World()), x, count)
    {
      hide Forest, Linked, ChainOk, ListOk;
      ghost var st := World();
      ForestKeys(st);
      x.count := LowByte(count);
      assert Counts() == st.count[x := LowByte(count)];
    }

    /** `__removeThing` */
    method CylinderRemove(c: Thing, x: Thing, n: nat)
      requires Valid() && c in things && x in things
      modifies this`above, c`list, x`parent, x`count
      ensures ListOk(old(World()), c)
      ensures World() == RemoveThing(old(World()), c, x, n)
    {
      hide *;
      ValidMeans();
      ghost var st := World();
      ForestKeys(st);
      InState(c);
      InState(x);
      WorldIs();
      RemoveIs(st, c, x, n);
      var index := IndexOf(c.list, x);
      if index == -1 {
        return;
      }
      if x.typ.stackable && n != x.count {
        CylinderUpdate(x, Max(0, x.count - n));
      } else {
        Detach(c, x, index);
      }
    }

    /** The item at the index leaves the list. */
    method Detach(c: Thing, x: Thing, index: nat)
      requires c in things && x in things && x.parent == c && index < |c.list| && c.list[index] == x
      requires x !in c.list[..index] && SameKeys(World())
      modifies this`above, c`list, x`parent
      ensures x in old(World()).All() && old(World()).parent[x] == c && c in old(World()).All()
      ensures World() == Unlink(old(World()), x)
    {
      hide *;
      ghost var st := World();
      InState(c);
      InState(x);
      WorldIs();
      WithoutAt(c.list, index);
      SetParent(x, null);
      SetItems(c, c.list[..index] + c.list[index + 1..]);
      above := Unlink(st, x).above;
      WorldIs();
      UnlinkIs(st, x, World());
    }

    /** `__replaceThing` */
    method CylinderReplace(c: Thing, index: nat, x: Thing)
      requires Valid() && c in things && x in things && x !in c.list
      modifies this`above, c`list, x`parent, set t | t in things :: t`parent
      ensures World() == ReplaceThing(old(World()), c, index, x)
    {
      hide *;
      ValidMeans();
      ghost var st := World();
      InState(c);
      WorldIs();
      ReplaceIs(st, c, index, x);
      if index < |c.list| {
        var was := c.list[index];
        ListItem(st, c, was);
        SetItems(c, c.list[..index] + [x] + c.list[index + 1..]);
        SetParent(was, null);
        SetParent(x, c);
        above := ReplaceThing(st, c, index, x).above;
        WorldIs();
      }
    }

    /** A new object becomes part of the world. */
    ghost method Include(y: Thing)
      requires y !in things && y.parent == null && y.list == []
      modifies this`things
      ensures things == old(things) + {y}
      ensures Parents() == old(Parents())[y := null] && Lists() == old(Lists())[y := []]
      ensures Counts() == old(Counts())[y := y.count]
    {
      things := things + {y};
    }

    /** `Item::CreateItem` */
    method CreateItem(typ: ThingType, count: nat) returns (y: Thing)
      requires Valid()
      modifies this
      ensures fresh(y) && y.typ == typ && things == old(things) + {y}
      ensures World() == Create(old(World()), y, count)
    {
      hide *;
      ValidMeans();
      ghost var st := World();
      WorldIs();
      y := new Thing(typ, 0, 0, LowByte(count));
      Include(y);
      above := above[y := {}];
      WorldIs();
      CreateIs(st, y, count, World());
    }

    /** `FreeThing` */
    method FreeThing(x: Thing)
      requires Valid() && x in things
      modifies this`released
      ensures World() == Free(old(World()), x)
    {
      hide Forest, Linked, ChainOk, ListOk;
      ForestKeys(World());
      released := released + {x};
    }

    /** `isRemoved` walks up the parents. */
    method IsGone(t: Thing) returns (gone: bool)
      requires Valid() && t in things
      ensures gone <==> IsRemoved(World(), t)
    {
      hide Forest, Linked, ChainOk, ListOk;
      ghost var st := World();
      ForestKeys(st);
      var aux := t;
      while !aux.typ.kind.Tile?
        invariant aux in things && st == World()
        invariant IsRemoved(st, t) <==> IsRemoved(st, aux)
        decreases |st.above[aux]|
      {
        RemovedParent(st, aux);
        if aux.parent == null {
          return true;
        }
        SmallerAbove(st, aux);
        aux := aux.parent;
      }
      return false;
    }

    // -------------------------------------------------------------- moving

    /** `internalMoveItem` */
    method InternalMoveItem(from: Thing, to: Thing, index: int, x: Thing, count: nat, noLimit: bool)
      returns (ret: ReturnValue, ghost y: Thing)
      requires Valid() && from in things && to in things && x in things && !to.typ.kind.Plain?
      modifies this, things
      ensures Valid() && fresh(y) && y.typ == x.typ && fresh(things - old(things))
      ensures (ret, World()) == Move(old(World()), from, to, index, x, count, noLimit, y)
    {
      hide *;
      ValidMeans();
      ghost var st := World();
      ForestKeys(st);
      InState(x);
      y := new Thing.Spare(x.typ);
      MoveDestination(st, from, to, index);
      PlanIs(st, from, to, index, x, count, noLimit);
      MoveOfPlan(st, from, to, index, x, count, noLimit, y);
      var dest := CylinderDestination(to, index);
      DestKnown(st, dest);
      if dest.item == x {
        return RET_NOERROR, y;
      }
      ret := CylinderQueryAdd(dest.c, dest.index, x, count, noLimit);
      if ret != RET_NOERROR {
        return;
      }
      var retMax, max := CylinderMaxCount(dest.c, dest.index, x, count, noLimit);
      if retMax != RET_NOERROR && max == 0 {
        return retMax, y;
      }
      var m := if x.typ.stackable then Min(count, max) else max;
      ret := CylinderQueryRemove(from, x, m);
      if ret != RET_NOERROR {
        return;
      }
      PlanSound(st, from, to, index, x, count, noLimit);
      y := CarryOut(from, x, dest, m);
      MoveOfPlan(st, from, to, index, x, count, noLimit, y);
      if x.typ.stackable && max < count {
        ret := retMax;
      }
    }

    /** The part of `internalMoveItem` that changes the world. */
    method CarryOut(from: Thing, x: Thing, dest: Destination, m: nat) returns (ghost y: Thing)
      requires Valid() && KnownDestination(World(), dest)
      requires Sound(World(), from, x, dest, m, Merged(World(), dest, x, m))
      modifies this, things
      ensures Valid() && fresh(y) && y.typ == x.typ && fresh(things - old(things))
      ensures World() == Moved(old(World()), from, x, dest, m, Merged(old(World()), dest, x, m), y)
    {
      hide *;
      ValidMeans();
      ghost var st := World();
      ForestKeys(st);
      DestKnown(st, dest);
      ghost var k := Merged(st, dest, x, m);
      SoundKnown(st, from, x, dest, m, k);
      NotTile(st, from, x);
      y := new Thing.Spare(x.typ);
      if x.typ.stackable {
        var n := TakeOff(from, x, dest, m);
        ValidMeans();
        y := PutDown(x, dest, m, n);
        StackMoved(st, from, x, dest, m, k, y);
      } else {
        TakenForest(st, from, x, dest, m, k);
        WholeTaken(st, from, x, dest, m, k, y);
        CylinderRemove(from, x, m);
        ValidMeans();
        CylinderAdd(dest.c, dest.index, x);
      }
      MovedForest(st, from, x, dest, m, k, y);
      ValidMeans();
    }

    /** The stack gives up `m` items; the item at the destination takes what it can of them. */
    method TakeOff(from: Thing, x: Thing, dest: Destination, m: nat) returns (n: nat)
      requires Valid() && KnownDestination(World(), dest)
      requires Sound(World(), from, x, dest, m, Merged(World(), dest, x, m))
      requires x.typ.stackable
      modifies this`above, things
      ensures Valid() && things == old(things) && n == Merged(old(World()), dest, x, m)
      ensures World() == Taken(old(World()), from, x, dest, m, n)
    {
      hide *;
      ValidMeans();
      ghost var st := World();
      ForestKeys(st);
      DestKnown(st, dest);
      ghost var k := Merged(st, dest, x, m);
      SoundKnown(st, from, x, dest, m, k);
      TakenForest(st, from, x, dest, m, k);
      RemoveForest(st, from, x, m);
      RoomStays(st, from, x, dest, m);
      CylinderRemove(from, x, m);
      ValidMeans();
      n := 0;
      if dest.item != null && dest.item.typ.id == x.typ.id {
        InState(dest.item);
        n := Min(Room(dest.item.count), m);
        CylinderUpdate(dest.item, dest.item.count + n);
        ValidMeans();
      }
    }

    /** What did not merge becomes a new stack; a stack used up is handed over for deletion. */
    method PutDown(x: Thing, dest: Destination, m: nat, n: nat) returns (ghost y: Thing)
      requires Valid() && x in things && dest.c in things && n <= m
      modifies this, things
      ensures fresh(y) && y.typ == x.typ && fresh(things - old(things))
      ensures World() == Arrived(old(World()), x, dest, m, n, y)
    {
      hide *;
      ValidMeans();
      ghost var st := World();
      ForestKeys(st);
      FreeForest(st, x);
      y := new Thing.Spare(x.typ);
      var moveItem: Thing? := null;
      if m - n > 0 {
        moveItem := CreateItem(x.typ, m - n);
        y := moveItem;
        CreateForest(st, y, m - n);
        FreeForest(World(), x);
        ValidMeans();
      }
      ArrivedIs(st, x, dest, m, n, y);
      var gone := IsGone(x);
      if gone {
        FreeThing(x);
      }
      ValidMeans();
      if moveItem != null {
        CylinderAdd(dest.c, dest.index, moveItem);
      }
    }

    // -------------------------------------------------------------- adding and removing

    /** `internalAddItem`; with `test` it only answers. */
    method InternalAddItem(to: Thing, index: int, x: Thing, noLimit: bool, test: bool)
      returns (ret: ReturnValue, ghost y: Thing)
      requires Valid() && to in things && x in things && !to.typ.kind.Plain? && !x.typ.kind.Tile?
      requires !test ==> x.parent == null
      modifies this, things
      ensures Valid() && fresh(y) && y.typ == x.typ && fresh(things - old(things))
      ensures var (r, end) := AddItem(old(World()), to, index, x, noLimit, y);
              ret == r && World() == if test then old(World()) else end
    {
      hide *;
      ValidMeans();
      ghost var st := World();
      ForestKeys(st);
      InState(x);
      y := new Thing.Spare(x.typ);
      AddItemIs(st, to, index, x, noLimit, y);
      var dest := CylinderDestination(to, index);
      DestKnown(st, dest);
      ret := CylinderQueryAdd(dest.c, dest.index, x, x.count, noLimit);
      if ret != RET_NOERROR {
        return;
      }
      var max;
      ret, max := CylinderMaxCount(dest.c, dest.index, x, x.count, noLimit);
      if ret != RET_NOERROR {
        return;
      }
      var m := if x.typ.stackable then Min(x.count, max) else max;
      if !test {
        AddPlanSound(st, to, index, x, noLimit);
        y := PutIn(x, dest, m);
        AddItemIs(st, to, index, x, noLimit, y);
      }
    }

    /** The part of `internalAddItem` that changes the world. */
    method PutIn(x: Thing, dest: Destination, m: nat) returns (ghost y: Thing)
      requires Valid() && KnownDestination(World(), dest)
      requires AddSound(World(), x, dest, m, Merged(World(), dest, x, m)) && !x.typ.kind.Tile?
      modifies this, things
      ensures Valid() && fresh(y) && y.typ == x.typ && fresh(things - old(things))
      ensures x in old(things)
      ensures World() == Added(old(World()), x, dest, m, Merged(old(World()), dest, x, m), y)
    {
      hide *;
      ValidMeans();
      ghost var st := World();
      ForestKeys(st);
      DestKnown(st, dest);
      ghost var k := Merged(st, dest, x, m);
      AddKnown(st, x, dest, m, k);
      InState(x);
      ToppedForest(st, x, dest, k);
      var n := Merge(x, dest, m);
      ValidMeans();
      InState(x);
      y := PutRest(x, dest, m, n);
      AddedIs(st, x, dest, m, k, y);
      AddedForest(st, x, dest, m, k, y);
      ValidMeans();
    }

    /** What did not merge is put in: nothing, a new stack, or the item itself. */
    method PutRest(x: Thing, dest: Destination, m: nat, n: nat) returns (ghost y: Thing)
      requires Valid() && x in things && dest.c in things && n <= m
      modifies this, things
      ensures fresh(y) && y.typ == x.typ && fresh(things - old(things))
      ensures SameKeys(old(World())) && x in old(World()).All() && dest.c in old(World()).All()
      ensures World() == if x.typ.stackable && m == n then Free(old(World()), x)
                         else if x.typ.stackable && m - n != old(World()).count[x]
                         then AddThing(Create(old(World()), y, m - n), dest.c, dest.index, y)
                         else AddThing(old(World()), dest.c, dest.index, x)
    {
      hide *;
      ValidMeans();
      ForestKeys(World());
      InState(x);
      y := new Thing.Spare(x.typ);
      if x.typ.stackable && m == n {
        FreeThing(x);
      } else if x.typ.stackable && m - n != x.count {
        y := NewStack(x.typ, m - n, dest);
      } else {
        CylinderAdd(dest.c, dest.index, x);
      }
    }

    /** What is too much for the item at the destination becomes a new stack. */
    method NewStack(typ: ThingType, count: nat, dest: Destination) returns (y: Thing)
      requires Valid() && dest.c in things
      modifies this, things
      ensures fresh(y) && y.typ == typ && things == old(things) + {y}
      ensures World() == AddThing(Create(old(World()), y, count), dest.c, dest.index, y)
    {
      hide *;
      ValidMeans();
      ghost var st := World();
      ForestKeys(st);
      y := CreateItem(typ, count);
      CreateForest(st, y, count);
      ValidMeans();
      CylinderAdd(dest.c, dest.index, y);
    }

    /** The item at the destination takes what it can of a stack. */
    method Merge(x: Thing, dest: Destination, m: nat) returns (n: nat)
      requires Valid() && x in things && KnownDestination(World(), dest) && dest.item != x
      modifies things`count
      ensures SameKeys(old(World())) && (dest.item != null ==> dest.item in old(World()).All())
      ensures n == Merged(old(World()), dest, x, m) && x.count == old(x.count)
      ensures World() == Topped(old(World()), x, dest, n)
    {
      hide *;
      ValidMeans();
      ForestKeys(World());
      DestKnown(World(), dest);
      MergedIs(World(), x, dest, m);
      n := 0;
      if x.typ.stackable && dest.item != null && dest.item.typ.id == x.typ.id {
        InState(dest.item);
        n := Min(Room(dest.item.count), m);
        CylinderUpdate(dest.item, dest.item.count + n);
      }
    }

    /** `internalRemoveItem`; -1 stands for the whole item, and with `test` it only answers. */
    method InternalRemoveItem(x: Thing, count: int, test: bool) returns (ret: ReturnValue)
      requires Valid() && x in things
      modifies this, things
      ensures Valid() && things == old(things)
      ensures var (r, end) := RemoveItem(old(World()), x, count);
              ret == r && World() == if test then old(World()) else end
    {
      hide *;
      ValidMeans();
      ghost var st := World();
      ForestKeys(st);
      InState(x);
      RemoveItemIs(st, x, count);
      var cylinder := x.parent;
      if cylinder == null {
        return RET_NOTPOSSIBLE;
      }
      var n: nat := Asked(count, x.count);
      ret := CylinderQueryRemove(cylinder, x, n);
      if ret != RET_NOERROR && ret != RET_NOTMOVEABLE {
        return;
      }
      if x.typ.kind.Depot? {
        return RET_NOTPOSSIBLE;
      }
      if !test {
        RemovedForest(st, cylinder, x, n);
        RemoveForest(st, cylinder, x, n);
        CylinderRemove(cylinder, x, n);
        ValidMeans();
        var gone := IsGone(x);
        if gone {
          FreeThing(x);
        }
        ValidMeans();
      }
      ret := RET_NOERROR;
    }
  }

  lemma MoveDestination(st: State, from: Thing, to: Thing, index: int)
    requires Forest(st) && from in st.All() && to in st.All()
    ensures var dest := QueryDestination(st, to, index);
            KnownDestination(st, dest) && dest.c in st.All() && Known(st, st.list[dest.c]) && ListOk(st, from)
  {
    hide Forest, Linked, ChainOk, ListOk, ParentOk, Known, KnownDestination, QueryDestination;
    ThingOk(st, from);
    DestinationKnown(st, to, index);
    DestKnown(st, QueryDestination(st, to, index));
    KidsFit(st, QueryDestination(st, to, index).c);
  }

  lemma PlanIs(st: State, from: Thing, to: Thing, index: int, x: Thing, count: nat, noLimit: bool)
    requires Forest(st) && from in st.All() && to in st.All() && x in st.All()
    ensures var dest := QueryDestination(st, to, index);
            && KnownDestination(st, dest) && dest.c in st.All() && Known(st, st.list[dest.c]) && ListOk(st, from)
            && var ret := QueryAdd(st, dest.c, dest.index, x, count, noLimit);
               var (retMax, max) := QueryMaxCount(st, dest.c, dest.index, x, count, noLimit);
               var m: nat := if x.typ.stackable then Min(count, max) else max;
               var retRemove := QueryRemove(st, from, x, m);
               MovePlan(st, from, to, index, x, count, noLimit)
               == if dest.item == x then Refuse(RET_NOERROR)
                  else if ret != RET_NOERROR then Refuse(ret)
                  else if retMax != RET_NOERROR && max == 0 then Refuse(retMax)
                  else if retRemove != RET_NOERROR then Refuse(retRemove)
                  else Go(dest, m, Merged(st, dest, x, m), if x.typ.stackable && max < count then retMax else RET_NOERROR)
  {
    MoveDestination(st, from, to, index);
    hide Forest, Linked, ChainOk, ListOk, Known, KnownDestination, Merged;
    hide QueryDestination, QueryAdd, QueryMaxCount, QueryRemove;
  }

  lemma MoveOfPlan(st: State, from: Thing, to: Thing, index: int, x: Thing, count: nat, noLimit: bool, y: Thing)
    requires Forest(st) && from in st.All() && to in st.All() && x in st.All()
    ensures var plan, (r, end) := MovePlan(st, from, to, index, x, count, noLimit),
                                  Move(st, from, to, index, x, count, noLimit, y);
            && r == plan.ret && (plan.Refuse? ==> end == st)
            && (plan.Go? && plan.n <= plan.m ==>
                  && SameKeys(st) && KnownDestination(st, plan.dest) && ListOk(st, from)
                  && end == Moved(st, from, x, plan.dest, plan.m, plan.n, y))
  {
    hide Linked, ChainOk, ParentOk, KnownDestination, QueryDestination, QueryAdd, QueryMaxCount, QueryRemove, Merged, Moved;
    MoveDestination(st, from, to, index);
  }

  lemma AddItemIs(st: State, to: Thing, index: int, x: Thing, noLimit: bool, y: Thing)
    requires Forest(st) && to in st.All() && x in st.All()
    ensures var dest := QueryDestination(st, to, index);
            && KnownDestination(st, dest) && dest.c in st.All() && Known(st, st.list[dest.c])
            && var (r, end) := AddItem(st, to, index, x, noLimit, y);
               var ret := QueryAdd(st, dest.c, dest.index, x, st.count[x], noLimit);
               var (retMax, max) := QueryMaxCount(st, dest.c, dest.index, x, st.count[x], noLimit);
               var m := if x.typ.stackable then Min(st.count[x], max) else max;
               var plan := AddPlan(st, to, index, x, noLimit);
               if ret != RET_NOERROR then r == ret && end == st
               else if retMax != RET_NOERROR then r == retMax && end == st
               else r == RET_NOERROR && plan == Go(dest, m, Merged(st, dest, x, m), RET_NOERROR)
                    && end == Added(st, x, dest, m, Merged(st, dest, x, m), y)
  {
    hide Linked, ChainOk, Added, QueryDestination, QueryAdd, QueryMaxCount, Merged;
    DestinationKnown(st, to, index);
    KidsFit(st, QueryDestination(st, to, index).c);
  }

  lemma MergedIs(st: State, x: Thing, dest: Destination, m: nat)
    requires SameKeys(st) && KnownDestination(st, dest)
    ensures var n := Merged(st, dest, x, m);
            if x.typ.stackable && dest.item != null && dest.item.typ.id == x.typ.id
            then && dest.item in st.All() && n == Min(Room(st.count[dest.item]), m)
                 && Topped(st, x, dest, n) == SetCount(st, dest.item, st.count[dest.item] + n)
            else n == 0 && Topped(st, x, dest, n) == st
  {
  }

  lemma AddedIs(st: State, x: Thing, dest: Destination, m: nat, n: nat, y: Thing)
    requires SameKeys(st) && x in st.All() && KnownDestination(st, dest) && n <= m && dest.c in st.All()
    ensures var end, st1 := Added(st, x, dest, m, n, y), Topped(st, x, dest, n);
            end == if x.typ.stackable && m == n then Free(st1, x)
                   else if x.typ.stackable && m - n != st.count[x]
                   then AddThing(Create(st1, y, m - n), dest.c, dest.index, y)
                   else AddThing(st1, dest.c, dest.index, x)
  {
  }

  lemma RemoveItemIs(st: State, x: Thing, count: int)
    requires Forest(st) && x in st.All()
    ensures st.parent[x] != null ==> st.parent[x] in st.All() && ListOk(st, st.parent[x])
    ensures var (r, end), c := RemoveItem(st, x, count), st.parent[x];
            if c == null then r == RET_NOTPOSSIBLE && end == st
            else
              var n: nat := Asked(count, st.count[x]);
              var ret := QueryRemove(st, c, x, n);
              if ret != RET_NOERROR && ret != RET_NOTMOVEABLE then r == ret && end == st
              else if x.typ.kind.Depot? then r == RET_NOTPOSSIBLE && end == st
              else
                && r == RET_NOERROR && end == Removed(st, c, x, n) && RemoveSound(st, c, x, n)
                && var st1 := RemoveThing(st, c, x, n);
                   end == if IsRemoved(st1, x) then Free(st1, x) else st1
  {
    hide Linked, ChainOk, RemoveThing, Free, IsRemoved, ParentOk, ListOk, SameKeys;
    ThingOk(st, x);
    if st.parent[x] != null {
      ParentKnown(st, x);
    }
  }

  lemma ParentKnown(st: State, x: Thing)
    requires Forest(st) && x in st.All() && st.parent[x] != null
    ensures SameKeys(st) && st.parent[x] in st.All() && ListOk(st, st.parent[x])
  {
    assert ParentOk(st, x);
  }

  lemma ArrivedIs(st: State, x: Thing, dest: Destination, m: nat, n: nat, y: Thing)
    requires SameKeys(st) && x in st.All() && dest.c in st.All() && n <= m && y !in st.All()
    ensures var st3 := if m > n then Create(st, y, m - n) else st;
            var st4 := if IsRemoved(st3, x) then Free(st3, x) else st3;
            Arrived(st, x, dest, m, n, y) == if m > n then AddThing(st4, dest.c, dest.index, y) else st4
  {
    hide AddThing;
    CreateFree(st, x, y, m - n);
  }

  lemma CreateFree(st: State, x: Thing, y: Thing, n: nat)
    requires SameKeys(st) && x in st.All() && y !in st.All()
    ensures Free(Create(st, y, n), x) == Create(Free(st, x), y, n)
    ensures IsRemoved(Create(st, y, n), x) <==> IsRemoved(st, x)
  {
  }

  lemma WholeTaken(st: State, from: Thing, x: Thing, dest: Destination, m: nat, n: nat, y: Thing)
    requires SameKeys(st) && Sound(st, from, x, dest, m, n) && !x.typ.stackable
    ensures from in st.All() && x in st.All() && ListOk(st, from) && KnownDestination(st, dest) && n <= m
    ensures Taken(st, from, x, dest, m, n) == RemoveThing(st, from, x, m)
    ensures dest.c in st.All()
    ensures Moved(st, from, x, dest, m, n, y) == AddThing(RemoveThing(st, from, x, m), dest.c, dest.index, x)
  {
    hide AddThing;
  }

  /** The removal does not change how much the item at the destination can take. */
  lemma RoomStays(st: State, from: Thing, x: Thing, dest: Destination, m: nat)
    requires SameKeys(st) && KnownDestination(st, dest) && x.typ.stackable
    requires Sound(st, from, x, dest, m, Merged(st, dest, x, m))
    ensures from in st.All() && x in st.All() && ListOk(st, from)
    ensures var st1, n := RemoveThing(st, from, x, m), Merged(st, dest, x, m);
            if dest.item != null && dest.item.typ.id == x.typ.id
            then && dest.item in st.All() && st1.count[dest.item] == st.count[dest.item]
                 && n == Min(Room(st.count[dest.item]), m)
                 && Taken(st, from, x, dest, m, n) == SetCount(st1, dest.item, st1.count[dest.item] + n)
            else n == 0 && Taken(st, from, x, dest, m, n) == st1
  {
    hide Sound, ListOk, KnownDestination, RemoveThing, SetCount;
    DestKnown(st, dest);
    SoundKnown(st, from, x, dest, m, Merged(st, dest, x, m));
    SoundMerged(st, from, x, dest, m, Merged(st, dest, x, m));
    if dest.item != null {
      RemovedCount(st, from, x, m, dest.item);
    }
  }

  lemma RemovedParent(st: State, t: Thing)
    requires Forest(st) && t in st.All() && !t.typ.kind.Tile?
    ensures if st.parent[t] == null then IsRemoved(st, t)
            else st.parent[t] in st.All() && (IsRemoved(st, t) <==> IsRemoved(st, st.parent[t]))
  {
    assert ChainOk(st, t);
  }

  lemma OneKnown(st: State, c: Thing)
    requires c in st.All()
    ensures Known(st, [c])
  {
  }

  lemma FirstKnown(st: State, q: seq<Thing>)
    requires Forest(st) && Known(st, q) && q != []
    ensures q[0] in st.All() && q[0] in st.list && Known(st, st.list[q[0]])
  {
    KidsFit(st, q[0]);
  }

  lemma FirstVisited(st: State, q: seq<Thing>, t: Thing)
    requires Forest(st) && Known(st, q) && q != []
    ensures q[0] in st.list && (t in st.list[q[0]] ==> t in Visit(st, q))
  {
    hide Forest;
    NextFits(st, q);
    VisitStep(st, q);
  }

  lemma SumStart(st: State, s: seq<Thing>)
    requires Forest(st) && Known(st, s)
    ensures st.count.Keys == st.All() && Known(st, s[..0]) && SumWeights(st, s[..0]) == 0.0
  {
  }

  lemma BoxWeight(t: Thing, count: nat)
    requires !t.typ.kind.Plain?
    ensures OwnWeight(t, count) == t.typ.weight
  {
  }

  lemma NothingInside(st: State)
    requires Forest(st)
    ensures Known(st, []) && Inside(st, []) == 0.0
  {
  }

  lemma SumWeightsPush(st: State, s: seq<Thing>, i: nat)
    requires st.count.Keys == st.All() && Known(st, s) && i < |s|
    ensures Known(st, s[..i + 1]) && Known(st, s[..i])
    ensures SumWeights(st, s[..i + 1]) == SumWeights(st, s[..i]) + OwnWeight(s[i], st.count[s[i]])
  {
    hide OwnWeight;
    assert s[..i + 1] == s[..i] + [s[i]];
    SumWeightsConcat(st, s[..i], [s[i]]);
  }

  lemma WeightOn(st: State, q: seq<Thing>, rest: seq<Thing>)
    requires Forest(st) && Known(st, q) && q != [] && q[0] in st.list
    requires Scanned(rest, q, st.list[q[0]], |st.list[q[0]]|)
    ensures Known(st, rest) && Size(st, rest) < Size(st, q) && Known(st, st.list[q[0]]) && SameKeys(st)
    ensures Inside(st, q) == SumWeights(st, st.list[q[0]]) + Inside(st, rest)
  {
    hide Forest, Linked, ChainOk, ListOk, Visit, BoxesOf, WeightOf, OwnWeight, Scanned;
    ScanEnd(rest, q, st.list[q[0]]);
    NextFits(st, q);
    KidsFit(st, q[0]);
    WeightSplit(st, st.list[q[0]]);
    InsideConcat(st, q[1..], BoxesOf(st.list[q[0]]));
  }

  lemma WholeWeight(st: State, c: Thing)
    requires Forest(st) && c in st.All() && !c.typ.kind.Plain?
    ensures WeightOf(st, [c]) == c.typ.weight + Inside(st, [c])
  {
    hide Linked, ChainOk, ListOk, Visit, BoxesOf;
    KidsFit(st, c);
  }
}
