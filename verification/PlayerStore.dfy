/** The loops that save a player's items and load them again. */
module PlayerStore {
  import opened Bytes
  import opened ItemRecord
  import opened ItemRows
  import opened PlayerRows

  // ---------------------------------------------------------------- saving

  lemma {:induction false} BoxesSnoc(types: Types, items: seq<Item>, item: Item, next: nat)
    ensures Boxes(types, items + [item], next)
            == Boxes(types, items, next) + if IsBox(types, item) then [Pending(item, next + |items|)] else []
    decreases |items|
  {
    if items == [] {
      assert items + [item] == [item];
    } else {
      assert (items + [item])[1..] == items[1..] + [item] && (items + [item])[0] == items[0];
      BoxesSnoc(types, items[1..], item, next + 1);
    }
  }

  /** One turn of the queue: a row for every item of the container, and its containers to the end of the queue. */
  method NumberKids(types: Types, kids: seq<Item>, parentid: nat, runningID: nat, queue: seq<Pending>)
    returns (rows: seq<Row>, stack: seq<Pending>, lastID: nat)
    ensures rows == KidRows(types, kids, parentid, runningID + 1)
    ensures stack == queue + Boxes(types, kids, runningID + 1)
    ensures lastID == runningID + |kids|
  {
    hide Boxes, KidRows, ToRow, IsBox;
    rows, stack, lastID := [], queue, runningID;
    NoKids(types, parentid, runningID + 1);
    var i := 0;
    while i < |kids|
      invariant 0 <= i <= |kids| && lastID == runningID + i
      invariant rows == KidRows(types, kids[..i], parentid, runningID + 1)
      invariant stack == queue + Boxes(types, kids[..i], runningID + 1)
    {
      lastID := lastID + 1;
      var item := kids[i];
      KidRowsSnoc(types, kids[..i], item, parentid, runningID + 1);
      BoxesSnoc(types, kids[..i], item, runningID + 1);
      assert kids[..i + 1] == kids[..i] + [item];
      if IsBox(types, item) {
        stack := stack + [Pending(item, lastID)];
      }
      rows := rows + [ToRow(types, item.info, 0, lastID, parentid)];
      i := i + 1;
    }
    assert kids[..i] == kids;
  }

  lemma NoKids(types: Types, parentid: nat, next: nat)
    ensures KidRows(types, [], parentid, next) == [] && Boxes(types, [], next) == []
  {
  }

  lemma NoQueue(types: Types, next: nat)
    ensures Bfs(types, [], next) == []
  {
  }

  /** Works the queue off, front first, numbering on from `runningID`. */
  method WorkOff(types: Types, queue: seq<Pending>, runningID: nat) returns (rows: seq<Row>, lastID: nat)
    ensures rows == Bfs(types, queue, runningID + 1) && lastID == runningID + |rows|
  {
    hide Boxes, KidRows, Bfs, Left;
    var stack := queue;
    lastID := runningID;
    rows := [];
    while |stack| > 0
      invariant lastID == runningID + |rows|
      invariant rows + Bfs(types, stack, lastID + 1) == Bfs(types, queue, runningID + 1)
      decreases Left(stack)
    {
      var container, parentid := stack[0].box, stack[0].sid;
      ghost var before, todo, first := rows, stack, lastID;
      BfsStep(types, todo, first + 1);
      var more;
      more, stack, lastID := NumberKids(types, container.kids, parentid, lastID, stack[1..]);
      rows := rows + more;
      assert before + (more + Bfs(types, stack, lastID + 1)) == rows + Bfs(types, stack, lastID + 1);
    }
    NoQueue(types, lastID + 1);
  }

  lemma KidRowsSnoc(types: Types, items: seq<Item>, item: Item, pid: nat, next: nat)
    ensures KidRows(types, items + [item], pid, next)
            == KidRows(types, items, pid, next) + [ToRow(types, item.info, 0, next + |items|, pid)]
  {
  }

  lemma TopsSnoc(types: Types, tops: seq<Top>, top: Top, next: nat)
    ensures TopRows(types, tops + [top], next)
            == TopRows(types, tops, next) + [ToRow(types, top.item.info, top.slot, next + |tops|, 0)]
    ensures Items(tops + [top]) == Items(tops) + [top.item]
  {
  }

  method SavePlayer(types: Types, p: Player) returns (rows: seq<Row>)
    requires ValidPlayer(types, p)
    ensures rows == SaveRows(types, p) && |p.inventory| == SLOTS
    ensures forall s: nat :: 1 <= s < SLOTS ==> SlotRows(types, rows, s, p.inventory[s])
    ensures forall d: nat :: d < |p.depots| ==> SlotRows(types, rows, p.depots[d].id + 100, Some(p.depots[d].locker))
  {
    hide *;
    SlotsThere(types, p);
    var runningID, depotRows;
    rows, runningID := SaveInventoryForest(types, p.inventory);
    depotRows, runningID := SaveDepotForest(types, p.depots, runningID);
    SavedRows(types, p, rows);
    rows := rows + depotRows;
    forall s: nat | 1 <= s < SLOTS ensures SlotRows(types, rows, s, p.inventory[s]) {
      SlotSaved(types, p, s);
    }
    forall d: nat | d < |p.depots| ensures SlotRows(types, rows, p.depots[d].id + 100, Some(p.depots[d].locker)) {
      DepotSaved(types, p, d);
    }
  }

  method SaveInventoryForest(types: Types, inventory: seq<Option<Item>>) returns (rows: seq<Row>, runningID: nat)
    requires |inventory| == SLOTS
    ensures rows == ForestRows(types, InventoryTops(inventory, 1), 1) && runningID == |rows|
  {
    hide *;
    var stack, held;
    rows, stack, runningID := SaveInventory(types, inventory);
    ForestIs(types, InventoryTops(inventory, 1), 1, runningID + 1);
    held, runningID := WorkOff(types, stack, runningID);
    rows := rows + held;
  }

  method SaveDepotForest(types: Types, depots: seq<DepotEntry>, firstID: nat) returns (rows: seq<Row>, runningID: nat)
    ensures rows == ForestRows(types, DepotTops(depots), firstID + 1) && runningID == firstID + |rows|
  {
    hide *;
    var stack, held;
    rows, stack, runningID := SaveDepots(types, depots, firstID);
    ForestIs(types, DepotTops(depots), firstID + 1, runningID + 1);
    held, runningID := WorkOff(types, stack, runningID);
    rows := rows + held;
  }

  lemma ForestIs(types: Types, tops: seq<Top>, next: nat, next': nat)
    requires next' == next + |tops|
    ensures TopRows(types, tops, next) + Bfs(types, Boxes(types, Items(tops), next), next')
            == ForestRows(types, tops, next)
  {
    hide TopRows, Bfs, Boxes, Items;
  }

  lemma SavedRows(types: Types, p: Player, first: seq<Row>)
    requires first == ForestRows(types, InventoryTops(p.inventory, 1), 1)
    ensures first + ForestRows(types, DepotTops(p.depots), |first| + 1) == SaveRows(types, p)
  {
    hide ForestRows, InventoryTops, DepotTops;
  }

  lemma InventoryStep(inventory: seq<Option<Item>>, slotid: nat, tops: seq<Top>)
    requires slotid < |inventory|
    ensures tops + InventoryTops(inventory, slotid)
            == if inventory[slotid].None? then tops + InventoryTops(inventory, slotid + 1)
               else tops + [Top(slotid, inventory[slotid].value)] + InventoryTops(inventory, slotid + 1)
  {
    if inventory[slotid].Some? {
      ConcatAssoc(tops, [Top(slotid, inventory[slotid].value)], InventoryTops(inventory, slotid + 1));
    } else {
      assert [] + InventoryTops(inventory, slotid + 1) == InventoryTops(inventory, slotid + 1);
    }
  }

  method SaveInventory(types: Types, inventory: seq<Option<Item>>)
    returns (rows: seq<Row>, stack: seq<Pending>, runningID: nat)
    requires |inventory| == SLOTS
    ensures var tops := InventoryTops(inventory, 1);
            && rows == TopRows(types, tops, 1) && stack == Boxes(types, Items(tops), 1) && runningID == |tops|
  {
    hide Boxes, TopRows, Items, InventoryTops, ToRow, IsBox;
    rows, stack, runningID := [], [], 0;
    ghost var tops: seq<Top> := [];
    NothingSaved(types, inventory, 1);
    var slotid := 1;
    while slotid <= 10
      invariant 1 <= slotid <= 11 && runningID == |tops|
      invariant tops + InventoryTops(inventory, slotid) == InventoryTops(inventory, 1)
      invariant rows == TopRows(types, tops, 1) && stack == Boxes(types, Items(tops), 1)
    {
      InventoryStep(inventory, slotid, tops);
      if inventory[slotid].Some? {
        var item := inventory[slotid].value;
        runningID := runningID + 1;
        rows := rows + [ToRow(types, item.info, slotid, runningID, 0)];
        if IsBox(types, item) {
          stack := stack + [Pending(item, runningID)];
        }
        TopsSnoc(types, tops, Top(slotid, item), 1);
        BoxesSnoc(types, Items(tops), item, 1);
        tops := tops + [Top(slotid, item)];
      }
      slotid := slotid + 1;
    }
    assert tops + [] == tops;
  }

  lemma NothingSaved(types: Types, inventory: seq<Option<Item>>, next: nat)
    ensures TopRows(types, [], next) == [] && Boxes(types, Items([]), next) == []
    ensures InventoryTops(inventory, |inventory|) == []
    ensures [] + InventoryTops(inventory, 1) == InventoryTops(inventory, 1)
  {
  }

  method SaveDepots(types: Types, depots: seq<DepotEntry>, firstID: nat)
    returns (rows: seq<Row>, stack: seq<Pending>, runningID: nat)
    ensures var tops := DepotTops(depots);
            && rows == TopRows(types, tops, firstID + 1) && stack == Boxes(types, Items(tops), firstID + 1)
            && runningID == firstID + |tops|
  {
    rows, stack, runningID := [], [], firstID;
    hide Boxes, TopRows, Items, DepotTops, ToRow, IsBox;
    ghost var tops: seq<Top> := [];
    NothingSaved(types, [], firstID + 1);
    var d := |depots|;
    while d > 0
      invariant 0 <= d <= |depots| && runningID == firstID + |tops|
      invariant |tops| == |depots| - d && tops == DepotTops(depots)[..|tops|]
      invariant rows == TopRows(types, tops, firstID + 1) && stack == Boxes(types, Items(tops), firstID + 1)
    {
      d := d - 1;
      var item := depots[d].locker;
      ghost var top := Top(depots[d].id + 100, item);
      DepotTopAt(depots, d);
      runningID := runningID + 1;
      rows := rows + [ToRow(types, item.info, depots[d].id + 100, runningID, 0)];
      if IsBox(types, item) {
        stack := stack + [Pending(item, runningID)];
      }
      TopsSnoc(types, tops, top, firstID + 1);
      BoxesSnoc(types, Items(tops), item, firstID + 1);
      tops := tops + [top];
    }
    assert tops == DepotTops(depots);
  }

  // ---------------------------------------------------------------- loading

  /** An item in memory; `itemlist` is in use for containers only. */
  class ItemObject {
    var info: Info
    var itemlist: seq<ItemObject>

    constructor (info: Info)
      ensures this.info == info && itemlist == []
    {
      this.info, itemlist := info, [];
    }

    /** `__internalAddThing` */
    method PushFront(item: ItemObject)
      modifies this`itemlist
      ensures itemlist == [item] + old(itemlist)
    {
      itemlist := [item] + itemlist;
    }
  }

  /** The objects reachable from `o` lie in `repr` and form `item`. */
  ghost predicate Denotes(o: ItemObject, item: Item, repr: set<ItemObject>)
    reads repr
    decreases item
  {
    && o in repr && o.info == item.info && |o.itemlist| == |item.kids|
    && forall i :: 0 <= i < |item.kids| ==> Denotes(o.itemlist[i], item.kids[i], repr)
  }

  /** The objects of the rows from index `from` on whose container is `pid`. */
  ghost function Linked(objs: seq<ItemObject>, rows: seq<Row>, pid: nat, from: nat): seq<ItemObject>
    requires |objs| == |rows|
    decreases |rows| - from
  {
    if from >= |rows| then []
    else if rows[from].pid == pid then [objs[from]] + Linked(objs, rows, pid, from + 1)
    else Linked(objs, rows, pid, from + 1)
  }

  lemma {:induction false} LinkedSkip(objs: seq<ItemObject>, rows: seq<Row>, pid: nat, from: nat, to: nat)
    requires |objs| == |rows| && from <= to && NoneOf(rows, pid, from, to)
    ensures Linked(objs, rows, pid, from) == Linked(objs, rows, pid, to)
    decreases |rows| - from
  {
    if from < to {
      LinkedSkip(objs, rows, pid, from + 1, to);
    }
  }

  /** The item lists after the walk down to index `from`: every container has its items with an index of at least that. */
  ghost predicate ListsFrom(types: Types, objs: seq<ItemObject>, rows: seq<Row>, lists: seq<seq<ItemObject>>, from: nat)
    requires |objs| == |rows|
  {
    && |lists| == |rows|
    && forall k :: 0 <= k < |rows| ==> lists[k] == ListFrom(types, objs, rows, k, from)
  }

  ghost function ListFrom(types: Types, objs: seq<ItemObject>, rows: seq<Row>, k: nat, from: nat): seq<ItemObject>
    requires |objs| == |rows| && k < |rows|
  {
    if IsContainer(types(rows[k].typ)) then Linked(objs, rows, k + 1, from) else []
  }

  /** One more item goes to the front of its container's list, if its container can hold items. */
  ghost function ListsNext(types: Types, objs: seq<ItemObject>, rows: seq<Row>, lists: seq<seq<ItemObject>>, k: nat):
    seq<seq<ItemObject>>
    requires |objs| == |rows| == |lists| && Numbered(rows) && k < |rows|
  {
    var p := rows[k].pid;
    if p != 0 && IsContainer(types(rows[p - 1].typ)) then lists[p - 1 := [objs[k]] + lists[p - 1]] else lists
  }

  lemma ListsStep(types: Types, objs: seq<ItemObject>, rows: seq<Row>, lists: seq<seq<ItemObject>>, k: nat)
    requires |objs| == |rows| && Numbered(rows) && k < |rows| && ListsFrom(types, objs, rows, lists, k + 1)
    ensures |lists| == |rows| && ListsFrom(types, objs, rows, ListsNext(types, objs, rows, lists, k), k)
  {
    hide ListFrom, IsContainer;
    forall i | 0 <= i < |rows|
      ensures ListsNext(types, objs, rows, lists, k)[i] == ListFrom(types, objs, rows, i, k)
    {
      ListStep(types, objs, rows, i, k);
    }
  }

  lemma ListStep(types: Types, objs: seq<ItemObject>, rows: seq<Row>, i: nat, k: nat)
    requires |objs| == |rows| && i < |rows| && k < |rows|
    ensures ListFrom(types, objs, rows, i, k)
            == (if rows[k].pid == i + 1 && IsContainer(types(rows[i].typ)) then [objs[k]] else [])
               + ListFrom(types, objs, rows, i, k + 1)
  {
    hide IsContainer;
  }

  /** The objects once all rows are linked. */
  ghost predicate AllLinked(types: Types, objs: seq<ItemObject>, rows: seq<Row>)
    reads objs
  {
    |objs| == |rows| &&
    forall k :: 0 <= k < |rows| ==>
      objs[k].info == FromRow(types, rows[k]) && objs[k].itemlist == ListFrom(types, objs, rows, k, 0)
  }

  ghost predicate AllDenote(os: seq<ItemObject>, items: seq<Item>, repr: set<ItemObject>)
    reads repr
  {
    |os| == |items| && forall i :: 0 <= i < |os| ==> Denotes(os[i], items[i], repr)
  }

  lemma {:induction false} TreeDenoted(types: Types, objs: seq<ItemObject>, rows: seq<Row>, repr: set<ItemObject>, k: nat)
    requires |objs| == |rows| && k < |rows| && Numbered(rows) && (forall o :: o in objs ==> o in repr)
    requires AllLinked(types, objs, rows)
    ensures Denotes(objs[k], Made(types, TreeAt(types, rows, k + 1)), repr)
    decreases |rows| - k - 1, 1
  {
    assert objs[k] in objs;
    if IsContainer(types(rows[k].typ)) {
      LinkedSkip(objs, rows, k + 1, 0, k + 1);
      TreesDenoted(types, objs, rows, repr, k + 1, k + 1);
    }
  }

  lemma {:induction false} TreesDenoted(types: Types, objs: seq<ItemObject>, rows: seq<Row>, repr: set<ItemObject>,
                                        pid: nat, from: nat)
    requires |objs| == |rows| && Numbered(rows) && (forall o :: o in objs ==> o in repr)
    requires AllLinked(types, objs, rows)
    ensures AllDenote(Linked(objs, rows, pid, from), MadeAll(types, Trees(types, rows, pid, from)), repr)
    decreases |rows| - from, 0
  {
    hide AllLinked, TreeAt, Denotes;
    if from < |rows| {
      TreesDenoted(types, objs, rows, repr, pid, from + 1);
      if rows[from].pid == pid {
        TreeDenoted(types, objs, rows, repr, from);
      }
    }
  }

  /** The row has no slot, an inventory slot, or is a locker with a depot's. */
  predicate WellPlaced(types: Types, row: Row) {
    row.slot < SLOTS || (row.slot >= 100 && types(row.typ).kind == Locker)
  }

  /** The rows a load can take. */
  ghost predicate Loadable(types: Types, rows: seq<Row>) {
    Numbered(rows) && forall k :: 0 <= k < |rows| ==> WellPlaced(types, rows[k])
  }

  datatype Entry = Entry(item: ItemObject, pid: nat)

  datatype Objects = Objects(inventory: map<nat, ItemObject>, depots: map<nat, ItemObject>)

  /** The place `key` is filled by the first row that names `slot`, and only then. */
  ghost predicate FilledAt(objs: seq<ItemObject>, rows: seq<Row>, places: map<nat, ItemObject>, key: nat, slot: nat)
    requires |objs| == |rows|
  {
    var first := FirstWith(rows, slot);
    if first.None? then key !in places else key in places && places[key] == objs[first.value]
  }

  /** The slots and depots filled by the rows. */
  ghost predicate Filled(objs: seq<ItemObject>, rows: seq<Row>, filled: Objects)
    requires |objs| == |rows|
  {
    && (forall s: nat :: s in filled.inventory ==> 1 <= s < SLOTS)
    && (forall s: nat :: 1 <= s < SLOTS ==> FilledAt(objs, rows, filled.inventory, s, s))
    && (forall id: nat :: DepotFilled(objs, rows, filled.depots, id))
  }

  ghost predicate DepotFilled(objs: seq<ItemObject>, rows: seq<Row>, depots: map<nat, ItemObject>, id: nat)
    requires |objs| == |rows|
  {
    FilledAt(objs, rows, depots, id, id + 100)
  }

  lemma FilledAtSnoc(objs: seq<ItemObject>, rows: seq<Row>, places: map<nat, ItemObject>, key: nat, slot: nat,
                     row: Row, item: ItemObject, places': map<nat, ItemObject>)
    requires |objs| == |rows| && FilledAt(objs, rows, places, key, slot)
    requires if row.slot == slot && key !in places then key in places' && places'[key] == item
             else (key in places' <==> key in places) && (key in places ==> places'[key] == places[key])
    ensures FilledAt(objs + [item], rows + [row], places', key, slot)
  {
    assert (rows + [row])[..|rows|] == rows;
  }

  lemma FilledSnoc(objs: seq<ItemObject>, rows: seq<Row>, filled: Objects, row: Row, item: ItemObject)
    requires |objs| == |rows| && Filled(objs, rows, filled)
    requires row.slot < SLOTS || row.slot >= 100
    ensures Filled(objs + [item], rows + [row], FillSlot(filled, row.slot, item))
  {
    hide FilledAt;
    var filled' := FillSlot(filled, row.slot, item);
    forall s: nat | 1 <= s < SLOTS ensures FilledAt(objs + [item], rows + [row], filled'.inventory, s, s) {
      FilledAtSnoc(objs, rows, filled.inventory, s, s, row, item, filled'.inventory);
    }
    forall id: nat ensures DepotFilled(objs + [item], rows + [row], filled'.depots, id) {
      assert DepotFilled(objs, rows, filled.depots, id);
      FilledAtSnoc(objs, rows, filled.depots, id, id + 100, row, item, filled'.depots);
    }
  }

  /** Every row has an object of its own, and the map finds it under the row's number. */
  ghost predicate Mapped(objs: seq<ItemObject>, rows: seq<Row>, itemmap: map<nat, Entry>) {
    && |objs| == |rows| == |itemmap|
    && (forall i, j :: 0 <= i < j < |objs| ==> objs[i] != objs[j])
    && (forall sid: nat :: sid in itemmap <==> 1 <= sid <= |rows|)
    && (forall sid: nat :: sid in itemmap ==> itemmap[sid] == Entry(objs[sid - 1], rows[sid - 1].pid))
  }

  /** Every object is made from its row and has the list given for it. */
  ghost predicate HaveLists(types: Types, objs: seq<ItemObject>, rows: seq<Row>, lists: seq<seq<ItemObject>>)
    reads objs
  {
    |lists| == |objs| == |rows| &&
    forall k :: 0 <= k < |rows| ==> objs[k].info == FromRow(types, rows[k]) && objs[k].itemlist == lists[k]
  }

  lemma MappedSnoc(objs: seq<ItemObject>, rows: seq<Row>, itemmap: map<nat, Entry>, row: Row, item: ItemObject)
    requires Mapped(objs, rows, itemmap) && row.sid == |rows| + 1 && item !in objs
    ensures Mapped(objs + [item], rows + [row], itemmap[row.sid := Entry(item, row.pid)])
  {
  }

  lemma ListsSnoc(types: Types, objs: seq<ItemObject>, rows: seq<Row>, lists: seq<seq<ItemObject>>, row: Row,
                  item: ItemObject)
    requires HaveLists(types, objs, rows, lists) && item.info == FromRow(types, row) && item.itemlist == []
    ensures HaveLists(types, objs + [item], rows + [row], lists + [[]])
  {
    hide FromRow;
  }

  /** The first loop of `loadPlayer`: an object for every row, and the slots the rows name. It gives up on a row that
      is not well placed. */
  method CreateItems(types: Types, rows: seq<Row>)
    returns (ok: bool, itemmap: map<nat, Entry>, filled: Objects,
             ghost objs: seq<ItemObject>, ghost lists: seq<seq<ItemObject>>)
    requires Numbered(rows)
    ensures ok <==> Loadable(types, rows)
    ensures fresh(objs)
    ensures ok ==> Mapped(objs, rows, itemmap) && Filled(objs, rows, filled)
    ensures ok ==> HaveLists(types, objs, rows, lists) && forall k :: 0 <= k < |lists| ==> lists[k] == []
    ensures ok ==> |objs| == |rows| && forall k :: 0 <= k < |rows| ==> Describes(types, rows[k], objs[k].info)
  {
    ok, itemmap, filled, objs, lists := true, map[], Objects(map[], map[]), [], [];
    ghost var done: seq<Row> := [];
    var i := 0;
    NothingCreated(types);
    hide *;
    while i < |rows|
      invariant 0 <= i <= |rows| && |objs| == |done| == i && fresh(objs)
      invariant forall k :: 0 <= k < i ==> done[k] == rows[k] && WellPlaced(types, rows[k])
      invariant Mapped(objs, done, itemmap) && Filled(objs, done, filled)
      invariant HaveLists(types, objs, done, lists) && forall k :: 0 <= k < |lists| ==> lists[k] == []
    {
      var row := rows[i];
      RowPlaced(types, rows, i);
      if !WellPlaced(types, row) {
        return false, itemmap, filled, objs, lists;
      }
      var myItem := new ItemObject(FromRow(types, row));
      ItemCreated(types, objs, done, lists, itemmap, filled, row, myItem);
      itemmap := itemmap[row.sid := Entry(myItem, row.pid)];
      objs, lists, done := objs + [myItem], lists + [[]], done + [row];
      filled := FillSlot(filled, row.slot, myItem);
      i := i + 1;
    }
    assert done == rows;
    AllPlaced(types, rows);
    AllDescribed(types, objs, rows, lists);
  }

  /** What the columns of a row say of its item; the number where items of its type are built with one. */
  predicate Describes(types: Types, row: Row, info: Info) {
    var t := types(row.typ);
    && info.typ == row.typ && info.text == row.text && info.desc == row.specialdesc
    && info.actionId == (if row.actionId >= 100 then row.actionId else 0)
    && info.duration == (if row.duration > 0 then row.duration else t.decayTime * 1000)
    && (0 < row.charges < 256 ==> info.charges == row.charges)
    && info.decaying == (if row.decaystate.DECAYING_FALSE? then DECAYING_FALSE else DECAYING_PENDING)
    && (t.kind.Plain? && t.fluid && row.number < 256 ==> info.fluid == row.number)
    && (t.kind.Plain? && !t.fluid && t.stackable && row.number < 256 ==> info.count == row.number)
  }

  lemma AllDescribed(types: Types, objs: seq<ItemObject>, rows: seq<Row>, lists: seq<seq<ItemObject>>)
    requires HaveLists(types, objs, rows, lists)
    ensures |objs| == |rows| && forall k :: 0 <= k < |rows| ==> Describes(types, rows[k], objs[k].info)
  {
    hide FromRow;
    forall k | 0 <= k < |rows| ensures Describes(types, rows[k], objs[k].info) {
      LoadedColumns(types, rows[k]);
    }
  }

  lemma NothingCreated(types: Types)
    ensures Mapped([], [], map[]) && Filled([], [], Objects(map[], map[])) && HaveLists(types, [], [], [])
  {
  }

  lemma ItemCreated(types: Types, objs: seq<ItemObject>, done: seq<Row>, lists: seq<seq<ItemObject>>,
                    itemmap: map<nat, Entry>, filled: Objects, row: Row, item: ItemObject)
    requires |objs| == |done| && Mapped(objs, done, itemmap) && Filled(objs, done, filled)
    requires HaveLists(types, objs, done, lists) && item !in objs
    requires item.info == FromRow(types, row) && item.itemlist == []
    requires row.sid == |done| + 1 && (row.slot < SLOTS || row.slot >= 100)
    ensures Mapped(objs + [item], done + [row], itemmap[row.sid := Entry(item, row.pid)])
    ensures Filled(objs + [item], done + [row], FillSlot(filled, row.slot, item))
    ensures HaveLists(types, objs + [item], done + [row], lists + [[]])
  {
    hide *;
    MappedSnoc(objs, done, itemmap, row, item);
    ListsSnoc(types, objs, done, lists, row, item);
    FilledSnoc(objs, done, filled, row, item);
  }

  lemma RowPlaced(types: Types, rows: seq<Row>, i: nat)
    requires Numbered(rows) && i < |rows|
    ensures rows[i].sid == i + 1 && rows[i].pid <= i
    ensures WellPlaced(types, rows[i]) ==> rows[i].slot < SLOTS || rows[i].slot >= 100
    ensures !WellPlaced(types, rows[i]) ==> !Loadable(types, rows)
  {
  }

  lemma AllPlaced(types: Types, rows: seq<Row>)
    requires Numbered(rows) && forall k :: 0 <= k < |rows| ==> WellPlaced(types, rows[k])
    ensures Loadable(types, rows)
  {
  }

  /** `Player::__internalAddThing` and `Player::addDepot` keep what is already there. */
  function FillSlot(filled: Objects, slot: nat, item: ItemObject): Objects {
    if slot == 0 then filled
    else if slot <= 10 then
      if slot in filled.inventory then filled else filled.(inventory := filled.inventory[slot := item])
    else if slot < 100 || slot - 100 in filled.depots then filled
    else filled.(depots := filled.depots[slot - 100 := item])
  }

  /** The second loop of `loadPlayer`: from the last row to the first, every item to the front of its container. */
  method LinkItems(types: Types, rows: seq<Row>, itemmap: map<nat, Entry>, ghost objs: seq<ItemObject>,
                   ghost blank: seq<seq<ItemObject>>)
    requires Numbered(rows) && Mapped(objs, rows, itemmap)
    requires HaveLists(types, objs, rows, blank) && forall k :: 0 <= k < |blank| ==> blank[k] == []
    modifies objs
    ensures AllLinked(types, objs, rows)
  {
    hide *;
    ghost var lists := blank;
    BlankLists(types, objs, rows, itemmap, lists);
    var i := |itemmap|;
    while i > 0
      invariant 0 <= i <= |rows|
      invariant HaveLists(types, objs, rows, lists) && ListsFrom(types, objs, rows, lists, i)
    {
      ListsStep(types, objs, rows, lists, i - 1);
      lists := LinkOne(types, rows, itemmap, objs, lists, i);
      i := i - 1;
    }
    ListsLinked(types, objs, rows, lists);
  }

  lemma BlankLists(types: Types, objs: seq<ItemObject>, rows: seq<Row>, itemmap: map<nat, Entry>,
                   lists: seq<seq<ItemObject>>)
    requires Mapped(objs, rows, itemmap) && HaveLists(types, objs, rows, lists)
    requires forall k :: 0 <= k < |lists| ==> lists[k] == []
    ensures |itemmap| == |rows| == |objs| && ListsFrom(types, objs, rows, lists, |rows|)
  {
  }

  lemma ListsLinked(types: Types, objs: seq<ItemObject>, rows: seq<Row>, lists: seq<seq<ItemObject>>)
    requires HaveLists(types, objs, rows, lists) && ListsFrom(types, objs, rows, lists, 0)
    ensures AllLinked(types, objs, rows)
  {
    hide FromRow, ListFrom;
  }

  method LinkOne(types: Types, rows: seq<Row>, itemmap: map<nat, Entry>, ghost objs: seq<ItemObject>,
                 ghost lists: seq<seq<ItemObject>>, i: nat)
    returns (ghost lists': seq<seq<ItemObject>>)
    requires Numbered(rows) && Mapped(objs, rows, itemmap) && HaveLists(types, objs, rows, lists) && 1 <= i <= |rows|
    modifies objs
    ensures HaveLists(types, objs, rows, lists')
    ensures lists' == ListsNext(types, objs, rows, lists, i - 1)
  {
    hide Mapped, HaveLists, FromRow;
    MappedAt(objs, rows, itemmap, i);
    HaveSizes(types, objs, rows, lists);
    lists' := lists;
    if i in itemmap {
      var p := itemmap[i].pid;
      if p != 0 {
        MappedAt(objs, rows, itemmap, p);
        ListAt(types, objs, rows, lists, p - 1);
        RowTyp(types, rows[p - 1]);
        if IsContainer(types(itemmap[p].item.info.typ)) {
          PutFront(types, rows, itemmap[p].item, itemmap[i].item, objs, lists, p - 1);
          lists' := lists[p - 1 := [objs[i - 1]] + lists[p - 1]];
        }
      }
    }
  }

  lemma MappedAt(objs: seq<ItemObject>, rows: seq<Row>, itemmap: map<nat, Entry>, i: nat)
    requires Mapped(objs, rows, itemmap) && 1 <= i <= |rows|
    ensures |objs| == |rows| && i in itemmap && itemmap[i] == Entry(objs[i - 1], rows[i - 1].pid)
    ensures forall j, k :: 0 <= j < k < |objs| ==> objs[j] != objs[k]
  {
  }

  lemma HaveSizes(types: Types, objs: seq<ItemObject>, rows: seq<Row>, lists: seq<seq<ItemObject>>)
    requires HaveLists(types, objs, rows, lists)
    ensures |lists| == |objs| == |rows|
  {
  }

  lemma ListAt(types: Types, objs: seq<ItemObject>, rows: seq<Row>, lists: seq<seq<ItemObject>>, k: nat)
    requires HaveLists(types, objs, rows, lists) && k < |rows|
    ensures |lists| == |objs| == |rows| && objs[k].info == FromRow(types, rows[k]) && objs[k].itemlist == lists[k]
  {
  }

  method PutFront(types: Types, rows: seq<Row>, container: ItemObject, item: ItemObject,
                  ghost objs: seq<ItemObject>, ghost lists: seq<seq<ItemObject>>, ghost k: nat)
    requires HaveLists(types, objs, rows, lists) && k < |objs| == |lists| && objs[k] == container
    requires forall i, j :: 0 <= i < j < |objs| ==> objs[i] != objs[j]
    modifies container
    ensures HaveLists(types, objs, rows, lists[k := [item] + lists[k]])
  {
    hide FromRow;
    assert forall j :: 0 <= j < |objs| && j != k ==> objs[j] != container;
    container.PushFront(item);
  }

  lemma RowTyp(types: Types, row: Row)
    ensures FromRow(types, row).typ == row.typ
  {
  }

  /** `loadPlayer` on the rows of one player. */
  method LoadPlayer(types: Types, rows: seq<Row>) returns (ok: bool, loaded: Objects, ghost repr: set<ItemObject>)
    requires Numbered(rows)
    ensures fresh(repr) && (ok <==> Loadable(types, rows))
    ensures ok ==> forall s: nat :: s in loaded.inventory <==> 1 <= s < SLOTS && LoadedSlot(types, rows, s).Some?
    ensures ok ==> forall s: nat :: s in loaded.inventory ==>
                     Denotes(loaded.inventory[s], LoadedSlot(types, rows, s).value, repr)
    ensures ok ==> forall id: nat :: id in loaded.depots <==> id in DepotIds(rows)
    ensures ok ==> forall id: nat :: id in loaded.depots ==>
                     Denotes(loaded.depots[id], DepotAt(types, rows, id), repr)
  {
    var itemmap;
    ghost var objs, lists;
    ok, itemmap, loaded, objs, lists := CreateItems(types, rows);
    repr := {};
    if !ok {
      return;
    }
    LinkItems(types, rows, itemmap, objs, lists);
    repr := set o | o in objs;
    assert fresh(repr);
    hide *;
    SlotsFilled(types, objs, rows, loaded);
    forall s: nat | s in loaded.inventory
      ensures LoadedSlot(types, rows, s).Some? && Denotes(loaded.inventory[s], LoadedSlot(types, rows, s).value, repr)
    {
      SlotDenoted(types, objs, rows, loaded, repr, s);
    }
    forall id: nat | id in loaded.depots ensures Denotes(loaded.depots[id], DepotAt(types, rows, id), repr) {
      DepotDenoted(types, objs, rows, loaded, repr, id);
    }
  }

  lemma SlotsFilled(types: Types, objs: seq<ItemObject>, rows: seq<Row>, loaded: Objects)
    requires |objs| == |rows| && Filled(objs, rows, loaded)
    ensures forall s: nat :: s in loaded.inventory <==> 1 <= s < SLOTS && LoadedSlot(types, rows, s).Some?
    ensures forall id: nat :: id in loaded.depots <==> id in DepotIds(rows)
  {
    forall s: nat | 1 <= s < SLOTS ensures s in loaded.inventory <==> LoadedSlot(types, rows, s).Some? {
      assert FilledAt(objs, rows, loaded.inventory, s, s);
    }
    forall id: nat ensures id in loaded.depots <==> id in DepotIds(rows) {
      assert DepotFilled(objs, rows, loaded.depots, id);
      if id in loaded.depots {
        var k := FirstWith(rows, id + 100).value;
        assert rows[k].slot >= 100 && rows[k].slot - 100 == id;
      }
    }
  }

  lemma SlotDenoted(types: Types, objs: seq<ItemObject>, rows: seq<Row>, loaded: Objects, repr: set<ItemObject>, s: nat)
    requires |objs| == |rows| && Numbered(rows) && Filled(objs, rows, loaded) && s in loaded.inventory
    requires AllLinked(types, objs, rows) && repr == set o | o in objs
    ensures LoadedSlot(types, rows, s).Some?
    ensures Denotes(loaded.inventory[s], LoadedSlot(types, rows, s).value, repr)
  {
    hide AllLinked, Denotes, TreeAt;
    assert FilledAt(objs, rows, loaded.inventory, s, s);
    TreeDenoted(types, objs, rows, repr, FirstWith(rows, s).value);
  }

  lemma DepotDenoted(types: Types, objs: seq<ItemObject>, rows: seq<Row>, loaded: Objects, repr: set<ItemObject>, id: nat)
    requires |objs| == |rows| && Numbered(rows) && Filled(objs, rows, loaded)
    requires id in loaded.depots && id in DepotIds(rows)
    requires AllLinked(types, objs, rows) && repr == set o | o in objs
    ensures Denotes(loaded.depots[id], DepotAt(types, rows, id), repr)
  {
    hide AllLinked, Denotes, TreeAt;
    assert DepotFilled(objs, rows, loaded.depots, id);
    TreeDenoted(types, objs, rows, repr, FirstWith(rows, id + 100).value);
  }

  /** What a save writes, a load can take. */
  lemma SavedLoadable(types: Types, p: Player)
    requires ValidPlayer(types, p)
    ensures Loadable(types, SaveRows(types, p))
  {
    SavedNumbered(types, p);
    hide SaveRows, ValidPlayer, Numbered;
    forall k | 0 <= k < |SaveRows(types, p)| ensures WellPlaced(types, SaveRows(types, p)[k]) {
      if SaveRows(types, p)[k].slot != 0 {
        SlotNamed(types, p, k);
        if SaveRows(types, p)[k].slot >= 100 {
          DepotRowTyp(types, p, k);
        }
      }
    }
  }

  lemma DepotRowTyp(types: Types, p: Player, k: nat)
    requires ValidPlayer(types, p)
    requires var n := |ForestRows(types, InventoryTops(p.inventory, 1), 1)|; n <= k < n + |DepotTops(p.depots)|
    ensures k < |SaveRows(types, p)| && types(SaveRows(types, p)[k].typ).kind == Locker
  {
    hide *;
    var rows, b := SaveRows(types, p), DepotTops(p.depots);
    var n := |ForestRows(types, InventoryTops(p.inventory, 1), 1)|;
    PlayerPlaced(types, p);
    ForestPlacedMeans(types, rows, b, 1 + n);
    TopRow(types, rows, b, 1 + n, k - n);
    ColumnsAre(types, b[k - n].item.info);
    SameTyp(rows[k], types, b[k - n].item.info);
    DepotIsLocker(types, p, k - n);
  }

  lemma SameTyp(row: Row, types: Types, info: Info)
    requires ColumnsIn(row) == ColumnsOf(types, info)
    ensures row.typ == info.typ
  {
  }

  lemma DepotIsLocker(types: Types, p: Player, j: nat)
    requires ValidPlayer(types, p) && j < |DepotTops(p.depots)|
    ensures types(DepotTops(p.depots)[j].item.info.typ).kind == Locker
  {
  }
}
