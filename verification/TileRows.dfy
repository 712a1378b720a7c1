/** Rebuilding the items of a map tile from rows some of which have been skipped. */
module TileRows {
  import opened Bytes
  import opened ItemRecord
  import opened PlayerStore

  type ItemMap = map<nat, Entry>

  /** Each row has its own object. That need not be so: rows of one unmoveable type all find the same item. */
  ghost predicate Distinct(m: ItemMap) {
    forall i, j :: i in m && j in m && i != j ==> m[i].item != m[j].item
  }

  ghost function Items(m: ItemMap): set<ItemObject> {
    set i | i in m :: m[i].item
  }

  /** The row is there, and its container is `o`. */
  ghost predicate In(m: ItemMap, i: nat, o: ItemObject) {
    i in m && m[i].pid in m && m[m[i].pid].item == o
  }

  /** The items of the rows from `i` to `last` whose container is `o`. */
  ghost function Kids(m: ItemMap, o: ItemObject, i: nat, last: nat): seq<ItemObject>
    decreases last + 1 - i
  {
    if i > last then [] else (if In(m, i, o) then [m[i].item] else []) + Kids(m, o, i + 1, last)
  }

  ghost function Part(types: Types, m: ItemMap, o: ItemObject, i: nat): seq<ItemObject>
    reads o`info
  {
    if IsContainer(types(o.info.typ)) then Kids(m, o, i, |m|) else []
  }

  /** The second loop of `loadTile`: it starts at the number of rows that are there, not at the highest of them. */
  method LinkTile(types: Types, itemMap: ItemMap)
    requires 0 !in itemMap
    modifies set i | i in itemMap :: itemMap[i].item`itemlist
    ensures forall s :: s in itemMap ==>
              itemMap[s].item.itemlist == Part(types, itemMap, itemMap[s].item, 1) + old(itemMap[s].item.itemlist)
  {
    hide Part, Own;
    forall s | s in itemMap ensures Part(types, itemMap, itemMap[s].item, |itemMap| + 1) == [] {
      NothingBehind(types, itemMap, itemMap[s].item);
    }
    var i := |itemMap|;
    while i > 0
      invariant 0 <= i <= |itemMap|
      invariant forall s :: s in itemMap ==>
                  itemMap[s].item.itemlist == Part(types, itemMap, itemMap[s].item, i + 1) + old(itemMap[s].item.itemlist)
    {
      LinkRow(types, itemMap, i);
      forall s | s in itemMap
        ensures itemMap[s].item.itemlist == Part(types, itemMap, itemMap[s].item, i) + old(itemMap[s].item.itemlist)
      {
        PartNext(types, itemMap, itemMap[s].item, i, old(itemMap[s].item.itemlist));
      }
      i := i - 1;
    }
  }

  lemma NothingBehind(types: Types, m: ItemMap, o: ItemObject)
    ensures Part(types, m, o, |m| + 1) == []
  {
  }

  /** One row: its item goes to the front of its container's list, if there is such a container. */
  method LinkRow(types: Types, itemMap: ItemMap, i: nat)
    requires 0 !in itemMap
    modifies set k | k in itemMap :: itemMap[k].item`itemlist
    ensures forall s :: s in itemMap ==>
              itemMap[s].item.itemlist == Own(types, itemMap, itemMap[s].item, i) + old(itemMap[s].item.itemlist)
  {
    if i in itemMap {
      var p := itemMap[i].pid;
      if p != 0 && p in itemMap {
        var container := itemMap[p].item;
        if IsContainer(types(container.info.typ)) {
          container.PushFront(itemMap[i].item);
        }
      }
    }
  }

  ghost function Own(types: Types, m: ItemMap, o: ItemObject, i: nat): seq<ItemObject>
    reads o`info
  {
    if IsContainer(types(o.info.typ)) && In(m, i, o) then [m[i].item] else []
  }

  lemma PartNext(types: Types, m: ItemMap, o: ItemObject, i: nat, had: seq<ItemObject>)
    requires i <= |m|
    ensures Part(types, m, o, i) + had == Own(types, m, o, i) + (Part(types, m, o, i + 1) + had)
  {
    ConcatAssoc(Own(types, m, o, i), Part(types, m, o, i + 1), had);
  }

  /** The row is to be linked: its container is there, and is one. */
  ghost predicate Hangs(types: Types, m: ItemMap, i: nat)
    reads Items(m)
  {
    i in m && m[i].pid in m && IsContainer(types(m[m[i].pid].item.info.typ))
  }

  lemma {:induction false} KidsAre(m: ItemMap, o: ItemObject, i: nat, last: nat)
    ensures forall x :: x in Kids(m, o, i, last) <==> exists k: nat :: In(m, k, o) && i <= k <= last && m[k].item == x
    decreases last + 1 - i
  {
    if i <= last {
      KidsAre(m, o, i + 1, last);
    }
  }

  /** The items stand in the order of their rows: that of the highest row comes last. */
  lemma {:induction false} KidsLast(m: ItemMap, o: ItemObject, i: nat, last: nat)
    requires i <= last + 1
    ensures Kids(m, o, i, last + 1) == Kids(m, o, i, last) + if In(m, last + 1, o) then [m[last + 1].item] else []
    decreases last + 1 - i
  {
    if i <= last {
      KidsLast(m, o, i + 1, last);
    } else {
      assert Kids(m, o, last + 2, last + 1) == [];
    }
  }

  /** A row is linked exactly if its number is at most the number of rows that are there. */
  lemma LinkedIff(types: Types, m: ItemMap, i: nat)
    requires 0 !in m && Distinct(m) && Hangs(types, m, i)
    ensures m[i].item in Part(types, m, m[m[i].pid].item, 1) <==> i <= |m|
  {
    var o := m[m[i].pid].item;
    KidsAre(m, o, 1, |m|);
    assert In(m, i, o);
  }

  ghost predicate NoGap(m: ItemMap) {
    forall i: nat, j: nat :: Below(m, i, j)
  }

  ghost predicate Below(m: ItemMap, i: nat, j: nat) {
    1 <= i < j && j in m ==> i in m
  }

  /** All numbers are within that exactly if none below the highest is missing; so then all rows are linked. */
  lemma NoGapIff(m: ItemMap)
    requires 0 !in m
    ensures NoGap(m) <==> forall i :: i in m ==> i <= |m|
  {
    if NoGap(m) {
      forall j | j in m ensures j <= |m| {
        UpTo(j);
        forall i | i in Numbers(j) ensures i in m {
          assert Below(m, i, j);
        }
        Fewer(Numbers(j), m.Keys);
      }
    } else {
      var i: nat, j: nat :| !Below(m, i, j);
      if forall k :: k in m ==> k <= |m| {
        UpTo(|m|);
        Fewer(m.Keys, Numbers(|m|) - {i});
      }
    }
  }

  function Numbers(n: nat): set<nat> {
    if n == 0 then {} else Numbers(n - 1) + {n}
  }

  lemma {:induction false} UpTo(n: nat)
    ensures |Numbers(n)| == n && forall i: nat :: i in Numbers(n) <==> 1 <= i <= n
  {
    if n > 0 {
      UpTo(n - 1);
    }
  }

  lemma {:induction false} Fewer(a: set<nat>, b: set<nat>)
    requires a <= b
    ensures |a| <= |b|
  {
    if a != {} {
      var x :| x in a;
      Fewer(a - {x}, b - {x});
    }
  }

  /** With row 1 skipped, row 2 a container and row 3 inside it, row 3 is not linked. */
  lemma GapLosesItem(types: Types, box: ItemObject, x: ItemObject)
    requires box != x && IsContainer(types(box.info.typ))
    ensures var m: ItemMap := map[2 := Entry(box, 0), 3 := Entry(x, 2)];
            Distinct(m) && Hangs(types, m, 3) && Part(types, m, box, 1) == []
  {
    var m: ItemMap := map[2 := Entry(box, 0), 3 := Entry(x, 2)];
    assert |m| == 2;
    assert Kids(m, box, 3, 2) == [] && Kids(m, box, 2, 2) == [] && Kids(m, box, 1, 2) == [];
  }
}
