/** The `items` rows of a player: the inventory and what it holds, then the depots and what they hold. */
module PlayerRows {
  import opened Bytes
  import opened ItemRecord
  import opened ItemRows

  const SLOTS := 11

  datatype DepotEntry = DepotEntry(id: nat, locker: Item)

  /** `inventory[0]` is unused; the depots are in ascending order of their ids. */
  datatype Player = Player(inventory: seq<Option<Item>>, depots: seq<DepotEntry>)

  datatype Loaded = Loaded(inventory: seq<Option<Item>>, depots: map<nat, Item>)

  ghost predicate ValidPlayer(types: Types, p: Player) {
    && |p.inventory| == SLOTS && p.inventory[0].None?
    && (forall s :: 0 <= s < SLOTS && p.inventory[s].Some? ==> WellTyped(types, p.inventory[s].value))
    && (forall d :: 0 <= d < |p.depots| ==>
          && WellTyped(types, p.depots[d].locker)
          && types(p.depots[d].locker.info.typ).kind == Locker)
    && (forall c, d :: 0 <= c < d < |p.depots| ==> p.depots[c].id < p.depots[d].id)
  }

  // ---------------------------------------------------------------- saving

  /** An item with the slot its row names. */
  datatype Top = Top(slot: nat, item: Item)

  function InventoryTops(inventory: seq<Option<Item>>, slot: nat): seq<Top>
    decreases |inventory| - slot
  {
    if slot >= |inventory| then []
    else (if inventory[slot].None? then [] else [Top(slot, inventory[slot].value)]) + InventoryTops(inventory, slot + 1)
  }

  /** The depot with the highest id first. */
  function DepotTops(depots: seq<DepotEntry>): (tops: seq<Top>)
    ensures |tops| == |depots|
  {
    var n := |depots|;
    seq(n, i requires 0 <= i < n => Top(depots[n - 1 - i].id + 100, depots[n - 1 - i].locker))
  }

  function Items(tops: seq<Top>): (items: seq<Item>)
    ensures |items| == |tops|
  {
    seq(|tops|, i requires 0 <= i < |tops| => tops[i].item)
  }

  function TopRows(types: Types, tops: seq<Top>, next: nat): (rows: seq<Row>)
    ensures |rows| == |tops|
  {
    seq(|tops|, i requires 0 <= i < |tops| => ToRow(types, tops[i].item.info, tops[i].slot, next + i, 0))
  }

  /** The rows of some top items, then of all they hold. */
  function ForestRows(types: Types, tops: seq<Top>, next: nat): seq<Row> {
    TopRows(types, tops, next) + Bfs(types, Boxes(types, Items(tops), next), next + |tops|)
  }

  /** One forest behind the other. */
  function BothRows(types: Types, a: seq<Top>, b: seq<Top>): seq<Row> {
    var first := ForestRows(types, a, 1);
    first + ForestRows(types, b, 1 + |first|)
  }

  function SaveRows(types: Types, p: Player): seq<Row> {
    BothRows(types, InventoryTops(p.inventory, 1), DepotTops(p.depots))
  }

  // ---------------------------------------------------------------- loading

  /** The index of the first row that names the slot. */
  function FirstWith(rows: seq<Row>, slot: nat): (r: Option<nat>)
    ensures r.Some? ==> r.value < |rows| && rows[r.value].slot == slot
    ensures r.None? ==> forall k :: 0 <= k < |rows| ==> rows[k].slot != slot
    ensures r.Some? ==> forall k :: 0 <= k < r.value ==> rows[k].slot != slot
  {
    if rows == [] then None
    else
      var n := |rows| - 1;
      var earlier := FirstWith(rows[..n], slot);
      if earlier.Some? then earlier
      else if rows[n].slot == slot then Some(n) else None
  }

  function LoadedSlot(types: Types, rows: seq<Row>, slot: nat): Option<Item> {
    var first := FirstWith(rows, slot);
    if first.None? then None else Some(Made(types, TreeAt(types, rows, first.value + 1)))
  }

  function DepotIds(rows: seq<Row>): set<nat> {
    set k | 0 <= k < |rows| && rows[k].slot >= 100 :: (rows[k].slot - 100) as nat
  }

  function DepotAt(types: Types, rows: seq<Row>, id: nat): Item
    requires id in DepotIds(rows)
  {
    Made(types, TreeAt(types, rows, FirstWith(rows, id + 100).value + 1))
  }

  /** What `loadPlayer` makes of the rows: the first row that names a slot fills it. */
  function LoadRows(types: Types, rows: seq<Row>): Loaded {
    Loaded(seq(SLOTS, s requires 0 <= s < SLOTS => if s == 0 then None else LoadedSlot(types, rows, s)),
           map id | id in DepotIds(rows) :: DepotAt(types, rows, id))
  }

  // ---------------------------------------------------------------- one forest among the rows

  /** The items of a forest are fit to be saved. */
  ghost predicate TopsOk(types: Types, tops: seq<Top>) {
    forall i :: 0 <= i < |tops| ==> WellTyped(types, tops[i].item)
  }

  /** The `k`th row of a forest: a top item with its slot, or a contained item with its container. */
  ghost predicate ForestRowOk(row: Row, tops: seq<Top>, next: nat, k: nat) {
    && row.sid == next + k
    && if k < |tops| then row.pid == 0 && row.slot == tops[k].slot else row.slot == 0 && next <= row.pid < row.sid
  }

  lemma TopsQueueOk(types: Types, tops: seq<Top>, next: nat)
    requires next >= 1 && TopsOk(types, tops)
    ensures QueueOk(types, Boxes(types, Items(tops), next), next + |tops|)
    ensures forall b: Pending :: b in Boxes(types, Items(tops), next) ==> BoxAt(types, Items(tops), next, b)
  {
    var queue := Boxes(types, Items(tops), next);
    BoxesAt(types, Items(tops), next);
    BoxesAscend(types, Items(tops), next);
    forall j | 0 <= j < |queue| ensures BoxAt(types, Items(tops), next, queue[j]) && WellTyped(types, queue[j].box) {
      assert queue[j] in queue;
    }
  }

  lemma ForestRowsOk(types: Types, tops: seq<Top>, next: nat)
    requires next >= 1 && TopsOk(types, tops)
    ensures forall k :: 0 <= k < |ForestRows(types, tops, next)| ==>
              ForestRowOk(ForestRows(types, tops, next)[k], tops, next, k)
  {
    var queue := Boxes(types, Items(tops), next);
    var rows, later := ForestRows(types, tops, next), Bfs(types, queue, next + |tops|);
    TopsQueueOk(types, tops, next);
    BfsRows(types, queue, next + |tops|);
    forall k | 0 <= k < |rows| ensures ForestRowOk(rows[k], tops, next, k) {
      hide Bfs, QueueOk, Boxes;
      if k < |tops| {
        assert rows[k] == TopRows(types, tops, next)[k];
      } else {
        var row := later[k - |tops|];
        assert rows[k] == row && RowOk(row, queue, next + |tops|, next + |tops| + (k - |tops|));
        QueuedFrom(types, tops, next, row.pid);
      }
    }
  }

  lemma QueuedFrom(types: Types, tops: seq<Top>, next: nat, pid: nat)
    requires Queued(Boxes(types, Items(tops), next), pid) || next <= pid
    ensures next <= pid
  {
    var queue := Boxes(types, Items(tops), next);
    BoxesAt(types, Items(tops), next);
    if Queued(queue, pid) {
      var j :| 0 <= j < |queue| && queue[j].sid == pid;
      assert queue[j] in queue;
    }
  }

  /** The rows hold the forest, and no other row belongs to an item of it. */
  ghost predicate ForestPlaced(types: Types, rows: seq<Row>, tops: seq<Top>, next: nat) {
    && next >= 1 && TopsOk(types, tops)
    && Holds(rows, next - 1, ForestRows(types, tops, next))
    && forall k :: 0 <= k < |rows| && !(next - 1 <= k < next - 1 + |ForestRows(types, tops, next)|) ==>
         rows[k].pid == 0 || rows[k].pid < next || rows[k].pid >= next + |ForestRows(types, tops, next)|
  }

  lemma ForestPlacedMeans(types: Types, rows: seq<Row>, tops: seq<Top>, next: nat)
    requires ForestPlaced(types, rows, tops, next)
    ensures next >= 1 && TopsOk(types, tops)
    ensures Holds(rows, next - 1, TopRows(types, tops, next))
    ensures Holds(rows, next - 1 + |tops|, Bfs(types, Boxes(types, Items(tops), next), next + |tops|))
  {
    HoldsSplit(rows, next - 1, TopRows(types, tops, next), Bfs(types, Boxes(types, Items(tops), next), next + |tops|));
  }

  lemma ForestOutside(types: Types, rows: seq<Row>, tops: seq<Top>, next: nat, k: nat)
    requires ForestPlaced(types, rows, tops, next) && k < |rows|
    requires var n := |Bfs(types, Boxes(types, Items(tops), next), next + |tops|)|;
             !(next + |tops| - 1 <= k < next + |tops| - 1 + n)
    ensures var n := |Bfs(types, Boxes(types, Items(tops), next), next + |tops|)|;
            rows[k].pid < next || rows[k].pid >= next + |tops| + n
  {
    if next - 1 <= k < next + |tops| - 1 {
      ForestPlacedMeans(types, rows, tops, next);
      assert rows[k] == TopRows(types, tops, next)[k - (next - 1)];
    }
  }

  lemma ForestQueuePlaced(types: Types, rows: seq<Row>, tops: seq<Top>, next: nat)
    requires ForestPlaced(types, rows, tops, next)
    ensures Placed(types, rows, Boxes(types, Items(tops), next), next + |tops|)
  {
    hide Bfs, QueueOk, Boxes, ForestPlaced, TopsOk, TopRows, Queued, Holds, Items;
    var queue, next' := Boxes(types, Items(tops), next), next + |tops|;
    ForestPlacedMeans(types, rows, tops, next);
    TopsQueueOk(types, tops, next);
    var n := |Bfs(types, queue, next')|;
    forall k | 0 <= k < |rows| && !(next' - 1 <= k < next' - 1 + n)
      ensures !Queued(queue, rows[k].pid) && !(next' - 1 < rows[k].pid <= next' - 1 + n)
    {
      ForestOutside(types, rows, tops, next, k);
      if Queued(queue, rows[k].pid) {
        QueuedIn(types, tops, next, rows[k].pid);
      }
    }
  }

  lemma QueuedIn(types: Types, tops: seq<Top>, next: nat, pid: nat)
    requires Queued(Boxes(types, Items(tops), next), pid)
    ensures next <= pid < next + |tops|
  {
    var queue := Boxes(types, Items(tops), next);
    BoxesAt(types, Items(tops), next);
    var j :| 0 <= j < |queue| && queue[j].sid == pid;
    assert queue[j] in queue;
  }

  /** Every top item is found under its number, whole. */
  lemma ForestRebuilt(types: Types, rows: seq<Row>, tops: seq<Top>, next: nat, i: nat)
    requires ForestPlaced(types, rows, tops, next) && i < |tops|
    ensures next + i <= |rows| && TreeAt(types, rows, next + i) == WrittenTree(types, tops[i].item)
  {
    hide *;
    var queue := Boxes(types, Items(tops), next);
    ForestPlacedMeans(types, rows, tops, next);
    ForestQueuePlaced(types, rows, tops, next);
    BfsRebuilds(types, rows, queue, next + |tops|);
    TopFits(types, tops, i);
    TopRebuilt(types, rows, tops, next, i);
  }

  lemma TopFits(types: Types, tops: seq<Top>, i: nat)
    requires TopsOk(types, tops) && i < |tops|
    ensures WellTyped(types, tops[i].item)
  {
  }

  lemma TopRebuilt(types: Types, rows: seq<Row>, tops: seq<Top>, next: nat, i: nat)
    requires next >= 1 && i < |tops| && WellTyped(types, tops[i].item)
    requires Holds(rows, next - 1, TopRows(types, tops, next))
    requires forall b: Pending :: b in Boxes(types, Items(tops), next) ==> Rebuilt(types, rows, b)
    ensures next + i <= |rows| && TreeAt(types, rows, next + i) == WrittenTree(types, tops[i].item)
  {
    hide *;
    TopRow(types, rows, tops, next, i);
    BoxFound(types, rows, Items(tops), next, i);
    TreeRestored(types, rows, next + i, tops[i].item);
  }

  lemma TopRow(types: Types, rows: seq<Row>, tops: seq<Top>, next: nat, i: nat)
    requires next >= 1 && i < |tops| && Holds(rows, next - 1, TopRows(types, tops, next))
    ensures next + i <= |rows| && ColumnsIn(rows[next + i - 1]) == ColumnsOf(types, tops[i].item.info)
    ensures rows[next + i - 1].slot == tops[i].slot && Items(tops)[i] == tops[i].item
  {
    assert rows[next - 1 + i] == TopRows(types, tops, next)[i];
    RowWritten(types, tops[i].item.info, tops[i].slot, next + i, 0);
  }

  // ---------------------------------------------------------------- the whole player

  lemma {:induction false} InventoryTopsAre(inventory: seq<Option<Item>>, slot: nat)
    requires slot <= |inventory|
    ensures forall t: Top :: t in InventoryTops(inventory, slot) ==>
              slot <= t.slot < |inventory| && inventory[t.slot] == Some(t.item)
    decreases |inventory| - slot
  {
    if slot < |inventory| {
      InventoryTopsAre(inventory, slot + 1);
    }
  }

  lemma {:induction false} InventoryTopAt(inventory: seq<Option<Item>>, slot: nat, s: nat) returns (i: nat)
    requires slot <= s < |inventory| && inventory[s].Some?
    ensures i < |InventoryTops(inventory, slot)|
    ensures InventoryTops(inventory, slot)[i] == Top(s, inventory[s].value)
    decreases s - slot
  {
    if slot == s {
      i := 0;
    } else {
      i := InventoryTopAt(inventory, slot + 1, s);
      if inventory[slot].Some? {
        i := i + 1;
      }
    }
  }

  lemma {:induction false} InventoryTopsAscend(inventory: seq<Option<Item>>, slot: nat)
    requires slot <= |inventory|
    ensures TopsAscend(InventoryTops(inventory, slot))
    decreases |inventory| - slot
  {
    hide TopsAscend;
    if slot == |inventory| {
      NoTopsAscend();
    } else {
      InventoryTopsAscend(inventory, slot + 1);
      InventoryTopsAre(inventory, slot + 1);
      if inventory[slot].Some? {
        AscendsBehind(Top(slot, inventory[slot].value), InventoryTops(inventory, slot + 1));
      } else {
        assert InventoryTops(inventory, slot) == InventoryTops(inventory, slot + 1);
      }
    }
  }

  ghost predicate TopsAscend(tops: seq<Top>) {
    forall i, j :: 0 <= i < j < |tops| ==> tops[i].slot < tops[j].slot
  }

  lemma NoTopsAscend()
    ensures TopsAscend([])
  {
  }

  lemma AscendsBehind(top: Top, tail: seq<Top>)
    requires TopsAscend(tail)
    requires forall t :: t in tail ==> top.slot < t.slot
    ensures TopsAscend([top] + tail)
  {
    assert forall j :: 0 <= j < |tail| ==> tail[j] in tail;
  }

  /** The two forests of a player, one behind the other. */
  lemma PlayerPlaced(types: Types, p: Player)
    requires ValidPlayer(types, p)
    ensures var n := |ForestRows(types, InventoryTops(p.inventory, 1), 1)|;
            && ForestPlaced(types, SaveRows(types, p), InventoryTops(p.inventory, 1), 1)
            && ForestPlaced(types, SaveRows(types, p), DepotTops(p.depots), 1 + n)
  {
    hide ForestRows, InventoryTops, DepotTops, ForestPlaced, TopsOk, ValidPlayer;
    TopsFit(types, p);
    TwoForests(types, InventoryTops(p.inventory, 1), DepotTops(p.depots));
  }

  lemma TopsFit(types: Types, p: Player)
    requires ValidPlayer(types, p)
    ensures TopsOk(types, InventoryTops(p.inventory, 1)) && TopsOk(types, DepotTops(p.depots))
  {
    var tops := InventoryTops(p.inventory, 1);
    InventoryTopsAre(p.inventory, 1);
    forall i | 0 <= i < |tops| ensures WellTyped(types, tops[i].item) {
      assert tops[i] in tops;
    }
  }

  lemma TwoForests(types: Types, a: seq<Top>, b: seq<Top>)
    requires TopsOk(types, a) && TopsOk(types, b)
    ensures ForestPlaced(types, BothRows(types, a, b), a, 1)
    ensures ForestPlaced(types, BothRows(types, a, b), b, 1 + |ForestRows(types, a, 1)|)
  {
    hide ForestRows, TopsOk;
    var first := ForestRows(types, a, 1);
    var n := |first|;
    var second := ForestRows(types, b, 1 + n);
    ForestRowsOk(types, a, 1);
    ForestRowsOk(types, b, 1 + n);
    forall k | 0 <= k < |second| ensures (first + second)[n + k] == second[k] && ForestRowOk(second[k], b, 1 + n, k) {
    }
    forall k | 0 <= k < n ensures (first + second)[k] == first[k] && ForestRowOk(first[k], a, 1, k) {
    }
    ForestPlacedFirst(types, first, second, a);
    ForestPlacedSecond(types, first, second, b);
  }

  lemma ForestPlacedFirst(types: Types, first: seq<Row>, second: seq<Row>, a: seq<Top>)
    requires TopsOk(types, a) && first == ForestRows(types, a, 1)
    requires forall k :: 0 <= k < |second| ==> second[k].pid == 0 || second[k].pid >= 1 + |first|
    ensures ForestPlaced(types, first + second, a, 1)
  {
    hide ForestRows, TopsOk;
    forall k | |first| <= k < |first + second| ensures (first + second)[k] == second[k - |first|] {
    }
  }

  lemma ForestPlacedSecond(types: Types, first: seq<Row>, second: seq<Row>, b: seq<Top>)
    requires TopsOk(types, b) && second == ForestRows(types, b, 1 + |first|)
    requires forall k :: 0 <= k < |first| ==> first[k].pid < 1 + |first|
    ensures ForestPlaced(types, first + second, b, 1 + |first|)
  {
    hide ForestRows, TopsOk;
  }

  /** The `k`th row of two forests is numbered in turn, and names a slot only if it is a top row. */
  ghost predicate BothRowOk(row: Row, k: nat, a: seq<Top>, b: seq<Top>, n: nat) {
    && row.sid == k + 1 && row.pid <= k
    && (|| row.slot == 0
        || (k < |a| && row.slot == a[k].slot)
        || (n <= k < n + |b| && row.slot == b[k - n].slot))
  }

  lemma BothRowsOk(types: Types, a: seq<Top>, b: seq<Top>, k: nat)
    requires TopsOk(types, a) && TopsOk(types, b) && k < |BothRows(types, a, b)|
    ensures BothRowOk(BothRows(types, a, b)[k], k, a, b, |ForestRows(types, a, 1)|)
  {
    hide ForestRows, TopsOk;
    var first := ForestRows(types, a, 1);
    var n := |first|;
    var second := ForestRows(types, b, 1 + n);
    if k < n {
      ForestRowsOk(types, a, 1);
      assert BothRows(types, a, b)[k] == first[k] && ForestRowOk(first[k], a, 1, k);
    } else {
      ForestRowsOk(types, b, 1 + n);
      assert BothRows(types, a, b)[k] == second[k - n] && ForestRowOk(second[k - n], b, 1 + n, k - n);
    }
  }

  /** The rows of a player are numbered 1 to N, each contained item after its container. */
  lemma SavedNumbered(types: Types, p: Player)
    requires ValidPlayer(types, p)
    ensures Numbered(SaveRows(types, p))
  {
    TopsFit(types, p);
    var a, b := InventoryTops(p.inventory, 1), DepotTops(p.depots);
    forall k | 0 <= k < |SaveRows(types, p)|
      ensures SaveRows(types, p)[k].sid == k + 1 && SaveRows(types, p)[k].pid <= k
    {
      BothRowsOk(types, a, b, k);
    }
  }

  lemma ForestCounts(types: Types, tops: seq<Top>, next: nat)
    requires next >= 1 && TopsOk(types, tops)
    ensures |ForestRows(types, tops, next)| == Size(Items(tops))
  {
    hide Bfs, WellTyped;
    TopsQueueOk(types, tops, next);
    BfsCounts(types, Boxes(types, Items(tops), next), next + |tops|);
    HeldBoxes(types, Items(tops), next);
  }

  /** There is one row for each item of the player, no more and no less. */
  lemma SavedCount(types: Types, p: Player)
    requires ValidPlayer(types, p)
    ensures |SaveRows(types, p)| == Size(Items(InventoryTops(p.inventory, 1))) + Size(Items(DepotTops(p.depots)))
  {
    hide ForestRows, InventoryTops, DepotTops, TopsOk, ValidPlayer;
    TopsFit(types, p);
    ForestCounts(types, InventoryTops(p.inventory, 1), 1);
    ForestCounts(types, DepotTops(p.depots), 1 + |ForestRows(types, InventoryTops(p.inventory, 1), 1)|);
  }

  /** A row that names a slot of the inventory or a depot is the top row written for it. */
  lemma SlotNamed(types: Types, p: Player, k: nat)
    requires ValidPlayer(types, p) && k < |SaveRows(types, p)| && SaveRows(types, p)[k].slot != 0
    ensures var slot, a, b := SaveRows(types, p)[k].slot, InventoryTops(p.inventory, 1), DepotTops(p.depots);
            var n := |ForestRows(types, a, 1)|;
            if slot < 100 then 1 <= slot < SLOTS && k < |a| && a[k].slot == slot
            else n <= k < n + |b| && b[k - n].slot == slot
  {
    var a, b := InventoryTops(p.inventory, 1), DepotTops(p.depots);
    InventoryTopsAre(p.inventory, 1);
    TopsFit(types, p);
    BothRowsOk(types, a, b, k);
    if k < |a| {
      assert a[k] in a;
    }
  }

  /** The rows of a slot: none if it is empty; otherwise the first row that names it, with all that hangs from it, says
      in its columns what the item and all it holds are. */
  ghost predicate SlotRows(types: Types, rows: seq<Row>, slot: nat, item: Option<Item>) {
    match FirstWith(rows, slot)
    case None => item.None?
    case Some(k) => item.Some? && k < |rows| && TreeAt(types, rows, k + 1) == WrittenTree(types, item.value)
  }

  lemma SlotSaved(types: Types, p: Player, s: nat)
    requires ValidPlayer(types, p) && 1 <= s < SLOTS
    ensures SlotRows(types, SaveRows(types, p), s, p.inventory[s])
  {
    hide SaveRows, ForestRows, InventoryTops, DepotTops, ForestPlaced, TopsOk, WrittenTree;
    var rows, a := SaveRows(types, p), InventoryTops(p.inventory, 1);
    PlayerPlaced(types, p);
    InventoryTopsAre(p.inventory, 1);
    InventoryTopsAscend(p.inventory, 1);
    TopsFit(types, p);
    var first := FirstWith(rows, s);
    if first.Some? {
      var k := first.value;
      SlotNamed(types, p, k);
      assert a[k] in a;
      ForestRebuilt(types, rows, a, 1, k);
    } else if p.inventory[s].Some? {
      var i := InventoryTopAt(p.inventory, 1, s);
      TopSlot(types, rows, a, 1, i);
    }
  }

  /** An inventory slot is loaded with what was saved from it. */
  lemma SlotReloaded(types: Types, p: Player, s: nat)
    requires ValidPlayer(types, p) && 1 <= s < SLOTS
    ensures LoadedSlot(types, SaveRows(types, p), s)
            == if p.inventory[s].None? then None else Some(RestoredTree(types, p.inventory[s].value))
  {
    hide SaveRows, WrittenTree, RestoredTree, Made, TreeAt, ValidPlayer;
    SlotSaved(types, p, s);
    SlotsThere(types, p);
    if p.inventory[s].Some? {
      MadeOfWritten(types, p.inventory[s].value);
    }
  }

  lemma SlotsThere(types: Types, p: Player)
    requires ValidPlayer(types, p)
    ensures |p.inventory| == SLOTS
  {
  }

  lemma TopSlot(types: Types, rows: seq<Row>, tops: seq<Top>, next: nat, i: nat)
    requires ForestPlaced(types, rows, tops, next) && i < |tops|
    ensures next + i <= |rows| && rows[next + i - 1].slot == tops[i].slot
  {
    ForestPlacedMeans(types, rows, tops, next);
    TopRow(types, rows, tops, next, i);
  }

  /** Where a depot's top row stands among the depots' rows. */
  lemma DepotTopIs(types: Types, p: Player, d: nat, j: nat)
    requires ValidPlayer(types, p) && d < |p.depots| && j < |p.depots|
    requires DepotTops(p.depots)[j].slot == p.depots[d].id + 100
    ensures j == |p.depots| - 1 - d
  {
  }

  lemma DepotTopAt(depots: seq<DepotEntry>, d: nat)
    requires d < |depots|
    ensures |DepotTops(depots)| == |depots|
    ensures DepotTops(depots)[|depots| - 1 - d] == Top(depots[d].id + 100, depots[d].locker)
  {
  }

  lemma DepotSaved(types: Types, p: Player, d: nat)
    requires ValidPlayer(types, p) && d < |p.depots|
    ensures p.depots[d].id in DepotIds(SaveRows(types, p))
    ensures SlotRows(types, SaveRows(types, p), p.depots[d].id + 100, Some(p.depots[d].locker))
  {
    hide *;
    var rows, a, b := SaveRows(types, p), InventoryTops(p.inventory, 1), DepotTops(p.depots);
    var n, slot, i := |ForestRows(types, a, 1)|, p.depots[d].id + 100, |p.depots| - 1 - d;
    DepotTopAt(p.depots, d);
    PlayerPlaced(types, p);
    TopSlot(types, rows, b, 1 + n, i);
    ForestRebuilt(types, rows, b, 1 + n, i);
    DepotFound(types, p, d, n + i);
    SlotRowsAre(types, rows, slot, n + i, p.depots[d].locker);
  }

  lemma SlotRowsAre(types: Types, rows: seq<Row>, slot: nat, k: nat, item: Item)
    requires k < |rows| && FirstWith(rows, slot) == Some(k) && TreeAt(types, rows, k + 1) == WrittenTree(types, item)
    ensures SlotRows(types, rows, slot, Some(item))
  {
    hide TreeAt, WrittenTree;
  }

  /** A depot is loaded with what was saved from it. */
  lemma DepotReloaded(types: Types, p: Player, d: nat)
    requires ValidPlayer(types, p) && d < |p.depots|
    ensures p.depots[d].id in DepotIds(SaveRows(types, p))
    ensures DepotAt(types, SaveRows(types, p), p.depots[d].id) == RestoredTree(types, p.depots[d].locker)
  {
    hide SaveRows, WrittenTree, RestoredTree, Made, TreeAt, ValidPlayer, DepotIds;
    DepotSaved(types, p, d);
    MadeOfWritten(types, p.depots[d].locker);
  }

  lemma DepotFound(types: Types, p: Player, d: nat, k: nat)
    requires ValidPlayer(types, p) && d < |p.depots|
    requires k == |ForestRows(types, InventoryTops(p.inventory, 1), 1)| + |p.depots| - 1 - d
    requires k < |SaveRows(types, p)| && SaveRows(types, p)[k].slot == p.depots[d].id + 100
    ensures p.depots[d].id in DepotIds(SaveRows(types, p))
    ensures FirstWith(SaveRows(types, p), p.depots[d].id + 100) == Some(k)
  {
    hide SaveRows, ForestRows, InventoryTops, DepotTops, ValidPlayer, TreeAt;
    var rows, n := SaveRows(types, p), |ForestRows(types, InventoryTops(p.inventory, 1), 1)|;
    assert rows[k].slot >= 100 && rows[k].slot - 100 == p.depots[d].id;
    var first := FirstWith(rows, p.depots[d].id + 100).value;
    SlotNamed(types, p, first);
    DepotTopIs(types, p, d, first - n);
  }

  /** Every row that names a depot names one the player had. */
  lemma DepotIdsSaved(types: Types, p: Player, id: nat) returns (d: nat)
    requires ValidPlayer(types, p) && id in DepotIds(SaveRows(types, p))
    ensures d < |p.depots| && p.depots[d].id == id
  {
    hide SaveRows, ForestRows, InventoryTops;
    var rows, n := SaveRows(types, p), |ForestRows(types, InventoryTops(p.inventory, 1), 1)|;
    var k: nat :| k < |rows| && rows[k].slot >= 100 && rows[k].slot - 100 == id;
    SlotNamed(types, p, k);
    d := |p.depots| - 1 - (k - n);
  }

  /** Saving a player and loading the rows restores every tree: the same items, nested and ordered as before. */
  lemma SaveLoadRestores(types: Types, p: Player)
    requires ValidPlayer(types, p)
    ensures var inventory := LoadRows(types, SaveRows(types, p)).inventory;
            && |inventory| == SLOTS
            && forall s :: 0 <= s < SLOTS ==>
                 inventory[s] == if p.inventory[s].None? then None else Some(RestoredTree(types, p.inventory[s].value))
    ensures var depots := LoadRows(types, SaveRows(types, p)).depots;
            && (forall d :: 0 <= d < |p.depots| ==>
                  p.depots[d].id in depots && depots[p.depots[d].id] == RestoredTree(types, p.depots[d].locker))
            && (forall id :: id in depots ==> exists d :: 0 <= d < |p.depots| && p.depots[d].id == id)
  {
    hide SaveRows, LoadedSlot, RestoredTree, DepotIds, DepotAt;
    forall s | 1 <= s < SLOTS
      ensures LoadedSlot(types, SaveRows(types, p), s)
              == if p.inventory[s].None? then None else Some(RestoredTree(types, p.inventory[s].value))
    {
      SlotReloaded(types, p, s);
    }
    forall d | 0 <= d < |p.depots|
      ensures p.depots[d].id in DepotIds(SaveRows(types, p))
      ensures DepotAt(types, SaveRows(types, p), p.depots[d].id) == RestoredTree(types, p.depots[d].locker)
    {
      DepotReloaded(types, p, d);
    }
    forall id | id in DepotIds(SaveRows(types, p)) ensures exists d :: 0 <= d < |p.depots| && p.depots[d].id == id {
      var d := DepotIdsSaved(types, p, id);
    }
  }
}
