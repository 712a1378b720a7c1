/** The breadth-first numbering of a forest of items, and what its rows mean. */
module ItemRows {
  import opened ItemRecord

  datatype Item = Item(info: Info, kids: seq<Item>)

  /** A container with the number its row has. */
  datatype Pending = Pending(box: Item, sid: nat)

  predicate IsBox(types: Types, item: Item) {
    IsContainer(types(item.info.typ))
  }

  /** Only containers hold items. */
  predicate WellTyped(types: Types, item: Item) {
    && (item.kids != [] ==> IsBox(types, item))
    && forall i :: 0 <= i < |item.kids| ==> WellTyped(types, item.kids[i])
  }

  function Size(items: seq<Item>): nat
    decreases items
  {
    if items == [] then 0 else 1 + Size(items[0].kids) + Size(items[1..])
  }

  /** What the queue still has to number. */
  function Left(queue: seq<Pending>): nat {
    if queue == [] then 0 else 1 + 2 * Size(queue[0].box.kids) + Left(queue[1..])
  }

  lemma {:induction false} LeftConcat(a: seq<Pending>, b: seq<Pending>)
    ensures Left(a + b) == Left(a) + Left(b)
  {
    if a == [] {
      assert a + b == b;
    } else {
      assert (a + b)[1..] == a[1..] + b;
      LeftConcat(a[1..], b);
    }
  }

  /** The containers among `items`, numbered from `next`. */
  function Boxes(types: Types, items: seq<Item>, next: nat): (q: seq<Pending>)
    ensures Left(q) <= 2 * Size(items)
    decreases |items|
  {
    if items == [] then []
    else if IsBox(types, items[0]) then [Pending(items[0], next)] + Boxes(types, items[1..], next + 1)
    else Boxes(types, items[1..], next + 1)
  }

  /** The rows of the items of one container. */
  function KidRows(types: Types, items: seq<Item>, pid: nat, next: nat): (rows: seq<Row>)
    ensures |rows| == |items|
  {
    seq(|items|, i requires 0 <= i < |items| => ToRow(types, items[i].info, 0, next + i, pid))
  }

  /** The rows written while the queue is worked off, front first, the next number being `next`. */
  function Bfs(types: Types, queue: seq<Pending>, next: nat): seq<Row>
    decreases Left(queue)
  {
    if queue == [] then []
    else
      var kids := queue[0].box.kids;
      LeftConcat(queue[1..], Boxes(types, kids, next));
      KidRows(types, kids, queue[0].sid, next) + Bfs(types, queue[1..] + Boxes(types, kids, next), next + |kids|)
  }

  // ---------------------------------------------------------------- what rows mean

  /** The rows are numbered 1, 2, ... and every contained item comes after its container. */
  predicate Numbered(rows: seq<Row>) {
    forall k :: 0 <= k < |rows| ==> rows[k].sid == k + 1 && rows[k].pid <= k
  }

  /** A tree of what rows say of items. */
  datatype Written = Written(columns: Columns, kids: seq<Written>)

  /** The tree that hangs from row `sid`. */
  function TreeAt(types: Types, rows: seq<Row>, sid: nat): Written
    requires 1 <= sid <= |rows|
    decreases |rows| - sid, 1
  {
    Written(ColumnsIn(rows[sid - 1]),
            if IsContainer(types(rows[sid - 1].typ)) then Trees(types, rows, sid, sid) else [])
  }

  /** The trees of the rows from index `from` on whose container is `pid`, in the order of the rows. */
  function Trees(types: Types, rows: seq<Row>, pid: nat, from: nat): seq<Written>
    decreases |rows| - from, 0
  {
    if from >= |rows| then []
    else if rows[from].pid == pid then [TreeAt(types, rows, from + 1)] + Trees(types, rows, pid, from + 1)
    else Trees(types, rows, pid, from + 1)
  }

  /** What is written of an item and all it holds. */
  function WrittenTree(types: Types, item: Item): Written {
    Written(ColumnsOf(types, item.info), WrittenTrees(types, item.kids))
  }

  function WrittenTrees(types: Types, items: seq<Item>): (r: seq<Written>)
    ensures |r| == |items|
    ensures forall i :: 0 <= i < |items| ==> r[i] == WrittenTree(types, items[i])
  {
    if items == [] then [] else [WrittenTree(types, items[0])] + WrittenTrees(types, items[1..])
  }

  /** The item and all it holds that is made of what was written. */
  function Made(types: Types, w: Written): Item {
    Item(FromColumns(types, w.columns), MadeAll(types, w.kids))
  }

  function MadeAll(types: Types, ws: seq<Written>): (r: seq<Item>)
    ensures |r| == |ws|
    ensures forall i :: 0 <= i < |ws| ==> r[i] == Made(types, ws[i])
  {
    if ws == [] then [] else [Made(types, ws[0])] + MadeAll(types, ws[1..])
  }

  /** The tree with every item as a save and load leaves it. */
  function RestoredTree(types: Types, item: Item): Item {
    Item(Restored(types, item.info), RestoredTrees(types, item.kids))
  }

  function RestoredTrees(types: Types, items: seq<Item>): (r: seq<Item>)
    ensures |r| == |items|
    ensures forall i :: 0 <= i < |items| ==> r[i] == RestoredTree(types, items[i])
  {
    if items == [] then [] else [RestoredTree(types, items[0])] + RestoredTrees(types, items[1..])
  }

  lemma {:induction false} MadeOfWritten(types: Types, item: Item)
    ensures Made(types, WrittenTree(types, item)) == RestoredTree(types, item)
  {
    MadeOfAllWritten(types, item.kids);
  }

  lemma {:induction false} MadeOfAllWritten(types: Types, items: seq<Item>)
    ensures MadeAll(types, WrittenTrees(types, items)) == RestoredTrees(types, items)
  {
    if items != [] {
      MadeOfWritten(types, items[0]);
      MadeOfAllWritten(types, items[1..]);
    }
  }

  /** No row of `pid` from index `from` up to `to`. */
  ghost predicate NoneOf(rows: seq<Row>, pid: nat, from: nat, to: nat) {
    to <= |rows| && forall k :: from <= k < to ==> rows[k].pid != pid
  }

  /** Consecutive rows of one container, each the root of the given tree. */
  ghost predicate Run(types: Types, rows: seq<Row>, pid: nat, from: nat, trees: seq<Written>)
    decreases |trees|
  {
    trees == [] ||
    (&& from < |rows| && rows[from].pid == pid && TreeAt(types, rows, from + 1) == trees[0]
     && Run(types, rows, pid, from + 1, trees[1..]))
  }

  lemma {:induction false} TreesSkip(types: Types, rows: seq<Row>, pid: nat, from: nat, to: nat)
    requires from <= to && NoneOf(rows, pid, from, to)
    ensures Trees(types, rows, pid, from) == Trees(types, rows, pid, to)
    decreases |rows| - from
  {
    if from < to {
      TreesSkip(types, rows, pid, from + 1, to);
    }
  }

  lemma {:induction false} TreesRun(types: Types, rows: seq<Row>, pid: nat, from: nat, trees: seq<Written>)
    requires Run(types, rows, pid, from, trees)
    ensures Trees(types, rows, pid, from) == trees + Trees(types, rows, pid, from + |trees|)
    ensures trees != [] ==> from + |trees| <= |rows|
    decreases |trees|
  {
    hide TreeAt;
    if trees != [] {
      var later := trees[1..];
      TreesRun(types, rows, pid, from + 1, later);
      FirstApart(trees, Trees(types, rows, pid, from + |trees|));
    }
  }

  lemma FirstApart<T>(s: seq<T>, t: seq<T>)
    requires s != []
    ensures s + t == [s[0]] + (s[1..] + t)
  {
  }

  /** A run with no other row of its container before or behind it is all the container has. */
  lemma TreesFound(types: Types, rows: seq<Row>, pid: nat, at: nat, trees: seq<Written>)
    requires pid <= at && NoneOf(rows, pid, pid, at)
    requires Run(types, rows, pid, at, trees)
    requires NoneOf(rows, pid, at + |trees|, |rows|)
    ensures Trees(types, rows, pid, pid) == trees
  {
    TreesSkip(types, rows, pid, pid, at);
    TreesRun(types, rows, pid, at, trees);
    TreesSkip(types, rows, pid, at + |trees|, |rows|);
    assert trees + [] == trees;
  }

  // ---------------------------------------------------------------- the numbering is faithful

  /** `rows` has `part` from index `at` on. */
  ghost predicate Holds(rows: seq<Row>, at: nat, part: seq<Row>) {
    at + |part| <= |rows| && forall k :: at <= k < at + |part| ==> rows[k] == part[k - at]
  }

  /** Containers wait under distinct numbers below `next`. */
  ghost predicate QueueOk(types: Types, queue: seq<Pending>, next: nat) {
    && (forall j :: 0 <= j < |queue| ==>
          1 <= queue[j].sid < next && IsBox(types, queue[j].box) && WellTyped(types, queue[j].box))
    && (forall i, j :: 0 <= i < j < |queue| ==> queue[i].sid != queue[j].sid)
  }

  ghost predicate Queued(queue: seq<Pending>, sid: nat) {
    exists j :: 0 <= j < |queue| && queue[j].sid == sid
  }

  /** Each queued container carries the number of its own row. */
  ghost predicate BoxAt(types: Types, items: seq<Item>, next: nat, b: Pending) {
    next <= b.sid < next + |items| && b.box == items[b.sid - next] && IsBox(types, b.box)
  }

  lemma {:induction false} BoxesAt(types: Types, items: seq<Item>, next: nat)
    ensures forall b: Pending :: b in Boxes(types, items, next) ==> BoxAt(types, items, next, b)
    decreases |items|
  {
    if items != [] {
      var tail := Boxes(types, items[1..], next + 1);
      BoxesAt(types, items[1..], next + 1);
      forall b: Pending | b in Boxes(types, items, next) ensures BoxAt(types, items, next, b) {
        if b in tail {
          assert BoxAt(types, items[1..], next + 1, b);
        }
      }
    }
  }

  ghost predicate Ascending(q: seq<Pending>) {
    forall i, j :: 0 <= i < j < |q| ==> q[i].sid < q[j].sid
  }

  lemma {:induction false} BoxesAscend(types: Types, items: seq<Item>, next: nat)
    ensures Ascending(Boxes(types, items, next))
    decreases |items|
  {
    if items != [] {
      var tail := Boxes(types, items[1..], next + 1);
      BoxesAscend(types, items[1..], next + 1);
      BoxesAt(types, items[1..], next + 1);
      var q := Boxes(types, items, next);
      forall i, j | 0 <= i < j < |q| ensures q[i].sid < q[j].sid {
        if IsBox(types, items[0]) {
          assert q[j] == tail[j - 1] && tail[j - 1] in tail && BoxAt(types, items[1..], next + 1, tail[j - 1]);
          if i > 0 {
            assert q[i] == tail[i - 1];
          }
        }
      }
    }
  }

  lemma {:induction false} BoxesAll(types: Types, items: seq<Item>, next: nat, k: nat)
    requires k < |items| && IsBox(types, items[k])
    ensures Pending(items[k], next + k) in Boxes(types, items, next)
    decreases k
  {
    if k > 0 {
      BoxesAll(types, items[1..], next + 1, k - 1);
    }
  }

  /** Who is queued after the front container's turn. */
  lemma QueuedRest(types: Types, queue: seq<Pending>, next: nat, pid: nat)
    requires queue != []
    requires Queued(Turn(types, queue, next), pid)
    ensures Queued(queue[1..], pid) || next <= pid < next + |queue[0].box.kids|
    ensures Queued(queue[1..], pid) ==> Queued(queue, pid)
  {
    var rest, more := queue[1..], Boxes(types, queue[0].box.kids, next);
    BoxesAt(types, queue[0].box.kids, next);
    var both := rest + more;
    var j :| 0 <= j < |both| && both[j].sid == pid;
    if j < |rest| {
      assert rest[j].sid == pid;
    } else {
      assert more[j - |rest|] in more && BoxAt(types, queue[0].box.kids, next, more[j - |rest|]);
    }
    if Queued(rest, pid) {
      var i :| 0 <= i < |rest| && rest[i].sid == pid;
      assert queue[i + 1].sid == pid;
    }
  }

  lemma QueueMore(types: Types, queue: seq<Pending>, next: nat)
    requires queue != [] && QueueOk(types, queue, next)
    ensures var kids := queue[0].box.kids;
            QueueOk(types, Turn(types, queue, next), next + |kids|)
  {
    var kids := queue[0].box.kids;
    var more := Boxes(types, kids, next);
    BoxesAt(types, kids, next);
    BoxesAscend(types, kids, next);
    forall j | 0 <= j < |more| ensures BoxAt(types, kids, next, more[j]) && WellTyped(types, more[j].box) {
      assert more[j] in more;
    }
    var rest := queue[1..];
    forall j | 0 <= j < |rest| ensures rest[j] == queue[j + 1] {
    }
    assert Turn(types, queue, next) == rest + more;
  }

  /** The queue that one turn leaves. */
  function Turn(types: Types, queue: seq<Pending>, next: nat): seq<Pending>
    requires queue != []
  {
    queue[1..] + Boxes(types, queue[0].box.kids, next)
  }

  lemma BfsStep(types: Types, queue: seq<Pending>, next: nat)
    requires queue != []
    ensures var kids, rest := queue[0].box.kids, Turn(types, queue, next);
            && Left(rest) < Left(queue)
            && Bfs(types, queue, next)
               == KidRows(types, kids, queue[0].sid, next) + Bfs(types, rest, next + |kids|)
  {
    var more := Boxes(types, queue[0].box.kids, next);
    LeftConcat(queue[1..], more);
    assert Turn(types, queue, next) == queue[1..] + more;
    assert Left(queue) == 1 + 2 * Size(queue[0].box.kids) + Left(queue[1..]);
  }

  /** The `k`th row written: numbered in turn, outside the slots, and of a container already numbered. */
  ghost predicate RowOk(row: Row, queue: seq<Pending>, next: nat, sid: nat) {
    && row.sid == sid && row.slot == 0 && 1 <= row.pid < sid
    && (Queued(queue, row.pid) || next <= row.pid)
  }

  lemma BfsRows(types: Types, queue: seq<Pending>, next: nat)
    requires QueueOk(types, queue, next)
    ensures forall k :: 0 <= k < |Bfs(types, queue, next)| ==> RowOk(Bfs(types, queue, next)[k], queue, next, next + k)
  {
    hide QueueOk, RowOk, Bfs;
    forall k | 0 <= k < |Bfs(types, queue, next)| ensures RowOk(Bfs(types, queue, next)[k], queue, next, next + k) {
      BfsRow(types, queue, next, k);
    }
  }

  lemma {:induction false} BfsRow(types: Types, queue: seq<Pending>, next: nat, k: nat)
    requires QueueOk(types, queue, next) && k < |Bfs(types, queue, next)|
    ensures RowOk(Bfs(types, queue, next)[k], queue, next, next + k)
    decreases Left(queue)
  {
    hide Bfs, Turn, QueueOk, RowOk, KidRows, Left;
    EmptyBfs(types, next);
    assert queue != [];
    BfsStep(types, queue, next);
    FrontNumber(types, queue, next);
    var n := |queue[0].box.kids|;
    if k < n {
      FrontRowOk(types, queue, next, k);
    } else {
      QueueMore(types, queue, next);
      BfsRow(types, Turn(types, queue, next), next + n, k - n);
      LaterRowOk(types, queue, next, Bfs(types, queue, next)[k], next + k);
    }
  }

  lemma EmptyBfs(types: Types, next: nat)
    ensures Bfs(types, [], next) == []
  {
  }

  lemma FrontNumber(types: Types, queue: seq<Pending>, next: nat)
    requires QueueOk(types, queue, next) && queue != []
    ensures 1 <= queue[0].sid < next
  {
  }

  lemma FrontRowOk(types: Types, queue: seq<Pending>, next: nat, k: nat)
    requires queue != [] && k < |queue[0].box.kids| && 1 <= queue[0].sid < next
    ensures RowOk(KidRows(types, queue[0].box.kids, queue[0].sid, next)[k], queue, next, next + k)
  {
    assert Queued(queue, queue[0].sid);
  }

  lemma LaterRowOk(types: Types, queue: seq<Pending>, next: nat, row: Row, sid: nat)
    requires queue != [] && RowOk(row, Turn(types, queue, next), next + |queue[0].box.kids|, sid)
    ensures RowOk(row, queue, next, sid)
  {
    if Queued(Turn(types, queue, next), row.pid) {
      QueuedRest(types, queue, next, row.pid);
    }
  }

  /** No row outside the written part belongs to a container that the part numbers or has queued. */
  ghost predicate Apart(rows: seq<Row>, at: nat, n: nat, queue: seq<Pending>) {
    forall k :: 0 <= k < |rows| && !(at <= k < at + n) ==>
      !Queued(queue, rows[k].pid) && !(at < rows[k].pid <= at + n)
  }

  /** The rows hold what the queue writes, and nothing else belongs to it. */
  ghost predicate Placed(types: Types, rows: seq<Row>, queue: seq<Pending>, next: nat) {
    && next >= 1 && QueueOk(types, queue, next)
    && Holds(rows, next - 1, Bfs(types, queue, next))
    && Apart(rows, next - 1, |Bfs(types, queue, next)|, queue)
  }

  /** The container finds its items back in the rows. */
  ghost predicate Rebuilt(types: Types, rows: seq<Row>, b: Pending) {
    Trees(types, rows, b.sid, b.sid) == WrittenTrees(types, b.box.kids)
  }

  /** The written rows, wherever they stand among others, give every queued container its items back. */
  lemma {:induction false} BfsRebuilds(types: Types, rows: seq<Row>, queue: seq<Pending>, next: nat)
    requires Placed(types, rows, queue, next)
    ensures forall b: Pending :: b in queue ==> Rebuilt(types, rows, b)
    decreases Left(queue)
  {
    if queue != [] {
      var kids, rest := queue[0].box.kids, Turn(types, queue, next);
      BfsStep(types, queue, next);
      RestPlaced(types, rows, queue, next);
      BfsRebuilds(types, rows, rest, next + |kids|);
      forall b: Pending | b in Boxes(types, kids, next) ensures Rebuilt(types, rows, b) {
        assert b in rest;
      }
      hide Placed, Rebuilt;
      FrontRebuilt(types, rows, queue, next);
      forall b: Pending | b in queue ensures Rebuilt(types, rows, b) {
        if b != queue[0] {
          assert b in rest;
        }
      }
    }
  }

  lemma RestPlaced(types: Types, rows: seq<Row>, queue: seq<Pending>, next: nat)
    requires queue != [] && Placed(types, rows, queue, next)
    ensures Placed(types, rows, Turn(types, queue, next), next + |queue[0].box.kids|)
    ensures Holds(rows, next - 1, KidRows(types, queue[0].box.kids, queue[0].sid, next))
  {
    hide *;
    var kids, rest := queue[0].box.kids, Turn(types, queue, next);
    var head, tail := KidRows(types, kids, queue[0].sid, next), Bfs(types, rest, next + |kids|);
    PlacedMeans(types, rows, queue, next);
    BfsStep(types, queue, next);
    QueueMore(types, queue, next);
    RestApart(types, rows, queue, next);
    HoldsSplit(rows, next - 1, head, tail);
    PlacedBy(types, rows, rest, next + |kids|);
  }

  lemma RestApart(types: Types, rows: seq<Row>, queue: seq<Pending>, next: nat)
    requires queue != [] && Placed(types, rows, queue, next)
    ensures var rest, next' := Turn(types, queue, next), next + |queue[0].box.kids|;
            Apart(rows, next' - 1, |Bfs(types, rest, next')|, rest)
  {
    hide Bfs, Turn, Placed, Queued;
    var rest, next' := Turn(types, queue, next), next + |queue[0].box.kids|;
    forall k | 0 <= k < |rows| && !(next' - 1 <= k < next' - 1 + |Bfs(types, rest, next')|)
      ensures !Queued(rest, rows[k].pid)
      ensures !(next' - 1 < rows[k].pid <= next' - 1 + |Bfs(types, rest, next')|)
    {
      OutsiderApart(types, rows, queue, next, k);
    }
  }

  lemma PlacedMeans(types: Types, rows: seq<Row>, queue: seq<Pending>, next: nat)
    requires Placed(types, rows, queue, next)
    ensures next >= 1 && QueueOk(types, queue, next)
    ensures Holds(rows, next - 1, Bfs(types, queue, next))
  {
  }

  lemma PlacedBy(types: Types, rows: seq<Row>, queue: seq<Pending>, next: nat)
    requires next >= 1 && QueueOk(types, queue, next)
    requires Holds(rows, next - 1, Bfs(types, queue, next))
    requires Apart(rows, next - 1, |Bfs(types, queue, next)|, queue)
    ensures Placed(types, rows, queue, next)
  {
  }

  lemma HoldsSplit(rows: seq<Row>, at: nat, a: seq<Row>, b: seq<Row>)
    requires Holds(rows, at, a + b)
    ensures Holds(rows, at, a) && Holds(rows, at + |a|, b)
  {
    forall k | at <= k < at + |a| ensures rows[k] == a[k - at] {
      assert (a + b)[k - at] == a[k - at];
    }
    forall k | at + |a| <= k < at + |a| + |b| ensures rows[k] == b[k - (at + |a|)] {
      assert (a + b)[k - at] == b[k - (at + |a|)];
    }
  }

  lemma OutsiderApart(types: Types, rows: seq<Row>, queue: seq<Pending>, next: nat, k: nat)
    requires queue != [] && Placed(types, rows, queue, next) && k < |rows|
    requires var rest, next' := Turn(types, queue, next), next + |queue[0].box.kids|;
             !(next' - 1 <= k < next' - 1 + |Bfs(types, rest, next')|)
    ensures var rest, next' := Turn(types, queue, next), next + |queue[0].box.kids|;
            && !Queued(rest, rows[k].pid)
            && !(next' - 1 < rows[k].pid <= next' - 1 + |Bfs(types, rest, next')|)
  {
    hide *;
    var pid := rows[k].pid;
    PlacedMeans(types, rows, queue, next);
    BfsLength(types, queue, next);
    if next - 1 <= k < next - 1 + |queue[0].box.kids| {
      FrontRow(types, rows, queue, next, k);
      FrontDistinct(types, queue, next);
    } else {
      OutsideMeans(types, rows, queue, next, k);
    }
    PidApart(types, queue, next, pid);
  }

  lemma BfsLength(types: Types, queue: seq<Pending>, next: nat)
    requires queue != []
    ensures |Bfs(types, queue, next)|
            == |queue[0].box.kids| + |Bfs(types, Turn(types, queue, next), next + |queue[0].box.kids|)|
  {
    BfsStep(types, queue, next);
  }

  lemma OutsideMeans(types: Types, rows: seq<Row>, queue: seq<Pending>, next: nat, k: nat)
    requires Placed(types, rows, queue, next) && k < |rows|
    requires !(next - 1 <= k < next - 1 + |Bfs(types, queue, next)|)
    ensures !Queued(queue, rows[k].pid)
    ensures !(next - 1 < rows[k].pid <= next - 1 + |Bfs(types, queue, next)|)
  {
  }

  lemma PidApart(types: Types, queue: seq<Pending>, next: nat, pid: nat)
    requires queue != [] && !(next <= pid < next + |queue[0].box.kids|)
    requires !Queued(queue[1..], pid) || !Queued(queue, pid)
    ensures !Queued(Turn(types, queue, next), pid)
  {
    if Queued(Turn(types, queue, next), pid) {
      QueuedRest(types, queue, next, pid);
    }
  }

  lemma FrontRow(types: Types, rows: seq<Row>, queue: seq<Pending>, next: nat, k: nat)
    requires queue != [] && Placed(types, rows, queue, next)
    requires next - 1 <= k < next - 1 + |queue[0].box.kids|
    ensures k < |rows| && rows[k].pid == queue[0].sid
  {
    BfsStep(types, queue, next);
    var head := KidRows(types, queue[0].box.kids, queue[0].sid, next);
    assert Bfs(types, queue, next)[k - (next - 1)] == head[k - (next - 1)];
  }

  lemma FrontDistinct(types: Types, queue: seq<Pending>, next: nat)
    requires queue != [] && QueueOk(types, queue, next)
    ensures !Queued(queue[1..], queue[0].sid) && queue[0].sid < next
  {
    var rest := queue[1..];
    forall i | 0 <= i < |rest| ensures rest[i].sid != queue[0].sid {
      assert rest[i] == queue[i + 1];
    }
  }

  /** The container at the front of the queue finds its items in the rows just written for it, and nowhere else. */
  lemma FrontRebuilt(types: Types, rows: seq<Row>, queue: seq<Pending>, next: nat)
    requires queue != [] && Placed(types, rows, queue, next)
    requires forall b: Pending :: b in Boxes(types, queue[0].box.kids, next) ==> Rebuilt(types, rows, b)
    ensures Rebuilt(types, rows, queue[0])
  {
    var kids, pid := queue[0].box.kids, queue[0].sid;
    RestPlaced(types, rows, queue, next);
    NoneBefore(types, rows, queue, next);
    NoneAfter(types, rows, queue, next);
    assert WellTyped(types, queue[0].box) && pid < next;
    KidsRebuilt(types, rows, queue[0].box, pid, next);
    hide *;
    FoundAll(types, rows, queue[0], next);
  }

  lemma FoundAll(types: Types, rows: seq<Row>, b: Pending, next: nat)
    requires b.sid < next && NoneOf(rows, b.sid, b.sid, next - 1)
    requires Run(types, rows, b.sid, next - 1, WrittenTrees(types, b.box.kids))
    requires NoneOf(rows, b.sid, next - 1 + |b.box.kids|, |rows|)
    ensures Rebuilt(types, rows, b)
  {
    TreesFound(types, rows, b.sid, next - 1, WrittenTrees(types, b.box.kids));
  }

  lemma KidsRebuilt(types: Types, rows: seq<Row>, box: Item, pid: nat, next: nat)
    requires next >= 1 && Holds(rows, next - 1, KidRows(types, box.kids, pid, next))
    requires WellTyped(types, box)
    requires forall b: Pending :: b in Boxes(types, box.kids, next) ==> Rebuilt(types, rows, b)
    ensures Run(types, rows, pid, next - 1, WrittenTrees(types, box.kids))
  {
    forall i | 0 <= i < |box.kids| ensures KidAt(types, rows, box.kids, pid, next, i) {
      KidRebuilt(types, rows, box.kids, pid, next, i);
    }
    RunFrom(types, rows, box.kids, pid, next, 0);
    assert WrittenTrees(types, box.kids)[0..] == WrittenTrees(types, box.kids);
  }

  /** The `i`th item of the container is rebuilt from its row. */
  ghost predicate KidAt(types: Types, rows: seq<Row>, kids: seq<Item>, pid: nat, next: nat, i: nat)
    requires i < |kids|
  {
    && 1 <= next + i <= |rows|
    && rows[next + i - 1].pid == pid && TreeAt(types, rows, next + i) == WrittenTree(types, kids[i])
  }

  lemma {:induction false} RunFrom(types: Types, rows: seq<Row>, kids: seq<Item>, pid: nat, next: nat, i: nat)
    requires next >= 1 && i <= |kids|
    requires forall j :: 0 <= j < |kids| ==> KidAt(types, rows, kids, pid, next, j)
    ensures Run(types, rows, pid, next - 1 + i, WrittenTrees(types, kids)[i..])
    decreases |kids| - i
  {
    if i < |kids| {
      RunFrom(types, rows, kids, pid, next, i + 1);
      assert KidAt(types, rows, kids, pid, next, i);
      var trees := WrittenTrees(types, kids);
      assert trees[i..][1..] == trees[i + 1..];
    }
  }

  lemma KidRebuilt(types: Types, rows: seq<Row>, kids: seq<Item>, pid: nat, next: nat, i: nat)
    requires next >= 1 && i < |kids| && Holds(rows, next - 1, KidRows(types, kids, pid, next))
    requires WellTyped(types, kids[i])
    requires forall b: Pending :: b in Boxes(types, kids, next) ==> Rebuilt(types, rows, b)
    ensures KidAt(types, rows, kids, pid, next, i)
  {
    assert rows[next - 1 + i] == KidRows(types, kids, pid, next)[i];
    RowWritten(types, kids[i].info, 0, next + i, pid);
    hide Holds, KidRows, ColumnsIn, ToRow, ColumnsOf, Boxes, TreeAt, Trees, WrittenTree, WrittenTrees, WellTyped;
    BoxFound(types, rows, kids, next, i);
    TreeRestored(types, rows, next + i, kids[i]);
  }

  /** A rebuilt container among consecutive rows finds its items under its own number. */
  lemma BoxFound(types: Types, rows: seq<Row>, items: seq<Item>, next: nat, i: nat)
    requires i < |items|
    requires forall b: Pending :: b in Boxes(types, items, next) ==> Rebuilt(types, rows, b)
    ensures IsBox(types, items[i]) ==> Trees(types, rows, next + i, next + i) == WrittenTrees(types, items[i].kids)
  {
    if IsBox(types, items[i]) {
      BoxesAll(types, items, next, i);
      assert Rebuilt(types, rows, Pending(items[i], next + i));
    }
  }

  /** A row that restores its item, and finds what the item holds, restores the whole tree. */
  lemma TreeRestored(types: Types, rows: seq<Row>, sid: nat, item: Item)
    requires 1 <= sid <= |rows| && WellTyped(types, item)
    requires ColumnsIn(rows[sid - 1]) == ColumnsOf(types, item.info)
    requires IsBox(types, item) ==> Trees(types, rows, sid, sid) == WrittenTrees(types, item.kids)
    ensures TreeAt(types, rows, sid) == WrittenTree(types, item)
  {
    ColumnsAre(types, item.info);
  }

  lemma NoneBefore(types: Types, rows: seq<Row>, queue: seq<Pending>, next: nat)
    requires queue != [] && Placed(types, rows, queue, next)
    ensures NoneOf(rows, queue[0].sid, queue[0].sid, next - 1)
  {
    assert Queued(queue, queue[0].sid);
  }

  lemma NoneAfter(types: Types, rows: seq<Row>, queue: seq<Pending>, next: nat)
    requires queue != [] && Placed(types, rows, queue, next)
    ensures NoneOf(rows, queue[0].sid, next - 1 + |queue[0].box.kids|, |rows|)
  {
    forall k | next - 1 + |queue[0].box.kids| <= k < |rows| ensures rows[k].pid != queue[0].sid {
      LaterRow(types, rows, queue, next, k);
    }
  }

  lemma LaterRow(types: Types, rows: seq<Row>, queue: seq<Pending>, next: nat, k: nat)
    requires queue != [] && Placed(types, rows, queue, next)
    requires next - 1 + |queue[0].box.kids| <= k < |rows|
    ensures rows[k].pid != queue[0].sid
  {
    hide *;
    var rest, next' := Turn(types, queue, next), next + |queue[0].box.kids|;
    BfsLength(types, queue, next);
    PlacedMeans(types, rows, queue, next);
    FrontDistinct(types, queue, next);
    if k < next' - 1 + |Bfs(types, rest, next')| {
      RestPlaced(types, rows, queue, next);
      WrittenRow(types, rows, rest, next', k);
      LaterPid(types, queue, next, rows[k], k + 1);
    } else {
      OutsideMeans(types, rows, queue, next, k);
      FrontQueued(queue);
    }
  }

  lemma FrontQueued(queue: seq<Pending>)
    requires queue != []
    ensures Queued(queue, queue[0].sid)
  {
  }

  lemma LaterPid(types: Types, queue: seq<Pending>, next: nat, row: Row, sid: nat)
    requires queue != [] && !Queued(queue[1..], queue[0].sid) && queue[0].sid < next
    requires RowOk(row, Turn(types, queue, next), next + |queue[0].box.kids|, sid)
    ensures row.pid != queue[0].sid
  {
    if Queued(Turn(types, queue, next), row.pid) {
      QueuedRest(types, queue, next, row.pid);
    }
  }

  lemma WrittenRow(types: Types, rows: seq<Row>, queue: seq<Pending>, next: nat, k: nat)
    requires Placed(types, rows, queue, next) && next - 1 <= k < next - 1 + |Bfs(types, queue, next)|
    ensures k < |rows| && RowOk(rows[k], queue, next, k + 1)
  {
    BfsRows(types, queue, next);
    var i := k - (next - 1);
    assert RowOk(Bfs(types, queue, next)[i], queue, next, next + i);
  }

  // ---------------------------------------------------------------- one row for each item

  /** All that is inside the containers of a queue. */
  function Held(queue: seq<Pending>): nat {
    if queue == [] then 0 else Size(queue[0].box.kids) + Held(queue[1..])
  }

  lemma {:induction false} HeldConcat(a: seq<Pending>, b: seq<Pending>)
    ensures Held(a + b) == Held(a) + Held(b)
  {
    if a == [] {
      assert a + b == b;
    } else {
      assert (a + b)[1..] == a[1..] + b;
      HeldConcat(a[1..], b);
    }
  }

  /** A list of items is its items and all that their containers hold. */
  lemma {:induction false} HeldBoxes(types: Types, items: seq<Item>, next: nat)
    requires forall i :: 0 <= i < |items| ==> WellTyped(types, items[i])
    ensures |items| + Held(Boxes(types, items, next)) == Size(items)
    decreases |items|
  {
    if items != [] {
      HeldBoxes(types, items[1..], next + 1);
      var rest := Boxes(types, items[1..], next + 1);
      assert WellTyped(types, items[0]);
      if IsBox(types, items[0]) {
        assert ([Pending(items[0], next)] + rest)[1..] == rest;
      }
    }
  }

  /** Working off the queue writes one row for each item its containers hold. */
  lemma {:induction false} BfsCounts(types: Types, queue: seq<Pending>, next: nat)
    requires QueueOk(types, queue, next)
    ensures |Bfs(types, queue, next)| == Held(queue)
    decreases Left(queue)
  {
    hide Bfs, WellTyped, Boxes, KidRows, Left;
    if queue == [] {
      NoRows(types, next);
    } else {
      var kids := queue[0].box.kids;
      BfsStep(types, queue, next);
      QueueMore(types, queue, next);
      BfsCounts(types, Turn(types, queue, next), next + |kids|);
      HeldConcat(queue[1..], Boxes(types, kids, next));
      KidsTyped(types, queue[0].box);
      HeldBoxes(types, kids, next);
    }
  }

  lemma NoRows(types: Types, next: nat)
    ensures Bfs(types, [], next) == []
  {
  }

  lemma KidsTyped(types: Types, box: Item)
    requires WellTyped(types, box)
    ensures forall i :: 0 <= i < |box.kids| ==> WellTyped(types, box.kids[i])
  {
  }
}
