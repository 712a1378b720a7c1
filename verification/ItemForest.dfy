/** Items in containers: parent pointers, item lists, and the chains of containers above each item. */
module ItemForest {
  import opened Bytes

  datatype Kind = Plain | Box | Depot | Tile

  /** The item table keeps the number of slots in 16 bits. */
  type Slots = n: int | 0 <= n < 0x1_0000

  /** What the item table says of a type, as far as moving items needs it. */
  datatype ThingType = ThingType(id: nat, kind: Kind, stackable: bool, pickupable: bool, moveable: bool,
                                 capacity: Slots, weight: real)

  class Thing {
    const typ: ThingType
    const uniqueId: nat
    const depotLimit: nat
    var parent: Thing?
    var list: seq<Thing>
    var count: byte

    constructor (typ: ThingType, uniqueId: nat, depotLimit: nat, count: byte)
      ensures this.typ == typ && this.uniqueId == uniqueId && this.depotLimit == depotLimit
      ensures this.count == count && parent == null && list == []
    {
      this.typ, this.uniqueId, this.depotLimit, this.count := typ, uniqueId, depotLimit, count;
      parent, list := null, [];
    }

    /** Stands for the object a call would have created, had it needed one. */
    ghost constructor Spare(typ: ThingType)
      ensures this.typ == typ
    {
      this.typ, uniqueId, depotLimit, count, parent, list := typ, 0, 0, 0, null, [];
    }
  }

  /** All things of the world: their fields, the containers above each of them, and those handed over for deletion. */
  datatype State = State(parent: map<Thing, Thing?>, list: map<Thing, seq<Thing>>, count: map<Thing, byte>,
                         above: map<Thing, set<Thing>>, freed: set<Thing>)
  {
    ghost function All(): set<Thing> {
      parent.Keys
    }

    /** What is inside a container, at any depth. */
    ghost function Below(c: Thing): set<Thing>
      requires above.Keys == All()
    {
      set t | t in All() && c in above[t]
    }
  }

  ghost predicate SameKeys(st: State) {
    st.list.Keys == st.All() && st.count.Keys == st.All() && st.above.Keys == st.All() && st.freed <= st.All()
  }

  /** A thing with a parent is in the parent's list. */
  ghost predicate ParentOk(st: State, t: Thing)
    requires SameKeys(st) && t in st.All()
  {
    && (st.parent[t] != null ==> st.parent[t] in st.All() && t in st.list[st.parent[t]])
    && (t.typ.kind.Tile? ==> st.parent[t] == null)
  }

  /** The things in a container's list are there once each, and the container is their parent. */
  ghost predicate ListOk(st: State, c: Thing)
    requires SameKeys(st) && c in st.All()
  {
    && NoDuplicates(st.list[c])
    && (st.list[c] != [] ==> !c.typ.kind.Plain?)
    && forall t :: t in st.list[c] ==> t in st.All() && st.parent[t] == c
  }

  /** So a thing is in a container's list, and then once, exactly when the container is its parent. */
  ghost predicate Linked(st: State)
    requires SameKeys(st)
  {
    forall t :: t in st.All() ==> ParentOk(st, t) && ListOk(st, t)
  }

  /** The chain of parents is recorded right, and no thing is on its own chain. */
  ghost predicate ChainOk(st: State, t: Thing)
    requires SameKeys(st) && t in st.All()
  {
    && st.above[t] <= st.All() && t !in st.above[t]
    && if st.parent[t] == null then st.above[t] == {}
       else st.parent[t] in st.All() && st.above[t] == st.above[st.parent[t]] + {st.parent[t]}
  }

  ghost predicate Forest(st: State) {
    SameKeys(st) && Linked(st) && forall t :: t in st.All() ==> ChainOk(st, t)
  }

  lemma {:induction false} AboveTransitive(st: State, t: Thing, a: Thing)
    requires Forest(st) && t in st.All() && a in st.above[t]
    ensures a in st.All() && st.above[a] <= st.above[t]
    decreases |st.above[t]|
  {
    assert ChainOk(st, t);
    var p := st.parent[t];
    if a != p {
      assert ChainOk(st, p);
      assert st.above[p] < st.above[t];
      SmallerSet(st.above[p], st.above[t]);
      AboveTransitive(st, p, a);
    }
  }

  lemma {:induction false} SmallerSet<T>(a: set<T>, b: set<T>)
    requires a < b
    ensures |a| < |b|
  {
    var x :| x in b && x !in a;
    if a != {} {
      var y :| y in a;
      SmallerSet(a - {y}, b - {y});
    }
  }

  /** Two containers above one thing are one above the other. */
  lemma {:induction false} AboveLinear(st: State, t: Thing, a: Thing, b: Thing)
    requires Forest(st) && t in st.All() && a in st.above[t] && b in st.above[t]
    ensures a in st.All() && b in st.All()
    ensures a == b || a in st.above[b] || b in st.above[a]
    decreases |st.above[t]|
  {
    assert ChainOk(st, t);
    var p := st.parent[t];
    if a != p && b != p {
      assert ChainOk(st, p);
      SmallerSet(st.above[p], st.above[t]);
      AboveLinear(st, p, a, b);
    }
  }

  // ---------------------------------------------------------------- linking and unlinking

  function Without(s: seq<Thing>, t: Thing): seq<Thing> {
    if s == [] then [] else if s[0] == t then s[1..] else [s[0]] + Without(s[1..], t)
  }

  /** `t` and everything inside it. */
  ghost predicate Moves(st: State, t: Thing, x: Thing)
    requires t in st.above.Keys
  {
    t == x || x in st.above[t]
  }

  /** The detached thing `x` becomes the `i`th item of `c`. */
  ghost function Link(st: State, c: Thing, i: nat, x: Thing): (r: State)
    requires SameKeys(st) && c in st.All() && x in st.All() && i <= |st.list[c]|
    ensures SameKeys(r) && r.All() == st.All() && r.count == st.count && r.freed == st.freed
  {
    st.(parent := st.parent[x := c],
        list := st.list[c := Insert(st.list[c], i, x)],
        above := map t | t in st.All() :: if Moves(st, t, x) then st.above[t] + st.above[c] + {c} else st.above[t])
  }

  /** `x` leaves its container. */
  ghost function Unlink(st: State, x: Thing): (r: State)
    requires SameKeys(st) && x in st.All() && st.parent[x] != null && st.parent[x] in st.All()
    ensures SameKeys(r) && r.All() == st.All() && r.count == st.count && r.freed == st.freed
  {
    var c := st.parent[x];
    st.(parent := st.parent[x := null],
        list := st.list[c := Without(st.list[c], x)],
        above := map t | t in st.All() :: if Moves(st, t, x) then st.above[t] - st.above[x] else st.above[t])
  }

  /** What must hold for `x` to go into `c`: it is in no container, and `c` is not inside it. */
  ghost predicate Attachable(st: State, c: Thing, x: Thing)
    requires SameKeys(st)
  {
    && c in st.All() && x in st.All() && !c.typ.kind.Plain? && !x.typ.kind.Tile?
    && st.parent[x] == null && x != c && x !in st.above[c]
  }

  /** What linking does to the record of one thing. */
  lemma LinkAt(st: State, c: Thing, i: nat, x: Thing, t: Thing)
    requires SameKeys(st) && c in st.All() && x in st.All() && i <= |st.list[c]| && t in st.All()
    ensures var st' := Link(st, c, i, x);
            && st'.parent[t] == (if t == x then c else st.parent[t])
            && st'.list[t] == (if t == c then Insert(st.list[c], i, x) else st.list[t])
            && st'.above[t] == if Moves(st, t, x) then st.above[t] + st.above[c] + {c} else st.above[t]
  {
  }

  lemma UnlinkAt(st: State, x: Thing, t: Thing)
    requires SameKeys(st) && x in st.All() && st.parent[x] != null && st.parent[x] in st.All() && t in st.All()
    ensures var st' := Unlink(st, x);
            && st'.parent[t] == (if t == x then null else st.parent[t])
            && st'.list[t] == (if t == st.parent[x] then Without(st.list[t], x) else st.list[t])
            && st'.above[t] == if Moves(st, t, x) then st.above[t] - st.above[x] else st.above[t]
  {
  }

  lemma ThingOk(st: State, t: Thing)
    requires Forest(st) && t in st.All()
    ensures SameKeys(st) && ChainOk(st, t) && ParentOk(st, t) && ListOk(st, t)
  {
  }

  lemma LinkChain(st: State, c: Thing, i: nat, x: Thing, t: Thing)
    requires Forest(st) && Attachable(st, c, x) && i <= |st.list[c]| && t in st.All()
    ensures ChainOk(Link(st, c, i, x), t)
  {
    hide Link, Linked;
    assert ChainOk(st, t) && ChainOk(st, c) && ChainOk(st, x);
    LinkAt(st, c, i, x, t);
    LinkAt(st, c, i, x, c);
    if st.parent[t] != null {
      assert ChainOk(st, st.parent[t]);
      LinkAt(st, c, i, x, st.parent[t]);
    }
    if x in st.above[t] && t in st.above[c] {
      AboveTransitive(st, c, t);
    }
  }

  lemma UnlinkChain(st: State, x: Thing, t: Thing)
    requires Forest(st) && x in st.All() && st.parent[x] != null && t in st.All()
    ensures ChainOk(Unlink(st, x), t)
  {
    hide Forest, Unlink, Linked, ListOk, ParentOk;
    ThingOk(st, t);
    ThingOk(st, x);
    ThingOk(st, st.parent[x]);
    UnlinkAt(st, x, t);
    var p := st.parent[t];
    if p != null {
      ThingOk(st, p);
      UnlinkAt(st, x, p);
      if Moves(st, p, x) && p in st.above[x] {
        AboveTransitive(st, x, p);
      }
    }
  }

  lemma {:induction false} WithoutIs(s: seq<Thing>, x: Thing)
    requires NoDuplicates(s)
    ensures forall t :: t in Without(s, x) <==> t in s && t != x
    ensures NoDuplicates(Without(s, x))
    ensures |Without(s, x)| == if x in s then |s| - 1 else |s|
  {
    if s != [] && s[0] != x {
      WithoutIs(s[1..], x);
      var w := Without(s[1..], x);
      assert Without(s, x) == [s[0]] + w;
      forall i, j | 0 <= i < j < |Without(s, x)| ensures Without(s, x)[i] != Without(s, x)[j] {
        assert w[j - 1] in w;
      }
    } else if s != [] {
      assert s == [s[0]] + s[1..];
    }
  }

  function Insert(s: seq<Thing>, i: nat, x: Thing): seq<Thing>
    requires i <= |s|
  {
    s[..i] + [x] + s[i..]
  }

  lemma InsertIs(s: seq<Thing>, i: nat, x: Thing)
    requires NoDuplicates(s) && x !in s && i <= |s|
    ensures forall t :: t in Insert(s, i, x) <==> t in s || t == x
    ensures NoDuplicates(Insert(s, i, x))
  {
    var s' := Insert(s, i, x);
    assert forall j :: 0 <= j < |s'| ==> s'[j] == if j < i then s[j] else if j == i then x else s[j - 1];
    forall t | t in s ensures t in s' {
      var k :| 0 <= k < |s| && s[k] == t;
      assert s'[if k < i then k else k + 1] == t;
    }
    assert s'[i] == x;
  }

  /** Who is in a list after a thing has been linked. */
  lemma LinkedIn(st: State, c: Thing, i: nat, x: Thing, t: Thing, u: Thing)
    requires Forest(st) && Attachable(st, c, x) && i <= |st.list[c]| && t in st.All()
    ensures u in Link(st, c, i, x).list[t] ==> u in st.All() && Link(st, c, i, x).parent[u] == t
    ensures u in st.list[t] ==> u in Link(st, c, i, x).list[t]
    ensures u == x && t == c ==> u in Link(st, c, i, x).list[t]
  {
    hide Forest, Link, Linked, ChainOk, NoDuplicates, ParentOk;
    ThingOk(st, t);
    LinkAt(st, c, i, x, t);
    InsertedIn(st.list[c], i, x, u);
    if u in st.All() {
      LinkAt(st, c, i, x, u);
    }
  }

  lemma InsertedIn(s: seq<Thing>, i: nat, x: Thing, t: Thing)
    requires i <= |s|
    ensures t in Insert(s, i, x) <==> t in s || t == x
  {
    assert s == s[..i] + s[i..];
  }

  lemma LinkedOnce(st: State, c: Thing, i: nat, x: Thing, t: Thing)
    requires Forest(st) && Attachable(st, c, x) && i <= |st.list[c]| && t in st.All()
    ensures NoDuplicates(Link(st, c, i, x).list[t])
  {
    hide Forest, Link, Linked, ChainOk, ParentOk;
    ThingOk(st, t);
    LinkAt(st, c, i, x, t);
    if t == c {
      InsertIs(st.list[c], i, x);
    }
  }

  lemma LinkLinked(st: State, c: Thing, i: nat, x: Thing, t: Thing)
    requires Forest(st) && Attachable(st, c, x) && i <= |st.list[c]| && t in st.All()
    ensures ParentOk(Link(st, c, i, x), t) && ListOk(Link(st, c, i, x), t)
  {
    hide Forest, Link, Linked, Insert, ChainOk, NoDuplicates;
    ThingOk(st, t);
    var st' := Link(st, c, i, x);
    LinkAt(st, c, i, x, t);
    LinkedOnce(st, c, i, x, t);
    var p := st'.parent[t];
    if p != null {
      LinkedIn(st, c, i, x, p, t);
    }
    forall u | u in st'.list[t] ensures u in st'.All() && st'.parent[u] == t {
      LinkedIn(st, c, i, x, t, u);
    }
  }

  /** Who is in a list after a thing has left. */
  lemma UnlinkedIn(st: State, x: Thing, t: Thing, u: Thing)
    requires Forest(st) && x in st.All() && st.parent[x] != null && t in st.All()
    ensures u in Unlink(st, x).list[t] ==> u in st.All() && Unlink(st, x).parent[u] == t
    ensures u in st.list[t] && u != x ==> u in Unlink(st, x).list[t]
  {
    hide Forest, Unlink, Linked, Without, ChainOk;
    ThingOk(st, t);
    ThingOk(st, x);
    UnlinkAt(st, x, t);
    var w := Without(st.list[t], x);
    WithoutIs(st.list[t], x);
    assert u in w <==> u in st.list[t] && u != x;
    if u in st.All() {
      UnlinkAt(st, x, u);
    }
  }

  lemma UnlinkedOnce(st: State, x: Thing, t: Thing)
    requires Forest(st) && x in st.All() && st.parent[x] != null && t in st.All()
    ensures NoDuplicates(Unlink(st, x).list[t])
    ensures Unlink(st, x).list[t] != [] ==> !t.typ.kind.Plain?
  {
    hide Forest, Unlink, Linked, Without, ChainOk, ParentOk, NoDuplicates;
    ThingOk(st, t);
    ThingOk(st, x);
    UnlinkAt(st, x, t);
    WithoutIs(st.list[t], x);
  }

  lemma UnlinkLinked(st: State, x: Thing, t: Thing)
    requires Forest(st) && x in st.All() && st.parent[x] != null && t in st.All()
    ensures ParentOk(Unlink(st, x), t) && ListOk(Unlink(st, x), t)
  {
    hide Forest, Unlink, Linked, ChainOk, NoDuplicates, ListOk;
    ThingOk(st, t);
    ThingOk(st, x);
    UnlinkAt(st, x, t);
    var p := st.parent[t];
    if p != null {
      UnlinkedIn(st, x, p, t);
    }
    UnlinkedList(st, x, t);
  }

  lemma UnlinkedList(st: State, x: Thing, t: Thing)
    requires Forest(st) && x in st.All() && st.parent[x] != null && st.parent[x] in st.All() && t in st.All()
    ensures ListOk(Unlink(st, x), t)
  {
    hide Forest, Unlink, Linked, ChainOk, NoDuplicates, ParentOk;
    ThingOk(st, t);
    UnlinkedOnce(st, x, t);
    forall u | u in Unlink(st, x).list[t] ensures u in st.All() && Unlink(st, x).parent[u] == t {
      UnlinkedIn(st, x, t, u);
    }
  }

  lemma AllLinked(st: State)
    requires SameKeys(st) && forall t :: t in st.All() ==> ParentOk(st, t) && ListOk(st, t)
    ensures Linked(st)
  {
  }

  /** Linking keeps the forest a forest. */
  lemma LinkForest(st: State, c: Thing, i: nat, x: Thing)
    requires Forest(st) && Attachable(st, c, x) && i <= |st.list[c]|
    ensures Forest(Link(st, c, i, x))
  {
    var st' := Link(st, c, i, x);
    hide Linked, ChainOk, ParentOk, ListOk, Attachable;
    forall t | t in st.All() ensures ChainOk(st', t) && ParentOk(st', t) && ListOk(st', t) {
      LinkLinked(st, c, i, x, t);
      LinkChain(st, c, i, x, t);
    }
    AllLinked(st');
  }

  /** Unlinking keeps the forest a forest. */
  lemma UnlinkForest(st: State, x: Thing)
    requires Forest(st) && x in st.All() && st.parent[x] != null
    ensures Forest(Unlink(st, x))
  {
    assert st.parent[x] in st.All() by {
      assert ParentOk(st, x);
    }
    var st' := Unlink(st, x);
    hide Linked, ChainOk, ParentOk, ListOk;
    forall t | t in st.All() ensures ChainOk(st', t) && ParentOk(st', t) && ListOk(st', t) {
      UnlinkLinked(st, x, t);
      UnlinkChain(st, x, t);
    }
    AllLinked(st');
  }
}
