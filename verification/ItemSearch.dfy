/** Walking everything inside a container, one container after the other. */
module ItemSearch {
  import opened Bytes
  import opened ItemForest
  import opened ItemMove
  import opened MoveLaws
  import opened DepotLaw

  /** The containers among some things, in order. */
  function BoxesOf(s: seq<Thing>): seq<Thing> {
    if s == [] then [] else (if s[0].typ.kind.Plain? then [] else [s[0]]) + BoxesOf(s[1..])
  }

  lemma {:induction false} BoxesAre(s: seq<Thing>)
    ensures forall t :: t in BoxesOf(s) <==> t in s && !t.typ.kind.Plain?
  {
    if s != [] {
      BoxesAre(s[1..]);
      assert forall t :: t in s <==> t == s[0] || t in s[1..];
    }
  }

  ghost predicate Known(st: State, s: seq<Thing>) {
    forall t :: t in s ==> t in st.All()
  }

  /** The things and all that is inside them. */
  ghost function Size(st: State, s: seq<Thing>): nat
    requires st.above.Keys == st.All()
  {
    if s == [] then 0 else 1 + |st.Below(s[0])| + Size(st, s[1..])
  }

  lemma {:induction false} SizeConcat(st: State, a: seq<Thing>, b: seq<Thing>)
    requires st.above.Keys == st.All()
    ensures Size(st, a + b) == Size(st, a) + Size(st, b)
  {
    if a == [] {
      assert a + b == b;
    } else {
      assert (a + b)[1..] == a[1..] + b;
      SizeConcat(st, a[1..], b);
    }
  }

  ghost predicate InTree(st: State, t: Thing, s: seq<Thing>)
    requires t in st.above.Keys
  {
    exists u :: u in s && Moves(st, t, u)
  }

  ghost function Trees(st: State, s: seq<Thing>): set<Thing>
    requires st.above.Keys == st.All()
  {
    set t | t in st.All() && InTree(st, t, s)
  }

  /** No thing is inside two items of one container. */
  lemma SiblingsApart(st: State, c: Thing, u: Thing, v: Thing, t: Thing)
    requires Forest(st) && c in st.All() && u in st.list[c] && v in st.list[c] && u != v && t in st.All()
    ensures !(Moves(st, t, u) && Moves(st, t, v))
  {
    hide Linked;
    ListItem(st, c, u);
    ListItem(st, c, v);
    ThingOk(st, u);
    ThingOk(st, v);
    ThingOk(st, c);
    if u in st.above[c] {
      AboveTransitive(st, c, u);
    }
    if v in st.above[c] {
      AboveTransitive(st, c, v);
    }
    if Moves(st, t, u) && Moves(st, t, v) && t != u && t != v {
      AboveLinear(st, t, u, v);
    }
  }

  lemma {:induction false} SiblingTrees(st: State, c: Thing, s: seq<Thing>)
    requires Forest(st) && c in st.All() && NoDuplicates(s) && forall t :: t in s ==> t in st.list[c]
    ensures Size(st, s) == |Trees(st, s)|
    decreases |s|
  {
    hide Forest, Linked, ChainOk, ListOk, InTree;
    ForestKeys(st);
    if s != [] {
      var u, rest := s[0], s[1..];
      SiblingTrees(st, c, rest);
      ListItem(st, c, u);
      ChainSelf(st, u);
      FirstApart(st, c, s);
      TreesSplit(st, s);
    } else {
      NoTrees(st);
    }
  }

  lemma NoTrees(st: State)
    requires SameKeys(st)
    ensures Trees(st, []) == {}
  {
  }

  lemma TreesSplit(st: State, s: seq<Thing>)
    requires SameKeys(st) && s != [] && s[0] in st.All()
    ensures Trees(st, s) == {s[0]} + st.Below(s[0]) + Trees(st, s[1..])
  {
    forall t | t in st.All() ensures InTree(st, t, s) <==> Moves(st, t, s[0]) || InTree(st, t, s[1..]) {
      assert forall v :: v in s <==> v == s[0] || v in s[1..];
    }
  }

  lemma ChainSelf(st: State, t: Thing)
    requires Forest(st) && t in st.All()
    ensures t in st.above.Keys && t !in st.above[t]
  {
    assert ChainOk(st, t);
  }

  lemma FirstApart(st: State, c: Thing, s: seq<Thing>)
    requires Forest(st) && c in st.All() && s != [] && NoDuplicates(s) && forall t :: t in s ==> t in st.list[c]
    ensures ({s[0]} + st.Below(s[0])) !! Trees(st, s[1..])
  {
    hide Forest, Linked, ChainOk, ListOk;
    ForestKeys(st);
    ListItem(st, c, s[0]);
    forall t | t in ({s[0]} + st.Below(s[0])) && t in Trees(st, s[1..]) ensures false {
      var u :| u in s[1..] && Moves(st, t, u);
      SiblingsApart(st, c, s[0], u, t);
    }
  }

  /** What is inside a container is inside, or is, one of the items in its list. */
  lemma {:induction false} BelowIsTrees(st: State, c: Thing, t: Thing)
    requires Forest(st) && c in st.All() && t in st.All()
    ensures c in st.above[t] <==> InTree(st, t, st.list[c])
    decreases |st.above[t]|
  {
    hide Linked, ChainOk, ListOk;
    if c in st.above[t] {
      ThingOk(st, t);
      ChainIs(st, t);
      var p := st.parent[t];
      if p == c {
        assert Moves(st, t, t);
      } else {
        SmallerAbove(st, t);
        BelowIsTrees(st, c, p);
        var u :| u in st.list[c] && Moves(st, p, u);
        assert Moves(st, t, u);
      }
    } else {
      forall u | u in st.list[c] && Moves(st, t, u) ensures false {
        ListItem(st, c, u);
        ChainIs(st, u);
        if t != u {
          AboveTransitive(st, t, u);
        }
      }
    }
  }

  lemma ChainIs(st: State, t: Thing)
    requires Forest(st) && t in st.All()
    ensures if st.parent[t] == null then st.above[t] == {}
            else st.parent[t] in st.All() && st.above[t] == st.above[st.parent[t]] + {st.parent[t]}
  {
    assert ChainOk(st, t);
  }

  /** A container holds exactly the items in its list and what is inside those. */
  lemma KidsFit(st: State, c: Thing)
    requires Forest(st) && c in st.All()
    ensures Known(st, st.list[c])
    ensures Size(st, st.list[c]) == |st.Below(c)|
    ensures Size(st, BoxesOf(st.list[c])) <= |st.Below(c)|
  {
    hide Forest, Linked, ChainOk, ListOk, NoDuplicates;
    ForestKeys(st);
    ListNoDup(st, c);
    forall t | t in st.list[c] ensures t in st.All() {
      ListItem(st, c, t);
    }
    SiblingTrees(st, c, st.list[c]);
    forall t | t in st.All() ensures t in st.Below(c) <==> t in Trees(st, st.list[c]) {
      BelowIsTrees(st, c, t);
    }
    assert st.Below(c) == Trees(st, st.list[c]);
    FewerBoxes(st, st.list[c]);
  }

  lemma ListNoDup(st: State, c: Thing)
    requires Forest(st) && c in st.All()
    ensures NoDuplicates(st.list[c])
  {
    assert ListOk(st, c);
  }

  lemma {:induction false} FewerBoxes(st: State, s: seq<Thing>)
    requires st.above.Keys == st.All()
    ensures Size(st, BoxesOf(s)) <= Size(st, s)
  {
    if s != [] {
      FewerBoxes(st, s[1..]);
      var r := BoxesOf(s[1..]);
      if !s[0].typ.kind.Plain? {
        assert ([s[0]] + r)[1..] == r;
      } else {
        assert [] + r == r;
      }
    }
  }

  /** The things in the order of the walk: the queue gives up its first container, whose own containers join the end. */
  ghost function Visit(st: State, q: seq<Thing>): seq<Thing>
    requires Forest(st) && Known(st, q)
    decreases Size(st, q)
  {
    if q == [] then []
    else
      NextFits(st, q);
      st.list[q[0]] + Visit(st, Next(st, q))
  }

  /** The queue after its first container has been looked through. */
  ghost function Next(st: State, q: seq<Thing>): seq<Thing>
    requires q != [] && q[0] in st.list.Keys
  {
    q[1..] + BoxesOf(st.list[q[0]])
  }

  lemma NextFits(st: State, q: seq<Thing>)
    requires Forest(st) && Known(st, q) && q != []
    ensures SameKeys(st) && Known(st, st.list[q[0]]) && Known(st, Next(st, q))
    ensures Size(st, Next(st, q)) < Size(st, q)
  {
    hide Forest, Linked, ChainOk, ListOk;
    ForestKeys(st);
    KidsFit(st, q[0]);
    var boxes: seq<Thing> := BoxesOf(st.list[q[0]]);
    SizeConcat(st, q[1..], boxes);
    BoxesAre(st.list[q[0]]);
    assert Known(st, boxes);
    assert forall t :: t in Next(st, q) ==> t in q[1..] || t in boxes;
  }

  /** What is inside the containers of a queue is what is inside one of them. */
  ghost predicate InQueue(st: State, t: Thing, q: seq<Thing>)
    requires t in st.above.Keys
  {
    exists u :: u in q && u in st.above[t]
  }

  /** The walk comes to all that is inside the containers, and to nothing else. */
  lemma {:induction false} VisitAll(st: State, q: seq<Thing>)
    requires Forest(st) && Known(st, q)
    ensures forall t :: t in Visit(st, q) <==> t in st.All() && t in st.above && InQueue(st, t, q)
    decreases Size(st, q)
  {
    hide Forest, Linked, ChainOk, ListOk, Visit;
    ForestKeys(st);
    if q == [] {
      EmptyVisit(st);
    } else {
      NextFits(st, q);
      VisitStep(st, q);
      var kids: seq<Thing> := st.list[q[0]];
      VisitAll(st, Next(st, q));
      forall t ensures t in Visit(st, q) <==> t in st.All() && t in st.above && InQueue(st, t, q) {
        if t in st.All() {
          OneStep(st, q, t);
        } else {
          assert t !in kids;
        }
      }
    }
  }

  lemma VisitStep(st: State, q: seq<Thing>)
    requires Forest(st) && Known(st, q) && q != [] && SameKeys(st) && Known(st, Next(st, q))
    ensures Visit(st, q) == st.list[q[0]] + Visit(st, Next(st, q))
  {
  }

  lemma EmptyVisit(st: State)
    requires Forest(st)
    ensures Visit(st, []) == []
  {
  }

  lemma OneStep(st: State, q: seq<Thing>, t: Thing)
    requires Forest(st) && Known(st, q) && q != [] && t in st.All()
    ensures InQueue(st, t, q) <==> t in st.list[q[0]] || InQueue(st, t, Next(st, q))
  {
    hide Forest, Linked, ChainOk, ListOk;
    ForestKeys(st);
    var kids: seq<Thing> := st.list[q[0]];
    BelowIsTrees(st, q[0], t);
    BoxesAre(kids);
    var boxes: seq<Thing> := BoxesOf(kids);
    assert forall u :: u in q[1..] + boxes <==> u in q[1..] || u in boxes;
    assert forall u :: u in q <==> u == q[0] || u in q[1..];
    forall u | u in kids && u in st.above[t] ensures u in boxes {
      ListItem(st, q[0], u);
      if u.typ.kind.Plain? {
        PlainHoldsNothing(st, u, t);
      }
    }
  }

  lemma {:induction false} ExactBoxes(st: State, s: seq<Thing>)
    requires Forest(st) && Known(st, s)
    ensures Size(st, s) - |s| == Size(st, BoxesOf(s)) - |BoxesOf(s)|
  {
    hide Forest, Linked, ChainOk, ListOk;
    ForestKeys(st);
    if s != [] {
      ExactBoxes(st, s[1..]);
      var r: seq<Thing> := BoxesOf(s[1..]);
      if s[0].typ.kind.Plain? {
        forall t | t in st.Below(s[0]) ensures false {
          PlainHoldsNothing(st, s[0], t);
        }
        assert st.Below(s[0]) == {};
        assert [] + r == r;
      } else {
        assert ([s[0]] + r)[1..] == r;
      }
    }
  }

  lemma {:induction false} VisitLength(st: State, q: seq<Thing>)
    requires Forest(st) && Known(st, q)
    ensures SameKeys(st) && |Visit(st, q)| + |q| == Size(st, q)
    decreases Size(st, q)
  {
    hide Forest, Linked, ChainOk, ListOk, Visit, BoxesOf;
    ForestKeys(st);
    if q == [] {
      EmptyVisit(st);
    } else {
      NextFits(st, q);
      VisitStep(st, q);
      VisitLength(st, Next(st, q));
      KidsFit(st, q[0]);
      ExactBoxes(st, st.list[q[0]]);
      SizeConcat(st, q[1..], BoxesOf(st.list[q[0]]));
    }
  }

  lemma {:induction false} FewerThings(s: seq<Thing>)
    ensures |set t | t in s| <= |s|
  {
    if s != [] {
      FewerThings(s[1..]);
      assert (set t | t in s) == {s[0]} + set t | t in s[1..];
    }
  }

  lemma {:induction false} NoRepeats(s: seq<Thing>)
    requires |s| == |set t | t in s|
    ensures NoDuplicates(s)
  {
    if s != [] {
      var rest := set t | t in s[1..];
      assert (set t | t in s) == {s[0]} + rest;
      FewerThings(s[1..]);
      NoRepeats(s[1..]);
    }
  }

  lemma SameSet(s: seq<Thing>, all: set<Thing>)
    requires forall t :: t in s <==> t in all
    ensures (set t | t in s) == all
  {
  }

  /** The walk through a container comes to each thing inside it exactly once. */
  lemma VisitOnce(st: State, c: Thing)
    requires Forest(st) && c in st.All()
    ensures var v := Visit(st, [c]);
            && NoDuplicates(v) && (forall t :: t in v <==> t in st.Below(c)) && |v| == |st.Below(c)|
  {
    hide Forest, Linked, ChainOk, ListOk, Visit, NoDuplicates;
    ForestKeys(st);
    VisitAll(st, [c]);
    VisitLength(st, [c]);
    var v: seq<Thing> := Visit(st, [c]);
    assert c in [c];
    forall t: Thing ensures t in v <==> t in st.Below(c) {
    }
    SameSet(v, st.Below(c));
    NoRepeats(v);
  }

  // ---------------------------------------------------------------- weights

  function OwnWeight(t: Thing, count: nat): real {
    if t.typ.kind.Plain? && t.typ.stackable then t.typ.weight * (if count == 0 then 1 else count) as real
    else t.typ.weight
  }

  /** Splitting a stack changes no weight; one item weighs what its type says, and so does an empty stack. */
  lemma SplitWeight(t: Thing, a: nat, b: nat)
    requires a > 0 && b > 0
    ensures OwnWeight(t, 0) == OwnWeight(t, 1) == t.typ.weight
    ensures OwnWeight(t, a + b)
            == if t.typ.kind.Plain? && t.typ.stackable then OwnWeight(t, a) + OwnWeight(t, b) else t.typ.weight
  {
    if t.typ.kind.Plain? && t.typ.stackable {
      assert (a + b) as real == a as real + b as real;
    }
  }

  ghost function SumWeights(st: State, s: seq<Thing>): real
    requires st.count.Keys == st.All() && Known(st, s)
  {
    if s == [] then 0.0 else OwnWeight(s[0], st.count[s[0]]) + SumWeights(st, s[1..])
  }

  lemma {:induction false} SumWeightsConcat(st: State, a: seq<Thing>, b: seq<Thing>)
    requires st.count.Keys == st.All() && Known(st, a) && Known(st, b)
    ensures Known(st, a + b) && SumWeights(st, a + b) == SumWeights(st, a) + SumWeights(st, b)
  {
    if a == [] {
      assert a + b == b;
    } else {
      assert (a + b)[1..] == a[1..] + b;
      SumWeightsConcat(st, a[1..], b);
    }
  }

  /** The weight of the things with all that is inside them, by recursion over the tree. */
  ghost function WeightOf(st: State, s: seq<Thing>): real
    requires Forest(st) && Known(st, s)
    decreases Size(st, s)
  {
    if s == [] then 0.0
    else
      KidsFit(st, s[0]);
      OwnWeight(s[0], st.count[s[0]]) + WeightOf(st, st.list[s[0]]) + WeightOf(st, s[1..])
  }

  /** The weight of what is inside the containers of a queue. */
  ghost function Inside(st: State, q: seq<Thing>): real
    requires Forest(st) && Known(st, q)
  {
    if q == [] then 0.0
    else
      KidsFit(st, q[0]);
      WeightOf(st, st.list[q[0]]) + Inside(st, q[1..])
  }

  lemma {:induction false} InsideConcat(st: State, a: seq<Thing>, b: seq<Thing>)
    requires Forest(st) && Known(st, a) && Known(st, b)
    ensures Known(st, a + b) && Inside(st, a + b) == Inside(st, a) + Inside(st, b)
  {
    hide Forest, WeightOf;
    if a == [] {
      assert a + b == b;
    } else {
      assert (a + b)[1..] == a[1..] + b;
      InsideConcat(st, a[1..], b);
    }
  }

  lemma {:induction false} WeightSplit(st: State, s: seq<Thing>)
    requires Forest(st) && Known(st, s)
    ensures SameKeys(st) && Known(st, BoxesOf(s))
    ensures WeightOf(st, s) == SumWeights(st, s) + Inside(st, BoxesOf(s))
    decreases |s|
  {
    hide Forest, Linked, ChainOk, ListOk, OwnWeight;
    ForestKeys(st);
    if s != [] {
      WeightSplit(st, s[1..]);
      KidsFit(st, s[0]);
      BoxesAre(s);
      var r: seq<Thing> := BoxesOf(s[1..]);
      if s[0].typ.kind.Plain? {
        PlainList(st, s[0]);
        assert [] + r == r;
      } else {
        assert ([s[0]] + r)[1..] == r;
      }
    }
  }

  lemma PlainList(st: State, t: Thing)
    requires Forest(st) && t in st.All() && t.typ.kind.Plain?
    ensures st.list[t] == []
  {
    assert ListOk(st, t);
  }

  /** Adding up the weights along the walk gives the weight of the tree. */
  lemma {:induction false} VisitWeight(st: State, q: seq<Thing>)
    requires Forest(st) && Known(st, q)
    ensures SameKeys(st) && Known(st, Visit(st, q)) && SumWeights(st, Visit(st, q)) == Inside(st, q)
    decreases Size(st, q)
  {
    hide Forest, Linked, ChainOk, ListOk, Visit, BoxesOf, WeightOf, OwnWeight;
    ForestKeys(st);
    if q == [] {
      EmptyVisit(st);
    } else {
      NextFits(st, q);
      VisitStep(st, q);
      VisitWeight(st, Next(st, q));
      SumWeightsConcat(st, st.list[q[0]], Visit(st, Next(st, q)));
      WeightSplit(st, st.list[q[0]]);
      KidsFit(st, q[0]);
      InsideConcat(st, q[1..], BoxesOf(st.list[q[0]]));
    }
  }
}
