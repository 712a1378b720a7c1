/** The linked nodes in memory, and the net they stand for. */
module NodeNet {
  import opened Bytes
  import opened NodeFormat

  class NodeStruct {
    var start: nat
    var propsSize: nat
    var typ: byte
    var next: NodeStruct?
    var child: NodeStruct?

    constructor ()
      ensures start == 0 && propsSize == 0 && typ == 0 && next == null && child == null
    {
      start, propsSize, typ, next, child := 0, 0, 0, null, null;
    }
  }

  /** The fields of `n` other than its links are those of `net`. */
  ghost predicate SameFields(n: NodeStruct, net: Net)
    reads n
  {
    net.Node? && n.start == net.start && n.propsSize == net.propsSize && n.typ == net.typ
  }

  /** The nodes reachable from `n` lie in `repr` and spell out `net`. */
  ghost predicate Spells(n: NodeStruct?, net: Net, repr: set<NodeStruct>)
    reads repr
    decreases net
  {
    if net.Nil? then n == null
    else
      && n != null && n in repr && SameFields(n, net)
      && Spells(n.child, net.child, repr)
      && Spells(n.next, net.next, repr)
  }

  lemma {:induction false} SpellsMore(n: NodeStruct?, net: Net, repr: set<NodeStruct>, more: set<NodeStruct>)
    requires Spells(n, net, repr) && repr <= more
    ensures Spells(n, net, more)
    decreases net
  {
    if net.Node? {
      SpellsMore(n.child, net.child, repr, more);
      SpellsMore(n.next, net.next, repr, more);
    }
  }

  /** The siblings from `n` up to but not including `cur` spell out `done`. */
  ghost predicate Leads(n: NodeStruct?, cur: NodeStruct?, done: seq<Net>, repr: set<NodeStruct>)
    reads repr
    decreases |done|
  {
    if done == [] then n == cur
    else
      && n != null && n in repr && SameFields(n, done[0])
      && Spells(n.child, done[0].child, repr)
      && Leads(n.next, cur, done[1..], repr)
  }

  /** `last`, with the siblings `done` put in front of it. */
  function Link(done: seq<Net>, last: Net): Net {
    if done == [] then last
    else if done[0].Nil? then Nil
    else done[0].(next := Link(done[1..], last))
  }

  function Prepend(done: seq<Net>, r: ParseResult): ParseResult {
    if r.Failed? then r else Parsed(Link(done, r.net), r.stop)
  }

  lemma PrependOne(node: Net, r: ParseResult)
    requires node.Node?
    ensures Prepend([node], r) == if r.Failed? then r else Parsed(node.(next := r.net), r.stop)
  {
    if r.Parsed? {
      assert [node][1..] == [];
      assert Link([node], r.net) == node.(next := Link([], r.net));
    }
  }

  lemma {:induction false} PrependMore(done: seq<Net>, node: Net, r: ParseResult)
    ensures Prepend(done, Prepend([node], r)) == Prepend(done + [node], r)
    decreases |done|
  {
    if done == [] {
      assert done + [node] == [node];
    } else {
      PrependMore(done[1..], node, r);
      assert (done + [node])[1..] == done[1..] + [node];
    }
  }

  lemma {:induction false} LeadsOn(n: NodeStruct?, cur: NodeStruct, done: seq<Net>, node: Net,
                                   repr: set<NodeStruct>, kids: set<NodeStruct>, more: set<NodeStruct>)
    requires Leads(n, cur, done, repr) && SameFields(cur, node) && Spells(cur.child, node.child, kids)
    requires repr + kids + {cur} <= more
    ensures Leads(n, cur.next, done + [node], more)
    decreases |done|
  {
    if done == [] {
      SpellsMore(cur.child, node.child, kids, more);
      assert (done + [node])[1..] == [];
    } else {
      SpellsMore(n.child, done[0].child, repr, more);
      LeadsOn(n.next, cur, done[1..], node, repr, kids, more);
      assert (done + [node])[1..] == done[1..] + [node];
    }
  }

  lemma {:induction false} LeadsToEnd(n: NodeStruct?, cur: NodeStruct?, done: seq<Net>, last: Net,
                                      repr: set<NodeStruct>, tail: set<NodeStruct>, more: set<NodeStruct>)
    requires Leads(n, cur, done, repr) && Spells(cur, last, tail) && repr + tail <= more
    ensures Spells(n, Link(done, last), more)
    decreases |done|
  {
    if done == [] {
      SpellsMore(cur, last, tail, more);
    } else {
      SpellsMore(n.child, done[0].child, repr, more);
      LeadsToEnd(n.next, cur, done[1..], last, repr, tail, more);
    }
  }
}
