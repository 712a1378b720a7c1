/** The attributes of an item: a linked list of values with a bit mask that says which there are. */
module AttributeList {
  import opened Bytes

  datatype AttrType =
    | ATTR_ITEM_ACTIONID
    | ATTR_ITEM_UNIQUEID
    | ATTR_ITEM_DESC
    | ATTR_ITEM_TEXT
    | ATTR_ITEM_OWNER
    | ATTR_ITEM_DURATION
    | ATTR_ITEM_DECAYING

  function Bit(t: AttrType): bv32 {
    match t
    case ATTR_ITEM_ACTIONID => 1
    case ATTR_ITEM_UNIQUEID => 2
    case ATTR_ITEM_DESC => 4
    case ATTR_ITEM_TEXT => 8
    case ATTR_ITEM_OWNER => 65536
    case ATTR_ITEM_DURATION => 131072
    case ATTR_ITEM_DECAYING => 262144
  }

  predicate IsInt(t: AttrType) {
    t != ATTR_ITEM_DESC && t != ATTR_ITEM_TEXT
  }

  /** What an attribute holds: a machine word, or a string of bytes. */
  datatype Value = Word(n: nat) | Text(s: seq<byte>)

  const WORD := 0x1_0000_0000_0000_0000

  class Attribute {
    const typ: AttrType
    var value: Value
    var next: Attribute?

    constructor (typ: AttrType)
      ensures this.typ == typ && value == Word(0) && next == null
    {
      this.typ, value, next := typ, Word(0), null;
    }
  }

  predicate Has(mask: bv32, t: AttrType) {
    Bit(t) & mask != 0
  }

  lemma NoBits(t: AttrType)
    ensures !Has(0, t)
  {
  }

  lemma OneMoreBit(mask: bv32, a: AttrType, t: AttrType)
    ensures Has(mask | Bit(a), t) <==> Has(mask, t) || t == a
  {
    var x, y := Bit(t), Bit(a);
    Distribute(x, mask, y);
    NotZero(x & mask, x & y);
    BitsApart(a, t);
  }

  lemma Distribute(x: bv32, y: bv32, z: bv32)
    ensures x & (y | z) == (x & y) | (x & z)
  {
  }

  lemma NotZero(x: bv32, y: bv32)
    ensures x | y != 0 <==> x != 0 || y != 0
  {
  }

  lemma BitsApart(a: AttrType, t: AttrType)
    ensures Bit(t) & Bit(a) != 0 <==> t == a
  {
  }

  /** The nodes of a list in order. */
  ghost predicate Chain(first: Attribute?, nodes: seq<Attribute>)
    reads nodes
  {
    && (first == if nodes == [] then null else nodes[0])
    && forall i :: 0 <= i < |nodes| ==> NextOk(nodes, i)
  }

  ghost predicate NextOk(nodes: seq<Attribute>, i: nat)
    requires i < |nodes|
    reads nodes[i]
  {
    nodes[i].next == if i + 1 < |nodes| then nodes[i + 1] else null
  }

  ghost predicate DistinctTypes(nodes: seq<Attribute>) {
    forall i, j :: 0 <= i < j < |nodes| ==> nodes[i].typ != nodes[j].typ
  }

  ghost predicate Present(nodes: seq<Attribute>, t: AttrType) {
    exists i :: 0 <= i < |nodes| && nodes[i].typ == t
  }

  /** There is a node for each attribute, and one only. */
  ghost predicate KeysOk(nodes: seq<Attribute>, contents: map<AttrType, Value>) {
    DistinctTypes(nodes) && forall t :: t in contents <==> Present(nodes, t)
  }

  /** There is a bit for each attribute, and for no other. */
  ghost predicate MaskOk(mask: bv32, contents: map<AttrType, Value>) {
    forall t :: Has(mask, t) <==> t in contents
  }

  ghost predicate ValuesOk(nodes: seq<Attribute>, contents: map<AttrType, Value>)
    reads nodes
  {
    forall i :: 0 <= i < |nodes| ==> nodes[i].typ in contents && contents[nodes[i].typ] == nodes[i].value
  }

  lemma MaskAdd(mask: bv32, contents: map<AttrType, Value>, a: AttrType, value: Value)
    requires MaskOk(mask, contents)
    ensures MaskOk(mask | Bit(a), contents[a := value])
  {
    hide Bit, Has;
    var more := mask | Bit(a);
    forall t ensures Has(more, t) <==> t in contents[a := value] {
      OneMoreBit(mask, a, t);
    }
  }

  lemma KeysAdd(nodes: seq<Attribute>, contents: map<AttrType, Value>, attr: Attribute, value: Value)
    requires KeysOk(nodes, contents) && attr.typ !in contents
    ensures KeysOk(nodes + [attr], contents[attr.typ := value])
  {
    forall i | 0 <= i < |nodes| ensures nodes[i].typ != attr.typ {
      assert Present(nodes, nodes[i].typ);
    }
    forall t ensures Present(nodes + [attr], t) <==> Present(nodes, t) || t == attr.typ {
      PresentPush(nodes, attr, t);
    }
  }

  lemma KeysSet(nodes: seq<Attribute>, contents: map<AttrType, Value>, t: AttrType, value: Value)
    requires KeysOk(nodes, contents) && t in contents
    ensures KeysOk(nodes, contents[t := value])
  {
  }

  lemma MaskSet(mask: bv32, contents: map<AttrType, Value>, t: AttrType, value: Value)
    requires MaskOk(mask, contents) && t in contents
    ensures MaskOk(mask, contents[t := value])
  {
  }

  class ItemAttributes {
    var m_attributes: bv32
    var m_firstAttr: Attribute?
    ghost var nodes: seq<Attribute>
    ghost var contents: map<AttrType, Value>

    /** One node for each attribute, with a bit in the mask exactly if there is a node. */
    ghost predicate Valid()
      reads this, nodes
    {
      && Chain(m_firstAttr, nodes) && KeysOk(nodes, contents) && ValuesOk(nodes, contents)
      && MaskOk(m_attributes, contents)
    }

    /** Words and strings are where they belong, and no string is empty. */
    ghost predicate Typed()
      reads this
    {
      forall t :: t in contents ==>
                    if IsInt(t) then contents[t].Word? && contents[t].n < WORD
                    else contents[t].Text? && contents[t].s != []
    }

    constructor ()
      ensures Valid() && Typed() && contents == map[] && nodes == []
    {
      m_attributes, m_firstAttr, nodes, contents := 0, null, [], map[];
      new;
      forall t ensures !Has(m_attributes, t) {
        NoBits(t);
      }
    }

    /** `addAttr` puts a new node at the end of the list. */
    method AddAttr(attr: Attribute)
      requires Valid() && attr.typ !in contents && attr.next == null && attr !in nodes
      modifies this, nodes
      ensures Valid() && contents == old(contents)[attr.typ := attr.value] && nodes == old(nodes) + [attr]
    {
      hide KeysOk, MaskOk, Bit, Chain;
      MaskAdd(m_attributes, contents, attr.typ, attr.value);
      KeysAdd(nodes, contents, attr, attr.value);
      NodesApart(nodes, contents);
      OnlyOnce(nodes, contents, attr);
      Append(attr);
      m_attributes := m_attributes | Bit(attr.typ);
      contents := contents[attr.typ := attr.value];
    }

    method Append(attr: Attribute)
      requires Chain(m_firstAttr, nodes) && attr.next == null && attr !in nodes
      requires forall i, j :: 0 <= i < j < |nodes| ==> nodes[i] != nodes[j]
      modifies this`m_firstAttr, this`nodes, nodes`next
      ensures Chain(m_firstAttr, nodes) && nodes == old(nodes) + [attr]
    {
      ghost var was := nodes;
      if m_firstAttr != null {
        var curAttr: Attribute := m_firstAttr;
        ghost var k := 0;
        while curAttr.next != null
          invariant 0 <= k < |nodes| && curAttr == nodes[k]
          decreases |nodes| - k
        {
          assert NextOk(nodes, k);
          curAttr := curAttr.next;
          k := k + 1;
        }
        assert NextOk(nodes, k);
        curAttr.next := attr;
      } else {
        m_firstAttr := attr;
      }
      nodes := nodes + [attr];
      forall i | 0 <= i < |nodes| ensures NextOk(nodes, i) {
        assert i < |was| ==> nodes[i] == was[i] && old(NextOk(nodes, i));
      }
    }

    /** Looks for the node of an attribute. That the mask has a bit and the list no node never happens. */
    method FindAttr(t: AttrType) returns (attr: Attribute?)
      requires Valid()
      ensures attr == null <==> t !in contents
      ensures attr != null ==> attr in nodes && attr.typ == t
    {
      hide ValuesOk, Has;
      if !Has(m_attributes, t) {
        return null;
      }
      attr := m_firstAttr;
      ghost var k := 0;
      while attr != null
        invariant 0 <= k <= |nodes| && attr == (if k < |nodes| then nodes[k] else null)
        invariant forall i :: 0 <= i < k ==> nodes[i].typ != t
        decreases |nodes| - k
      {
        if attr.typ == t {
          return;
        }
        assert NextOk(nodes, k);
        attr := attr.next;
        k := k + 1;
      }
      assert false;
    }

    /** `getAttr` finds the node of an attribute or adds one. */
    method GetAttr(t: AttrType) returns (attr: Attribute)
      requires Valid()
      modifies this, nodes
      ensures Valid() && attr in nodes && attr.typ == t
      ensures fresh(set n | n in nodes && n !in old(nodes))
      ensures contents == if t in old(contents) then old(contents) else old(contents)[t := Word(0)]
    {
      var found := FindAttr(t);
      if found != null {
        return found;
      }
      attr := new Attribute(t);
      AddAttr(attr);
    }

    lemma NodeKnown(attr: Attribute)
      requires Valid() && attr in nodes
      ensures attr.typ in contents && contents[attr.typ] == attr.value
    {
    }

    /** Writes through to a node. */
    method SetValue(attr: Attribute, value: Value)
      requires Valid() && attr in nodes
      modifies this, attr`value
      ensures Valid() && nodes == old(nodes) && contents == old(contents)[attr.typ := value]
    {
      hide KeysOk, MaskOk;
      NodeKnown(attr);
      KeysSet(nodes, contents, attr.typ, value);
      MaskSet(m_attributes, contents, attr.typ, value);
      OnlyNode(nodes, contents, attr);
      attr.value := value;
      contents := contents[attr.typ := value];
      assert ValuesOk(nodes, contents);
      forall i | 0 <= i < |nodes| ensures NextOk(nodes, i) {
        assert old(NextOk(nodes, i));
      }
    }

    /** `getIntAttr` */
    method GetIntAttr(t: AttrType) returns (n: nat)
      requires Valid() && Typed()
      ensures n == if IsInt(t) && t in contents then contents[t].n % UINT32 else 0
    {
      if !IsInt(t) {
        return 0;
      }
      var attr := FindAttr(t);
      if attr == null {
        return 0;
      }
      return attr.value.n % UINT32;
    }

    /** `setIntAttr` */
    method SetIntAttr(t: AttrType, n: nat)
      requires Valid() && Typed() && n < UINT32
      modifies this, nodes
      ensures Valid() && Typed() && fresh(set a | a in nodes && a !in old(nodes))
      ensures contents == if IsInt(t) then old(contents)[t := Word(n)] else old(contents)
    {
      hide Valid;
      if IsInt(t) {
        var attr := GetAttr(t);
        SetValue(attr, Word(n));
      }
    }

    /** `increaseIntAttr` adds in words of the machine. */
    method IncreaseIntAttr(t: AttrType, n: nat)
      requires Valid() && Typed() && n < UINT32
      modifies this, nodes
      ensures Valid() && Typed() && fresh(set a | a in nodes && a !in old(nodes))
      ensures var was := if t in old(contents) && old(contents)[t].Word? then old(contents)[t].n else 0;
              contents == if IsInt(t) then old(contents)[t := Word((was + n) % WORD)] else old(contents)
    {
      hide Valid;
      if IsInt(t) {
        var attr := GetAttr(t);
        NodeKnown(attr);
        SetValue(attr, Word((attr.value.n + n) % WORD));
      }
    }

    /** `getStrAttr` */
    method GetStrAttr(t: AttrType) returns (s: seq<byte>)
      requires Valid() && Typed()
      ensures s == if !IsInt(t) && t in contents then contents[t].s else []
    {
      if IsInt(t) {
        return [];
      }
      var attr := FindAttr(t);
      if attr == null {
        return [];
      }
      return attr.value.s;
    }

    /** `setStrAttr` leaves the attribute as it is if the string is empty. */
    method SetStrAttr(t: AttrType, s: seq<byte>)
      requires Valid() && Typed()
      modifies this, nodes
      ensures Valid() && Typed() && fresh(set a | a in nodes && a !in old(nodes))
      ensures contents == if !IsInt(t) && s != [] then old(contents)[t := Text(s)] else old(contents)
    {
      hide Valid;
      if !IsInt(t) && s != [] {
        var attr := GetAttr(t);
        SetValue(attr, Text(s));
      }
    }
  }

  lemma NodesApart(nodes: seq<Attribute>, contents: map<AttrType, Value>)
    requires KeysOk(nodes, contents)
    ensures forall i, j :: 0 <= i < j < |nodes| ==> nodes[i] != nodes[j]
  {
  }

  lemma OnlyOnce(nodes: seq<Attribute>, contents: map<AttrType, Value>, attr: Attribute)
    requires KeysOk(nodes, contents) && attr.typ !in contents
    ensures forall i :: 0 <= i < |nodes| ==> nodes[i].typ != attr.typ
  {
    forall i | 0 <= i < |nodes| ensures nodes[i].typ != attr.typ {
      assert Present(nodes, nodes[i].typ);
    }
  }

  lemma OnlyNode(nodes: seq<Attribute>, contents: map<AttrType, Value>, attr: Attribute)
    requires KeysOk(nodes, contents) && attr in nodes
    ensures forall i :: 0 <= i < |nodes| && nodes[i].typ == attr.typ ==> nodes[i] == attr
  {
  }

  lemma PresentPush(nodes: seq<Attribute>, attr: Attribute, t: AttrType)
    ensures Present(nodes + [attr], t) <==> Present(nodes, t) || t == attr.typ
  {
    if Present(nodes, t) {
      var i :| 0 <= i < |nodes| && nodes[i].typ == t;
      assert (nodes + [attr])[i].typ == t;
    }
    assert (nodes + [attr])[|nodes|] == attr;
  }

  // ---------------------------------------------------------------- durations

  /** `setDuration`, given as a signed number. */
  method SetDuration(a: ItemAttributes, time: int)
    requires a.Valid() && a.Typed()
    modifies a, a.nodes
    ensures a.Valid() && a.Typed() && fresh(set n | n in a.nodes && n !in old(a.nodes))
    ensures a.contents == old(a.contents)[ATTR_ITEM_DURATION := Word(time % UINT32)]
  {
    a.SetIntAttr(ATTR_ITEM_DURATION, time % UINT32);
  }

  /** `decreaseDuration` and `getDuration`: durations count down modulo two to the 32nd. */
  method DecreaseDuration(a: ItemAttributes, time: int) returns (left: int)
    requires a.Valid() && a.Typed() && ATTR_ITEM_DURATION in a.contents
    modifies a, a.nodes
    ensures a.Valid() && a.Typed() && fresh(set n | n in a.nodes && n !in old(a.nodes))
    ensures ATTR_ITEM_DURATION in old(a.contents) && old(a.contents)[ATTR_ITEM_DURATION].Word?
    ensures left == Int32(old(a.contents)[ATTR_ITEM_DURATION].n - time)
    ensures a.contents.Keys == old(a.contents).Keys
    ensures forall t :: t in a.contents && t != ATTR_ITEM_DURATION ==> a.contents[t] == old(a.contents)[t]
    ensures a.contents[ATTR_ITEM_DURATION].Word? && Int32(a.contents[ATTR_ITEM_DURATION].n) == left
  {
    ghost var n := a.contents[ATTR_ITEM_DURATION].n;
    a.IncreaseIntAttr(ATTR_ITEM_DURATION, (-time) % UINT32);
    var now := a.GetIntAttr(ATTR_ITEM_DURATION);
    CountDown(n, time);
    left := Int32(now);
  }

  lemma Wraps(a: int, k: int)
    ensures Int32(a + k * UINT32) == Int32(a)
  {
  }

  lemma CountDown(n: nat, time: int)
    ensures Int32(((n + (-time) % UINT32) % WORD) % UINT32) == Int32(n - time)
    ensures Int32((n + (-time) % UINT32) % WORD) == Int32(n - time)
  {
    var sum := n + (-time) % UINT32;
    var k := (-time) / UINT32;
    assert sum == n - time + (-k) * UINT32;
    Wraps(n - time, -k);
    var word, q := sum % WORD, sum / WORD;
    assert word == sum + (-(q * UINT32)) * UINT32;
    Wraps(sum, -(q * UINT32));
    var low := word % UINT32;
    assert low == word + (-(word / UINT32)) * UINT32;
    Wraps(word, -(word / UINT32));
  }
}
