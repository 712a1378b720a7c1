/** Writing a file and reading it back: every linked node is asked for its properties. */
module ReadBack {
  import opened Bytes
  import opened NodeFormat
  import opened NodeNet
  import opened FileLoader

  /** What the nodes of a net hold in a file. */
  function ForestOf(s: seq<byte>, net: Net): Forest
    requires Within(s, net)
  {
    match net
    case Nil => Empty
    case Node(start, propsSize, typ, child, next) =>
      Tree(typ, Unescape(s[start + 2..start + 2 + propsSize]), ForestOf(s, child), ForestOf(s, next))
  }

  /** The regions of a net lie in the file and can be unescaped in place. */
  predicate Within(s: seq<byte>, net: Net) {
    net.Node? ==>
      && net.start + 2 + net.propsSize <= |s| && Clean(s[net.start + 2..net.start + 2 + net.propsSize])
      && Within(s, net.child) && Within(s, net.next)
  }

  /** The buffer of properties after a walk over a net; none if a node is beyond one step of growth. */
  function Buffered(net: Net, size: nat): Option<nat> {
    match net
    case Nil => Some(size)
    case Node(_, propsSize, _, child, next) =>
      if propsSize > size + 1024 then None
      else
        match Buffered(child, if propsSize >= size then size + 1024 else size)
        case None => None
        case Some(size') => Buffered(next, size')
  }

  lemma {:induction false} MatchesIffForestOf(s: seq<byte>, net: Net, f: Forest)
    requires Within(s, net)
    ensures Matches(s, net, f) <==> f == ForestOf(s, net)
  {
    if net.Node? && f.Tree? {
      MatchesIffForestOf(s, net.child, f.kids);
      MatchesIffForestOf(s, net.next, f.rest);
    }
  }

  lemma {:induction false} RegionsWithin(s: seq<byte>, net: Net)
    requires forall i :: 0 <= i < |Regions(net)| ==>
               var r := Regions(net)[i]; r.lo <= r.hi <= |s| && Clean(s[r.lo..r.hi])
    ensures Within(s, net)
  {
    if net.Node? {
      var all, a, b := Regions(net), Regions(net.child), Regions(net.next);
      assert all == [all[0]] + a + b;
      forall i | 0 <= i < |a| ensures a[i].lo <= a[i].hi <= |s| && Clean(s[a[i].lo..a[i].hi]) {
        assert a[i] == all[1 + i];
      }
      forall i | 0 <= i < |b| ensures b[i].lo <= b[i].hi <= |s| && Clean(s[b[i].lo..b[i].hi]) {
        assert b[i] == all[1 + |a| + i];
      }
      RegionsWithin(s, net.child);
      RegionsWithin(s, net.next);
      assert all[0] == Region(net.start + 2, net.start + 2 + net.propsSize);
    }
  }

  lemma AcceptedWithin(s: seq<byte>, start: nat)
    requires Parse(s, start).Parsed?
    ensures Within(s, Parse(s, start).net)
  {
    var net := Parse(s, start).net;
    forall i | 0 <= i < |Regions(net)|
      ensures var r := Regions(net)[i]; r.lo <= r.hi <= |s| && Clean(s[r.lo..r.hi])
    {
      AcceptedRegionsClean(s, start, i);
    }
    RegionsWithin(s, net);
  }

  /** The walk of the callers over `getChildNode` and `getNextNode`, with `getProps` on each node. */
  method ReadForest(loader: Loader, node: NodeStruct?, ghost net: Net, ghost repr: set<NodeStruct>)
    returns (f: Option<Forest>)
    requires loader.Valid() && Spells(node, net, repr) && Within(loader.file, net)
    modifies loader`filePos, loader`lastError, loader`cacheIndex, loader`cacheOffset, loader`buffer, loader.cache,
             loader.buffer
    ensures loader.Valid() && (loader.buffer == old(loader.buffer) || fresh(loader.buffer))
    ensures var size := Buffered(net, old(loader.buffer.Length));
            if size.None? then f == None
            else f == Some(ForestOf(loader.file, net)) && loader.buffer.Length == size.value
    decreases net
  {
    hide Loader.Valid, Clean, Unescape;
    if node == null {
      return Some(Empty);
    }
    var props := loader.GetProps(node);
    if !props.Props? {
      return None;
    }
    var kids := ReadForest(loader, node.child, net.child, repr);
    if kids == None {
      return None;
    }
    var rest := ReadForest(loader, node.next, net.next, repr);
    if rest == None {
      return None;
    }
    return Some(Tree(node.typ, props.bytes, kids.value, rest.value));
  }

  /** A file is written and opened again, and all that is in it is read. What is read is what was written if and only
      if every node is readable and no properties are beyond what the buffer grows to. */
  method WriteAndRead(f: Forest, caching: bool) returns (g: Option<Forest>)
    requires f.Tree?
    ensures g == Some(f) <==> AllReadable(f) && Buffered(NetOf(f, 4), 1024).Some?
  {
    hide Parse, AllReadable, Print, Within, ForestOf, Buffered, NetOf, Accepted, Loader.Valid, Loader.Closed, Spells;
    var writer := new Loader();
    var ok := writer.OpenForWriting(true);
    WriteForest(writer, f);
    var reader := new Loader();
    ghost var net, repr;
    ok, net, repr := reader.OpenForReading(Some(writer.file), 0, caching);
    FileAccepted(f);
    if !ok {
      NotReadBack(f);
      return None;
    }
    AcceptedWithin(reader.file, 4);
    g := ReadForest(reader, reader.root, net, repr);
    ReadBackIff(f);
  }

  lemma FileAccepted(f: Forest)
    requires f.Tree?
    ensures Accepted(FileOf(f)) <==> Parse(FileOf(f), 4).Parsed?
  {
    var s := FileOf(f);
    assert s[4] == Print(f)[0];
  }

  lemma NotReadBack(f: Forest)
    requires f.Tree? && !Parse(FileOf(f), 4).Parsed?
    ensures !AllReadable(f)
  {
    RoundTripIffReadable(f);
  }

  lemma ReadBackIff(f: Forest)
    requires f.Tree? && Parse(FileOf(f), 4).Parsed?
    ensures var s, net := FileOf(f), Parse(FileOf(f), 4).net;
            && Within(s, net)
            && (Buffered(net, 1024).Some? && ForestOf(s, net) == f
                <==> AllReadable(f) && Buffered(NetOf(f, 4), 1024).Some?)
  {
    hide Parse, AllReadable, Matches, FileOf, Print, Within, ForestOf, Buffered, Readable;
    AcceptedWithin(FileOf(f), 4);
    RoundTripIffReadable(f);
    MatchesIffForestOf(FileOf(f), Parse(FileOf(f), 4).net, f);
    if AllReadable(f) {
      ReadableNet(f);
    }
  }

  lemma ReadableNet(f: Forest)
    requires f.Tree? && AllReadable(f)
    ensures Parse(FileOf(f), 4) == Parsed(NetOf(f, 4), |FileOf(f)|)
  {
    FilePrinted(f);
    ParsePrinted(FileOf(f), 4, f, |FileOf(f)|);
  }

  /** All properties, with the bytes that escape them, fit in the first buffer with one step of growth. */
  predicate AllSmall(f: Forest, size: nat) {
    f.Tree? ==> |PropsRegion(f.typ, f.props)| <= size + 1024 && AllSmall(f.kids, size) && AllSmall(f.rest, size)
  }

  lemma {:induction false} SmallFits(f: Forest, at: nat, size: nat, now: nat)
    requires AllSmall(f, size) && size <= now
    ensures Buffered(NetOf(f, at), now).Some? && Buffered(NetOf(f, at), now).value >= now
    decreases f
  {
    hide PropsRegion, Print, AllReadable;
    if f.Tree? {
      var n := |PropsRegion(f.typ, f.props)|;
      var q := at + 2 + n;
      var now' := if n >= now then now + 1024 else now;
      SmallFits(f.kids, q, size, now');
      SmallFits(f.rest, q + |Print(f.kids)| + 1, size, Buffered(NetOf(f.kids, q), now').value);
    }
  }
}
