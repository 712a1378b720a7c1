/** The node stream as a language: what the writer prints, what the reader accepts, and how the two fit. */
module NodeFormat {
  import opened Bytes

  // ---------------------------------------------------------------- printing

  /** A list of sibling nodes: the first one, its children, and the siblings after it. */
  datatype Forest = Empty | Tree(typ: byte, props: seq<byte>, kids: Forest, rest: Forest)

  function EscapeByte(b: byte): seq<byte> {
    if Special(b) then [ESCAPE_CHAR, b] else [b]
  }

  /** What `writeData(data, size, true)` puts in the file. */
  function Escape(s: seq<byte>): seq<byte> {
    if s == [] then [] else EscapeByte(s[0]) + Escape(s[1..])
  }

  /** `startNode`, then `setProps`, then the children, then `endNode`, for each sibling in turn. */
  function Print(f: Forest): seq<byte> {
    match f
    case Empty => []
    case Tree(typ, props, kids, rest) =>
      [NODE_START] + EscapeByte(typ) + Escape(props) + Print(kids) + [NODE_END] + Print(rest)
  }

  // ---------------------------------------------------------------- parsing

  /** The linked nodes the parser leaves behind: `child` is the first child, `next` the next sibling. */
  datatype Net = Nil | Node(start: nat, propsSize: nat, typ: byte, child: Net, next: Net)

  datatype ParseError = Truncated | BadFormat

  datatype ParseResult = Parsed(net: Net, stop: nat) | Failed(error: ParseError)

  /** The first START or END at or after `p` that no ESCAPE precedes. */
  function Scan(s: seq<byte>, p: nat): (q: Option<nat>)
    ensures q.Some? ==> p <= q.value < |s| && s[q.value] in {NODE_START, NODE_END}
    decreases |s| - p
  {
    if p >= |s| then None
    else if s[p] == NODE_START || s[p] == NODE_END then Some(p)
    else if s[p] == ESCAPE_CHAR then (if p + 1 >= |s| then None else Scan(s, p + 2))
    else Scan(s, p + 1)
  }

  /** Parses the siblings whose first START byte is at `start`. */
  function Parse(s: seq<byte>, start: nat): (r: ParseResult)
    ensures r.Parsed? ==>
              && start + 2 < r.stop <= |s|
              && (r.stop < |s| ==> s[r.stop] == NODE_END)
              && r.net.Node? && r.net.start == start
    decreases |s| - start, 1
  {
    if start + 1 >= |s| then Failed(Truncated)
    else
      match Scan(s, start + 2)
      case None => Failed(Truncated)
      case Some(q) =>
        if s[q] == NODE_END then ParseRest(s, start, q - start - 2, Nil, q)
        else
          match Parse(s, q)
          case Failed(error) => Failed(error)
          case Parsed(child, stop) =>
            if stop >= |s| then Failed(Truncated)
            else ParseRest(s, start, q - start - 2, child, stop)
  }

  /** What follows the END byte at `end` of the node that began at `start`. */
  function ParseRest(s: seq<byte>, start: nat, propsSize: nat, child: Net, end: nat): (r: ParseResult)
    requires start + 2 <= end < |s|
    ensures r.Parsed? ==>
              && end < r.stop <= |s|
              && (r.stop < |s| ==> s[r.stop] == NODE_END)
              && r.net.Node? && r.net.start == start
    decreases |s| - start, 0
  {
    if end + 1 == |s| then Parsed(Node(start, propsSize, s[start + 1], child, Nil), end + 1)
    else if s[end + 1] == NODE_START then
      match Parse(s, end + 1)
      case Failed(error) => Failed(error)
      case Parsed(next, stop) => Parsed(Node(start, propsSize, s[start + 1], child, next), stop)
    else if s[end + 1] == NODE_END then
      Parsed(Node(start, propsSize, s[start + 1], child, Nil), end + 1)
    else Failed(BadFormat)
  }

  /** The siblings that `Parse` reads at `at` are `net`, and the reader is left at `stop`. */
  predicate ParsesTo(s: seq<byte>, at: nat, net: Net, stop: nat) {
    if net.Nil? then at == stop && (at < |s| ==> s[at] == NODE_END)
    else at < |s| && s[at] == NODE_START && Parse(s, at) == Parsed(net, stop)
  }

  lemma NodeParsesTo(s: seq<byte>, at: nat, q: nat, child: Net, e: nat, next: Net, stop: nat)
    requires at + 2 <= q <= e < |s| && s[at] == NODE_START && s[e] == NODE_END
    requires Scan(s, at + 2) == Some(q)
    requires ParsesTo(s, q, child, e) && ParsesTo(s, e + 1, next, stop)
    ensures ParsesTo(s, at, Node(at, q - at - 2, s[at + 1], child, next), stop)
  {
    ParseStep(s, at, q, child, e);
    RestStep(s, at, q - at - 2, child, e, next, stop);
  }

  lemma ParseStep(s: seq<byte>, at: nat, q: nat, child: Net, e: nat)
    requires Scan(s, at + 2) == Some(q) && q <= e < |s|
    requires if s[q] == NODE_START then Parse(s, q) == Parsed(child, e) else child == Nil && e == q
    ensures Parse(s, at) == ParseRest(s, at, q - at - 2, child, e)
  {
  }

  /** What the byte at `p` means while the properties of a node are passed over. */
  lemma ScanStep(s: seq<byte>, at: nat, p: nat)
    requires at + 2 <= p <= |s| && Scan(s, at + 2) == Scan(s, p)
    ensures p == |s| || (p + 1 == |s| && s[p] == ESCAPE_CHAR) ==> Parse(s, at) == Failed(Truncated)
    ensures p < |s| && s[p] == NODE_START ==> Scan(s, at + 2) == Some(p)
    ensures p < |s| && s[p] == NODE_END ==> Parse(s, at) == ParseRest(s, at, p - at - 2, Nil, p)
    ensures p + 1 < |s| && s[p] == ESCAPE_CHAR ==> Scan(s, at + 2) == Scan(s, p + 2)
    ensures p < |s| && !Special(s[p]) ==> Scan(s, at + 2) == Scan(s, p + 1)
  {
  }

  /** What the outcome of reading the children means for their parent. */
  lemma ChildStep(s: seq<byte>, at: nat, q: nat)
    requires Scan(s, at + 2) == Some(q) && s[q] == NODE_START
    ensures var r := Parse(s, q);
            Parse(s, at) == if r.Failed? then r
                            else if r.stop == |s| then Failed(Truncated)
                            else ParseRest(s, at, q - at - 2, r.net, r.stop)
  {
  }

  lemma RestStep(s: seq<byte>, at: nat, size: nat, child: Net, e: nat, next: Net, stop: nat)
    requires at + 2 <= e < |s|
    requires if e + 1 < |s| && s[e + 1] == NODE_START then Parse(s, e + 1) == Parsed(next, stop)
             else next == Nil && stop == e + 1 && (e + 1 < |s| ==> s[e + 1] == NODE_END)
    ensures ParseRest(s, at, size, child, e) == Parsed(Node(at, size, s[at + 1], child, next), stop)
  {
  }

  /** How a node came to be accepted: its region ends at `q`, its END byte is at `e`. */
  lemma ParseInversion(s: seq<byte>, start: nat) returns (q: nat, e: nat)
    requires Parse(s, start).Parsed?
    ensures var r := Parse(s, start);
            && start + 2 <= q <= e < r.stop && s[e] == NODE_END
            && Scan(s, start + 2) == Some(q)
            && r.net.propsSize == q - start - 2 && r.net.typ == s[start + 1]
            && ParsesTo(s, q, r.net.child, e)
            && ParsesTo(s, e + 1, r.net.next, r.stop)
  {
    q := Scan(s, start + 2).value;
    e := if s[q] == NODE_END then q else Parse(s, q).stop;
    var child := if s[q] == NODE_END then Nil else Parse(s, q).net;
    assert Parse(s, start) == ParseRest(s, start, q - start - 2, child, e);
  }

  // ---------------------------------------------------------------- properties bytes

  /** No unescaped START or END, and no ESCAPE without a byte after it. */
  predicate Clean(s: seq<byte>) {
    s == [] ||
    if s[0] == ESCAPE_CHAR then |s| >= 2 && Clean(s[2..])
    else s[0] != NODE_START && s[0] != NODE_END && Clean(s[1..])
  }

  /** Drops every ESCAPE and keeps the byte after it. */
  function Unescape(s: seq<byte>): seq<byte> {
    if s == [] then []
    else if s[0] == ESCAPE_CHAR then (if |s| == 1 then [] else [s[1]] + Unescape(s[2..]))
    else [s[0]] + Unescape(s[1..])
  }

  lemma UnescapeStep(s: seq<byte>)
    requires s != [] && Clean(s)
    ensures if s[0] == ESCAPE_CHAR then |s| >= 2 && Clean(s[2..]) && Unescape(s) == [s[1]] + Unescape(s[2..])
            else Clean(s[1..]) && Unescape(s) == [s[0]] + Unescape(s[1..])
  {
  }

  lemma {:induction false} UnescapeEscape(s: seq<byte>)
    ensures Clean(Escape(s)) && Unescape(Escape(s)) == s
  {
    if s != [] {
      UnescapeEscape(s[1..]);
      var e := Escape(s[1..]);
      if Special(s[0]) {
        assert ([ESCAPE_CHAR, s[0]] + e)[2..] == e;
      } else {
        assert ([s[0]] + e)[1..] == e;
      }
    }
  }

  lemma EscapeCons(b: byte, s: seq<byte>)
    ensures Escape([b] + s) == EscapeByte(b) + Escape(s)
  {
    assert ([b] + s)[1..] == s;
  }

  lemma {:induction false} EscapeConcat(a: seq<byte>, b: seq<byte>)
    ensures Escape(a + b) == Escape(a) + Escape(b)
  {
    if a == [] {
      assert a + b == b;
    } else {
      var rest := a[1..];
      assert a + b == [a[0]] + (rest + b);
      EscapeCons(a[0], rest + b);
      EscapeConcat(rest, b);
      ConcatAssoc(EscapeByte(a[0]), Escape(rest), Escape(b));
    }
  }

  // ---------------------------------------------------------------- what the reader accepts

  datatype Region = Region(lo: nat, hi: nat)

  /** The properties regions of a net, each node before its children and its children before its siblings. */
  function Regions(net: Net): seq<Region> {
    match net
    case Nil => []
    case Node(start, propsSize, _, child, next) =>
      [Region(start + 2, start + 2 + propsSize)] + Regions(child) + Regions(next)
  }

  /** Every region lies in `[lo, hi)`, ends at the first unescaped START or END, and precedes all later ones. */
  ghost predicate RegionsOk(s: seq<byte>, rs: seq<Region>, lo: nat, hi: nat) {
    && (forall i :: 0 <= i < |rs| ==> lo <= rs[i].lo <= rs[i].hi < hi && Scan(s, rs[i].lo) == Some(rs[i].hi))
    && (forall i, j :: 0 <= i < j < |rs| ==> rs[i].hi < rs[j].lo)
  }

  lemma RegionsOne(s: seq<byte>, lo: nat, hi: nat)
    requires lo <= hi && Scan(s, lo) == Some(hi)
    ensures RegionsOk(s, [Region(lo, hi)], lo, hi + 1)
  {
  }

  lemma RegionsConcat(s: seq<byte>, a: seq<Region>, b: seq<Region>, lo: nat, mid: nat, hi: nat)
    requires RegionsOk(s, a, lo, mid) && RegionsOk(s, b, mid, hi) && lo <= mid <= hi
    ensures RegionsOk(s, a + b, lo, hi)
  {
    hide Scan;
  }

  lemma RegionsWiden(s: seq<byte>, rs: seq<Region>, lo: nat, hi: nat, lo': nat, hi': nat)
    requires rs == [] || RegionsOk(s, rs, lo, hi)
    requires lo' <= lo && hi <= hi'
    ensures RegionsOk(s, rs, lo', hi')
  {
    hide Scan;
  }

  /** Whatever byte string the parser accepts, the regions of its nodes are in the file, delimited and disjoint. */
  lemma {:induction false} AcceptedRegions(s: seq<byte>, start: nat)
    requires Parse(s, start).Parsed?
    ensures RegionsOk(s, Regions(Parse(s, start).net), start + 2, Parse(s, start).stop)
    decreases |s| - start
  {
    var q, e := ParseInversion(s, start);
    var r := Parse(s, start);
    if r.net.child.Node? {
      AcceptedRegions(s, q);
    }
    if r.net.next.Node? {
      AcceptedRegions(s, e + 1);
    }
    AcceptedNode(s, start, q, e, r.net, r.stop);
  }

  lemma AcceptedNode(s: seq<byte>, start: nat, q: nat, end: nat, net: Net, stop: nat)
    requires net.Node? && net.start == start && net.propsSize == q - start - 2
    requires start + 2 <= q <= end < stop && Scan(s, start + 2) == Some(q)
    requires net.child.Nil? || RegionsOk(s, Regions(net.child), q + 2, end)
    requires net.next.Nil? || RegionsOk(s, Regions(net.next), end + 3, stop)
    ensures RegionsOk(s, Regions(net), start + 2, stop)
  {
    hide Scan;
    hide RegionsOk;
    var own, inside, after := [Region(start + 2, q)], Regions(net.child), Regions(net.next);
    RegionsOne(s, start + 2, q);
    RegionsWiden(s, inside, q + 2, end, q + 1, end + 1);
    RegionsWiden(s, after, end + 3, stop, end + 1, stop);
    RegionsConcat(s, own, inside, start + 2, q + 1, end + 1);
    RegionsConcat(s, own + inside, after, start + 2, end + 1, stop);
    assert Regions(net) == own + inside + after;
  }

  /** A region the scanner delimits is clean, so unescaping it never runs past its end. */
  lemma {:induction false} ScannedIsClean(s: seq<byte>, lo: nat, hi: nat)
    requires Scan(s, lo) == Some(hi)
    ensures Clean(s[lo..hi])
    decreases hi - lo
  {
    if lo < hi {
      if s[lo] == ESCAPE_CHAR {
        ScannedIsClean(s, lo + 2, hi);
        assert s[lo..hi][2..] == s[lo + 2..hi];
      } else {
        ScannedIsClean(s, lo + 1, hi);
        assert s[lo..hi][1..] == s[lo + 1..hi];
      }
    }
  }

  /** So `getProps` may unescape in place on every node of every accepted file. */
  lemma AcceptedRegionsClean(s: seq<byte>, start: nat, i: nat)
    requires Parse(s, start).Parsed? && i < |Regions(Parse(s, start).net)|
    ensures var r := Regions(Parse(s, start).net)[i];
            r.lo <= r.hi < |s| && s[r.hi] in {NODE_START, NODE_END} && Clean(s[r.lo..r.hi])
  {
    AcceptedRegions(s, start);
    var r := Regions(Parse(s, start).net)[i];
    ScannedIsClean(s, r.lo, r.hi);
  }

  // ---------------------------------------------------------------- round trip

  /** `part` occurs in `s` at `at`. */
  ghost predicate Occurs(s: seq<byte>, at: nat, part: seq<byte>) {
    at + |part| <= |s| && forall i :: 0 <= i < |part| ==> part[i] == s[at + i]
  }

  lemma OccursSplit(s: seq<byte>, at: nat, a: seq<byte>, b: seq<byte>)
    requires Occurs(s, at, a + b)
    ensures Occurs(s, at, a) && Occurs(s, at + |a|, b)
  {
    forall i | 0 <= i < |a| ensures a[i] == s[at + i] {
      assert (a + b)[i] == a[i];
    }
    forall i | 0 <= i < |b| ensures b[i] == s[at + |a| + i] {
      assert (a + b)[|a| + i] == b[i];
    }
  }

  lemma OccursSlice(s: seq<byte>, at: nat, part: seq<byte>)
    requires Occurs(s, at, part)
    ensures s[at..at + |part|] == part
  {
  }

  lemma {:induction false} ScanSkipsEscaped(s: seq<byte>, at: nat, props: seq<byte>)
    requires Occurs(s, at, Escape(props))
    ensures Scan(s, at) == Scan(s, at + |Escape(props)|)
    decreases |props|
  {
    if props != [] {
      var first := EscapeByte(props[0]);
      OccursSplit(s, at, first, Escape(props[1..]));
      ScanSkipsEscaped(s, at + |first|, props[1..]);
      assert s[at] == first[0];
    }
  }

  /** The net read from `s` has the shape, the types and the properties of `f`. */
  ghost predicate Matches(s: seq<byte>, net: Net, f: Forest) {
    match f
    case Empty => net.Nil?
    case Tree(typ, props, kids, rest) =>
      && net.Node?
      && net.typ == typ
      && net.start + 2 + net.propsSize <= |s|
      && Unescape(s[net.start + 2..net.start + 2 + net.propsSize]) == props
      && Matches(s, net.child, kids)
      && Matches(s, net.next, rest)
  }

  /** Some run of ESCAPE bytes, then a byte that is not reserved. */
  predicate ShiftsBack(props: seq<byte>) {
    props != [] && (props[0] < ESCAPE_CHAR || (props[0] == ESCAPE_CHAR && ShiftsBack(props[1..])))
  }

  /** The type is not reserved; or it is ESCAPE and the properties happen to absorb the extra byte. */
  predicate Readable(typ: byte, props: seq<byte>) {
    typ < ESCAPE_CHAR || (typ == ESCAPE_CHAR && ShiftsBack(props))
  }

  predicate AllReadable(f: Forest) {
    f.Tree? ==> Readable(f.typ, f.props) && AllReadable(f.kids) && AllReadable(f.rest)
  }

  /** The writer escapes a reserved type, the reader takes the type raw: the region then starts one byte early. */
  function PropsRegion(typ: byte, props: seq<byte>): seq<byte> {
    EscapeByte(typ)[1..] + Escape(props)
  }

  lemma {:induction false} ShiftedRegion(s: seq<byte>, at: nat, props: seq<byte>)
    requires Occurs(s, at, [ESCAPE_CHAR] + Escape(props)) && ShiftsBack(props)
    ensures Unescape([ESCAPE_CHAR] + Escape(props)) == props
    ensures Scan(s, at) == Scan(s, at + 1 + |Escape(props)|)
    decreases |props|
  {
    hide Escape;
    var rest := props[1..];
    assert Escape(props) == EscapeByte(props[0]) + Escape(rest) by {
      EscapeCons(props[0], rest);
      assert props == [props[0]] + rest;
    }
    var pair := [ESCAPE_CHAR, props[0]];
    var tail := if props[0] < ESCAPE_CHAR then Escape(rest) else [ESCAPE_CHAR] + Escape(rest);
    assert [ESCAPE_CHAR] + Escape(props) == pair + tail;
    OccursSplit(s, at, pair, tail);
    assert s[at] == pair[0];
    assert Scan(s, at) == Scan(s, at + 2);
    if props[0] < ESCAPE_CHAR {
      UnescapeEscape(rest);
      ScanSkipsEscaped(s, at + 2, rest);
    } else {
      ShiftedRegion(s, at + 2, rest);
    }
    assert (pair + tail)[2..] == tail;
    assert Unescape(pair + tail) == [props[0]] + Unescape(tail);
  }

  /** A readable node's region is delimited exactly and unescapes to the properties written. */
  lemma ReadableRegion(s: seq<byte>, at: nat, typ: byte, props: seq<byte>)
    requires Readable(typ, props) && Occurs(s, at, PropsRegion(typ, props))
    ensures Unescape(PropsRegion(typ, props)) == props
    ensures Scan(s, at) == Scan(s, at + |PropsRegion(typ, props)|)
  {
    hide Scan, Unescape, Occurs, Escape;
    if typ < ESCAPE_CHAR {
      assert PropsRegion(typ, props) == Escape(props);
      UnescapeEscape(props);
      ScanSkipsEscaped(s, at, props);
    } else {
      assert PropsRegion(typ, props) == [ESCAPE_CHAR] + Escape(props);
      ShiftedRegion(s, at, props);
    }
  }

  /** The pieces of a printed tree, cut where the reader cuts them. */
  function Head(typ: byte): seq<byte> {
    [NODE_START, if Special(typ) then ESCAPE_CHAR else typ]
  }

  lemma PrintSplit(f: Forest)
    requires f.Tree?
    ensures Print(f) == Head(f.typ) + (PropsRegion(f.typ, f.props) + (Print(f.kids) + ([NODE_END] + Print(f.rest))))
  {
    var props, kids, rest := Escape(f.props), Print(f.kids), Print(f.rest);
    var head, mark := Head(f.typ), EscapeByte(f.typ)[1..];
    assert [NODE_START] + EscapeByte(f.typ) == head + mark;
    ConcatAssoc(head + mark + props + kids, [NODE_END], rest);
    ConcatAssoc(head + mark + props, kids, [NODE_END] + rest);
    ConcatAssoc(head, mark, props);
    ConcatAssoc(head, mark + props, kids + ([NODE_END] + rest));
  }

  /** Where the reader finds the parts of a node: its type byte, its region `[at + 2, q)` and its END byte `e`. */
  ghost predicate Laid(s: seq<byte>, at: nat, typ: byte, q: nat, e: nat) {
    at + 2 <= q <= e < |s| && s[at] == NODE_START && s[at + 1] == Head(typ)[1] && s[e] == NODE_END
  }

  lemma PrintPieces(s: seq<byte>, at: nat, f: Forest) returns (q: nat, e: nat)
    requires f.Tree? && Occurs(s, at, Print(f))
    ensures Laid(s, at, f.typ, q, e)
    ensures Occurs(s, at + 2, PropsRegion(f.typ, f.props)) && q == at + 2 + |PropsRegion(f.typ, f.props)|
    ensures Occurs(s, q, Print(f.kids)) && e == q + |Print(f.kids)|
    ensures Occurs(s, e + 1, Print(f.rest)) && at + |Print(f)| == e + 1 + |Print(f.rest)|
  {
    hide Print, PropsRegion;
    var region, kids, rest := PropsRegion(f.typ, f.props), Print(f.kids), Print(f.rest);
    q := at + 2 + |region|;
    e := q + |kids|;
    PrintSplit(f);
    OccursSplit(s, at, Head(f.typ), region + (kids + ([NODE_END] + rest)));
    assert s[at] == Head(f.typ)[0] && s[at + 1] == Head(f.typ)[1];
    OccursSplit(s, at + 2, region, kids + ([NODE_END] + rest));
    OccursSplit(s, q, kids, [NODE_END] + rest);
    OccursSplit(s, e, [NODE_END], rest);
    assert s[e] == [NODE_END][0];
  }

  /** `f` is printed on `[at, stop)`, and then its parent's END byte follows or the file ends. */
  ghost predicate PrintedOn(s: seq<byte>, at: nat, f: Forest, stop: nat) {
    && Occurs(s, at, Print(f)) && stop == at + |Print(f)|
    && (stop < |s| ==> s[stop] == NODE_END)
  }

  /** A printed, readable node is delimited and unescaped as it should be. */
  lemma PrintedNode(s: seq<byte>, at: nat, f: Forest, stop: nat) returns (q: nat, e: nat)
    requires f.Tree? && PrintedOn(s, at, f, stop) && Readable(f.typ, f.props)
    ensures at + 2 <= q <= e < |s| && s[at] == NODE_START && s[at + 1] == f.typ && s[e] == NODE_END
    ensures NetOf(f, at) == Node(at, q - at - 2, f.typ, NetOf(f.kids, q), NetOf(f.rest, e + 1))
    ensures Scan(s, at + 2) == Some(q) && Unescape(s[at + 2..q]) == f.props
    ensures PrintedOn(s, q, f.kids, e) && PrintedOn(s, e + 1, f.rest, stop)
  {
    hide Print, PrintedOn, Occurs, PropsRegion, NetOf, Scan, Unescape, Readable;
    q, e := PrintedSpan(s, at, f, stop);
    HeadByte(f.typ, f.props);
    NetOfNode(f, at, q, e);
    PrintedRegion(s, at + 2, f.typ, f.props, q);
  }

  lemma PrintedSpan(s: seq<byte>, at: nat, f: Forest, stop: nat) returns (q: nat, e: nat)
    requires f.Tree? && PrintedOn(s, at, f, stop)
    ensures Laid(s, at, f.typ, q, e) && s[q] in {NODE_START, NODE_END}
    ensures Occurs(s, at + 2, PropsRegion(f.typ, f.props)) && q == at + 2 + |PropsRegion(f.typ, f.props)|
    ensures e == q + |Print(f.kids)|
    ensures PrintedOn(s, q, f.kids, e) && PrintedOn(s, e + 1, f.rest, stop)
  {
    q, e := PrintPieces(s, at, f);
    KidsStart(s, q, f.kids, e);
  }

  lemma NetOfNode(f: Forest, at: nat, q: nat, e: nat)
    requires f.Tree? && q == at + 2 + |PropsRegion(f.typ, f.props)| && e == q + |Print(f.kids)|
    ensures NetOf(f, at) == Node(at, q - at - 2, f.typ, NetOf(f.kids, q), NetOf(f.rest, e + 1))
  {
  }

  lemma HeadByte(typ: byte, props: seq<byte>)
    requires Readable(typ, props)
    ensures Head(typ)[1] == typ
  {
  }

  lemma KidsStart(s: seq<byte>, q: nat, kids: Forest, e: nat)
    requires Occurs(s, q, Print(kids)) && e == q + |Print(kids)| && e < |s| && s[e] == NODE_END
    ensures q < |s| && s[q] == if kids.Tree? then NODE_START else NODE_END
  {
    if kids.Tree? {
      PrintSplit(kids);
      assert Print(kids)[0] == s[q];
    }
  }

  /** The net of `f` printed at `at`. */
  function NetOf(f: Forest, at: nat): Net {
    match f
    case Empty => Nil
    case Tree(typ, props, kids, rest) =>
      var q := at + 2 + |PropsRegion(typ, props)|;
      Node(at, q - at - 2, typ, NetOf(kids, q), NetOf(rest, q + |Print(kids)| + 1))
  }

  lemma {:induction false} ParsePrinted(s: seq<byte>, at: nat, f: Forest, stop: nat)
    requires PrintedOn(s, at, f, stop) && AllReadable(f)
    ensures ParsesTo(s, at, NetOf(f, at), stop)
    decreases f
  {
    if f.Tree? {
      var q, e := PrintedNode(s, at, f, stop);
      ParsePrinted(s, q, f.kids, e);
      ParsePrinted(s, e + 1, f.rest, stop);
      hide *;
      NodeParsesTo(s, at, q, NetOf(f.kids, q), e, NetOf(f.rest, e + 1), stop);
    }
  }

  lemma {:induction false} PrintedMatches(s: seq<byte>, at: nat, f: Forest, stop: nat)
    requires PrintedOn(s, at, f, stop) && AllReadable(f)
    ensures Matches(s, NetOf(f, at), f)
    decreases f
  {
    if f.Tree? {
      var q, e := PrintedNode(s, at, f, stop);
      PrintedMatches(s, q, f.kids, e);
      PrintedMatches(s, e + 1, f.rest, stop);
      hide *;
      NodeMatches(s, at, q, f, NetOf(f.kids, q), NetOf(f.rest, e + 1));
    }
  }

  lemma NodeMatches(s: seq<byte>, at: nat, q: nat, f: Forest, child: Net, next: Net)
    requires f.Tree? && at + 2 <= q <= |s| && Unescape(s[at + 2..q]) == f.props
    requires Matches(s, child, f.kids) && Matches(s, next, f.rest)
    ensures Matches(s, Node(at, q - at - 2, f.typ, child, next), f)
  {
  }

  lemma PrintedRegion(s: seq<byte>, at: nat, typ: byte, props: seq<byte>, q: nat)
    requires Readable(typ, props) && Occurs(s, at, PropsRegion(typ, props)) && q == at + |PropsRegion(typ, props)|
    requires q < |s| && s[q] in {NODE_START, NODE_END}
    ensures Scan(s, at) == Some(q) && Unescape(s[at..q]) == props
  {
    ReadableRegion(s, at, typ, props);
    OccursSlice(s, at, PropsRegion(typ, props));
  }

  /** The extra ESCAPE in front of the properties is only harmless where `ShiftsBack` says so. */
  lemma {:induction false} ShiftForced(s: seq<byte>, at: nat, props: seq<byte>, q: nat)
    requires Occurs(s, at, [ESCAPE_CHAR] + Escape(props))
    requires Scan(s, at) == Some(q) && Unescape(s[at..q]) == props
    ensures ShiftsBack(props)
    decreases |props|
  {
    assert s[at] == ([ESCAPE_CHAR] + Escape(props))[0];
    UnescapePair(s, at, q);
    if props[0] >= ESCAPE_CHAR {
      var rest := props[1..];
      EscapeCons(props[0], rest);
      assert props == [props[0]] + rest;
      assert [ESCAPE_CHAR] + Escape(props) == [ESCAPE_CHAR, ESCAPE_CHAR] + ([props[0]] + Escape(rest));
      OccursSplit(s, at, [ESCAPE_CHAR, ESCAPE_CHAR], [props[0]] + Escape(rest));
      assert s[at + 1] == [ESCAPE_CHAR, ESCAPE_CHAR][1];
      hide Escape, Unescape, Scan, Occurs;
      ShiftForced(s, at + 2, rest, q);
    }
  }

  lemma UnescapePair(s: seq<byte>, at: nat, q: nat)
    requires at < |s| && s[at] == ESCAPE_CHAR && Scan(s, at) == Some(q)
    ensures at + 2 <= q && Scan(s, at + 2) == Some(q)
    ensures Unescape(s[at..q]) == [s[at + 1]] + Unescape(s[at + 2..q])
  {
    assert s[at..q][2..] == s[at + 2..q];
  }

  /** If the reader gives back what was printed, every node was readable and the reader stopped where it should. */
  lemma {:induction false} ReadBackForcesReadable(s: seq<byte>, at: nat, f: Forest, stop: nat, net: Net, stop': nat)
    requires PrintedOn(s, at, f, stop)
    requires ParsesTo(s, at, net, stop') && Matches(s, net, f)
    ensures AllReadable(f) && stop' == stop
    decreases f
  {
    hide Print, PrintedOn, Occurs, Scan, Parse, ParsesTo, Unescape, Readable;
    if f.Tree? {
      var q, e, e' := ForcedNode(s, at, f, stop, net, stop');
      ReadBackForcesReadable(s, q, f.kids, e, net.child, e');
      ReadBackForcesReadable(s, e + 1, f.rest, stop, net.next, stop');
    } else {
      NothingForced(s, at, stop, stop');
    }
  }

  lemma NothingForced(s: seq<byte>, at: nat, stop: nat, stop': nat)
    requires PrintedOn(s, at, Empty, stop) && ParsesTo(s, at, Nil, stop')
    ensures stop' == stop
  {
  }

  lemma ForcedNode(s: seq<byte>, at: nat, f: Forest, stop: nat, net: Net, stop': nat)
    returns (q: nat, e: nat, e': nat)
    requires f.Tree? && PrintedOn(s, at, f, stop)
    requires ParsesTo(s, at, net, stop') && Matches(s, net, f)
    ensures Readable(f.typ, f.props)
    ensures PrintedOn(s, q, f.kids, e) && PrintedOn(s, e + 1, f.rest, stop)
    ensures ParsesTo(s, q, net.child, e') && ParsesTo(s, e' + 1, net.next, stop')
  {
    hide Print, PrintedOn, Occurs, Scan, Parse, Unescape;
    var q';
    q', e' := ParseInversion(s, at);
    TypeForced(s, at, f, stop, q');
    q, e := PrintedNode(s, at, f, stop);
  }

  lemma TypeForced(s: seq<byte>, at: nat, f: Forest, stop: nat, q: nat)
    requires f.Tree? && PrintedOn(s, at, f, stop)
    requires at + 2 <= q <= |s| && Scan(s, at + 2) == Some(q)
    requires s[at + 1] == f.typ && Unescape(s[at + 2..q]) == f.props
    ensures Readable(f.typ, f.props)
  {
    var _, _ := PrintPieces(s, at, f);
    if f.typ == ESCAPE_CHAR {
      ShiftForced(s, at + 2, f.props, q);
    }
  }

  /** A written file: four zero bytes for the version, then the root node and its siblings. */
  function FileOf(f: Forest): seq<byte> {
    [0, 0, 0, 0] + Print(f)
  }

  /** The bytes of a file with two siblings, the first of which has a reserved byte among its properties and a child. */
  lemma FileBytes()
    ensures FileOf(Tree(1, [0xFE, 0x41], Tree(2, [], Empty, Empty), Tree(3, [0xFF, 0xFD], Empty, Empty)))
            == [0, 0, 0, 0] + [0xFE, 1, 0xFD, 0xFE, 0x41] + [0xFE, 2, 0xFF] + [0xFF]
               + [0xFE, 3, 0xFD, 0xFF, 0xFD, 0xFD, 0xFF]
  {
    hide Escape;
    EscapeBytes();
    assert Print(Tree(2, [], Empty, Empty)) == [0xFE, 2, 0xFF];
    assert Print(Tree(3, [0xFF, 0xFD], Empty, Empty)) == [0xFE, 3, 0xFD, 0xFF, 0xFD, 0xFD, 0xFF];
  }

  lemma EscapeBytes()
    ensures Escape([]) == [] && Escape([0xFE, 0x41]) == [0xFD, 0xFE, 0x41]
    ensures Escape([0xFF, 0xFD]) == [0xFD, 0xFF, 0xFD, 0xFD]
  {
    assert Escape([0x41]) == [0x41] && Escape([0xFD]) == [0xFD, 0xFD];
  }

  lemma FilePrinted(f: Forest)
    ensures PrintedOn(FileOf(f), 4, f, |FileOf(f)|)
  {
  }

  /** A file of readable nodes is read back whole, to its last byte. */
  lemma FileRoundTrip(f: Forest)
    requires f.Tree? && AllReadable(f)
    ensures Parse(FileOf(f), 4).Parsed? && Parse(FileOf(f), 4).stop == |FileOf(f)|
    ensures Matches(FileOf(f), Parse(FileOf(f), 4).net, f)
  {
    FilePrinted(f);
    ParsePrinted(FileOf(f), 4, f, |FileOf(f)|);
    PrintedMatches(FileOf(f), 4, f, |FileOf(f)|);
  }

  /** The round trip holds exactly for the files all of whose nodes are readable. */
  lemma RoundTripIffReadable(f: Forest)
    requires f.Tree?
    ensures Parse(FileOf(f), 4).Parsed? && Matches(FileOf(f), Parse(FileOf(f), 4).net, f) <==> AllReadable(f)
  {
    FilePrinted(f);
    if AllReadable(f) {
      FileRoundTrip(f);
    } else if Parse(FileOf(f), 4).Parsed? && Matches(FileOf(f), Parse(FileOf(f), 4).net, f) {
      var r := Parse(FileOf(f), 4);
      var _, _ := PrintPieces(FileOf(f), 4, f);
      ReadBackForcesReadable(FileOf(f), 4, f, |FileOf(f)|, r.net, r.stop);
    }
  }

  /** One file the reader does not give back: a lone node of type END. */
  lemma ReservedTypeLost()
    ensures var f := Tree(NODE_END, [], Empty, Empty);
            !(Parse(FileOf(f), 4).Parsed? && Matches(FileOf(f), Parse(FileOf(f), 4).net, f))
  {
    RoundTripIffReadable(Tree(NODE_END, [], Empty, Empty));
  }
}
