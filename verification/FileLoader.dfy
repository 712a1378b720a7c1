/** The file loader: a node-stream writer, and a reader that may go through a cache of three blocks. */
module FileLoader {
  import opened Bytes
  import opened NodeFormat
  import opened NodeNet

  const CACHE_BLOCKS := 3
  const NO_VALID_CACHE := 0xFFFF_FFFF

  datatype LoaderError =
    | ERROR_NONE
    | ERROR_INVALID_FILE_VERSION
    | ERROR_CAN_NOT_OPEN
    | ERROR_CAN_NOT_CREATE
    | ERROR_EOF
    | ERROR_SEEK_ERROR
    | ERROR_INVALID_FORMAT
    | ERROR_CACHE_ERROR

  /** One cache block. `data` holds the `size` bytes that the last `fread` into it delivered. */
  datatype CacheBlock = CacheBlock(loaded: bool, base: nat, size: nat, data: seq<byte>)

  datatype PropsResult = Props(bytes: seq<byte>) | NoNode | ReadFailed | Overrun

  datatype ParseStep = Fail | End | Sibling(node: NodeStruct)

  /** What `fread` of `size` bytes at `base` delivers. */
  function Window(file: seq<byte>, base: nat, size: nat): seq<byte> {
    if base >= |file| then [] else file[base..Min(base + size, |file|)]
  }

  /** A block that agrees with the file. */
  predicate Faithful(file: seq<byte>, cacheSize: nat, b: CacheBlock) {
    b.data == Window(file, b.base, cacheSize) && b.size == |b.data|
  }

  /** memcpy */
  method CopyInto(dst: array<byte>, at: nat, src: seq<byte>)
    requires at + |src| <= dst.Length
    modifies dst
    ensures forall i :: at <= i < at + |src| ==> dst[i] == src[i - at]
    ensures forall i :: 0 <= i < dst.Length && !(at <= i < at + |src|) ==> dst[i] == old(dst[i])
  {
    forall i | 0 <= i < |src| {
      dst[at + i] := src[i];
    }
  }

  /** `before` became `after` by reading the `n` bytes at `pos` of the file to the place `at`. */
  ghost predicate ReadAt(before: seq<byte>, after: seq<byte>, file: seq<byte>, at: nat, pos: nat, n: nat) {
    && |after| == |before| && at + n <= |before| && pos + n <= |file|
    && (forall i :: at <= i < at + n ==> after[i] == file[pos + (i - at)])
    && (forall i :: 0 <= i < |before| && !(at <= i < at + n) ==> after[i] == before[i])
  }

  lemma NothingToUnescape()
    ensures Clean([]) && Unescape([]) == []
  {
  }

  lemma CopiedAt(before: seq<byte>, after: seq<byte>, file: seq<byte>, at: nat, pos: nat, n: nat)
    requires |after| == |before| && at + n <= |before| && pos + n <= |file|
    requires forall i :: at <= i < at + n ==> after[i] == file[pos..pos + n][i - at]
    requires forall i :: 0 <= i < |before| && !(at <= i < at + n) ==> after[i] == before[i]
    ensures ReadAt(before, after, file, at, pos, n)
  {
  }

  lemma FaithfulByte(file: seq<byte>, cacheSize: nat, b: CacheBlock, offset: nat)
    requires Faithful(file, cacheSize, b)
    ensures offset < b.size ==>
              b.base + offset < |file| && offset < |b.data| && b.data[offset] == file[b.base + offset]
    ensures b.size <= offset < cacheSize ==> b.base + offset >= |file|
    ensures offset < cacheSize && b.base + offset <= |file| ==> offset <= b.size == |b.data|
  {
  }

  lemma FaithfulSlice(file: seq<byte>, cacheSize: nat, b: CacheBlock, at: nat, n: nat)
    requires Faithful(file, cacheSize, b) && b.base <= at <= |file| && at + n <= b.base + b.size
    ensures at + n <= |file| && b.data[at - b.base..at - b.base + n] == file[at..at + n]
  {
    if b.base < |file| {
      assert b.data == file[b.base..b.base + b.size];
      SliceOfSlice(file, b.base, b.base + b.size, at, n);
    } else {
      assert b.data == [] && n == 0;
    }
  }

  lemma SliceOfSlice(s: seq<byte>, i: nat, j: nat, at: nat, n: nat)
    requires i <= at && at + n <= j <= |s|
    ensures s[i..j][at - i..at - i + n] == s[at..at + n]
  {
    var a, b := s[i..j][at - i..at - i + n], s[at..at + n];
    forall k | 0 <= k < n ensures a[k] == b[k] {
    }
  }

  class Loader {
    var file: seq<byte>      // the content of m_file
    var filePos: nat         // the position of m_file
    var lastError: LoaderError
    var root: NodeStruct?
    var buffer: array<byte>
    var useCache: bool
    var cacheSize: nat
    var cache: array<CacheBlock>
    var cacheIndex: nat
    var cacheOffset: nat

    ghost predicate Valid()
      reads this`file, this`useCache, this`cacheSize, this`cache, this`cacheIndex, cache
    {
      && cache.Length == CACHE_BLOCKS
      && (useCache ==> cacheSize >= 1)
      && (forall i :: 0 <= i < CACHE_BLOCKS && cache[i].loaded ==> Faithful(file, cacheSize, cache[i]))
      && (cacheIndex == NO_VALID_CACHE || (cacheIndex < CACHE_BLOCKS && cache[cacheIndex].loaded))
    }

    /** The reader has a position: always without the cache, after a successful seek or read with it. */
    predicate Positioned()
      reads this`useCache, this`cacheIndex
    {
      useCache ==> cacheIndex != NO_VALID_CACHE
    }

    /** The position of the next byte, seen from outside. */
    function Pos(): nat
      requires Valid() && Positioned()
      reads this`file, this`filePos, this`useCache, this`cacheSize, this`cache, this`cacheIndex, this`cacheOffset, cache
    {
      if useCache then cache[cacheIndex].base + cacheOffset else filePos
    }

    constructor ()
      ensures Valid() && fresh(cache) && fresh(buffer)
      ensures Closed() && file == [] && filePos == 0 && lastError == ERROR_NONE && root == null
      ensures buffer.Length == 1024
    {
      file, filePos, lastError, root := [], 0, ERROR_NONE, null;
      buffer := new byte[1024];
      useCache, cacheSize, cacheIndex, cacheOffset := false, 0, NO_VALID_CACHE, NO_VALID_CACHE;
      cache := new CacheBlock[CACHE_BLOCKS](_ => CacheBlock(false, 0, 0, []));
    }

    /** No file has been opened yet. */
    ghost predicate Closed()
      reads this, cache
    {
      && cache.Length == CACHE_BLOCKS
      && !useCache && cacheIndex == NO_VALID_CACHE
      && forall i :: 0 <= i < CACHE_BLOCKS ==> !cache[i].loaded
    }

    // -------------------------------------------------------------- the cache

    method LoadCacheBlock(pos: nat) returns (index: int)
      requires Valid() && useCache
      modifies this`filePos, this`lastError, cache
      ensures Valid()
      ensures index == -1 || (0 <= index < CACHE_BLOCKS && cache[index].loaded)
      ensures index == -1 ==> lastError == ERROR_SEEK_ERROR
      ensures index != -1 ==> lastError == old(lastError)
      ensures index != -1 ==> cache[index].base == AndNot(pos, cacheSize - 1)
      ensures pos <= |file| ==> index != -1
    {
      var loading := -1;
      var base := AndNot(pos, cacheSize - 1);
      AndNotWithin(pos, cacheSize - 1);
      var i := 0;
      while i < CACHE_BLOCKS
        invariant loading == -1
      {
        if !cache[i].loaded {
          loading := i;
          break;
        }
        i := i + 1;
      }
      if loading == -1 {
        i := 0;
        while i < CACHE_BLOCKS
          invariant loading == -1
        {
          if Distance(cache[i].base, base) > 2 * cacheSize {
            loading := i;
            break;
          }
          i := i + 1;
        }
        if loading == -1 {
          loading := 0;
        }
      }
      var data := Window(file, base, cacheSize);
      filePos := base + |data|;
      cache[loading] := cache[loading].(base := base, size := |data|, data := data);
      if |data| < pos - base {
        lastError := ERROR_SEEK_ERROR;
        return -1;
      }
      cache[loading] := cache[loading].(loaded := true);
      return loading;
    }

    function Distance(a: nat, b: nat): nat {
      if a <= b then b - a else a - b
    }

    method GetCacheBlock(pos: nat) returns (index: nat)
      requires Valid() && useCache
      modifies this`filePos, this`lastError, cache
      ensures Valid()
      ensures index == NO_VALID_CACHE || (index < CACHE_BLOCKS && cache[index].loaded)
      ensures index == NO_VALID_CACHE ==> lastError == ERROR_SEEK_ERROR
      ensures index != NO_VALID_CACHE ==> lastError == old(lastError)
      ensures index != NO_VALID_CACHE ==> cache[index].base <= pos < cache[index].base + cacheSize
      ensures pos <= |file| ==> index != NO_VALID_CACHE
    {
      var found := false;
      var base := AndNot(pos, cacheSize - 1);
      AndNotWithin(pos, cacheSize - 1);
      var i := 0;
      while i < CACHE_BLOCKS
        invariant 0 <= i <= CACHE_BLOCKS && !found
      {
        if cache[i].loaded && cache[i].base == base {
          found := true;
          break;
        }
        i := i + 1;
      }
      if found {
        return i;
      }
      var loaded := LoadCacheBlock(pos);
      index := if loaded < 0 then NO_VALID_CACHE else loaded;
    }

    // -------------------------------------------------------------- primitive reads

    method ReadByte() returns (ok: bool, value: byte)
      requires Valid()
      modifies this`filePos, this`lastError, this`cacheIndex, this`cacheOffset, cache
      ensures Valid() && (old(Positioned()) ==> Positioned())
      ensures ok <==> old(Positioned()) && old(Pos()) < |file|
      ensures ok ==> value == file[old(Pos())] && Pos() == old(Pos()) + 1
      ensures ok ==> lastError == old(lastError)
      ensures !ok && old(Positioned()) && old(Pos()) <= |file| ==>
                Pos() == old(Pos()) && lastError == if useCache then old(lastError) else ERROR_EOF
      ensures !old(Positioned()) ==> lastError == ERROR_CACHE_ERROR
    {
      if useCache {
        ok, value := ReadCachedByte();
      } else if filePos >= |file| {
        lastError := ERROR_EOF;
        return false, 0;
      } else {
        value := file[filePos];
        filePos := filePos + 1;
        return true, value;
      }
    }

    method ReadCachedByte() returns (ok: bool, value: byte)
      requires Valid() && useCache
      modifies this`filePos, this`lastError, this`cacheIndex, this`cacheOffset, cache
      ensures Valid() && (old(Positioned()) ==> Positioned())
      ensures ok <==> old(Positioned()) && old(Pos()) < |file|
      ensures ok ==> value == file[old(Pos())] && Pos() == old(Pos()) + 1
      ensures ok || (old(Positioned()) && old(Pos()) <= |file|) ==> lastError == old(lastError)
      ensures !ok && old(Positioned()) && old(Pos()) <= |file| ==> Pos() == old(Pos())
      ensures !old(Positioned()) ==> lastError == ERROR_CACHE_ERROR
    {
      hide Faithful;
      if cacheIndex == NO_VALID_CACHE {
        lastError := ERROR_CACHE_ERROR;
        return false, 0;
      }
      FaithfulByte(file, cacheSize, cache[cacheIndex], cacheOffset);
      if cacheOffset >= cache[cacheIndex].size {
        var pos := cacheOffset + cache[cacheIndex].base;
        var index := GetCacheBlock(pos);
        if index == NO_VALID_CACHE {
          return false, 0;
        }
        cacheIndex := index;
        cacheOffset := pos - cache[cacheIndex].base;
        FaithfulByte(file, cacheSize, cache[cacheIndex], cacheOffset);
        if cacheOffset >= cache[cacheIndex].size {
          return false, 0;
        }
      }
      value := cache[cacheIndex].data[cacheOffset];
      cacheOffset := cacheOffset + 1;
      return true, value;
    }

    method SafeSeek(pos: nat) returns (ok: bool)
      requires Valid()
      modifies this`filePos, this`lastError, this`cacheIndex, this`cacheOffset, cache
      ensures Valid() && (old(Positioned()) ==> Positioned())
      ensures ok ==> Positioned() && Pos() == pos && lastError == old(lastError)
      ensures !ok ==> lastError == ERROR_SEEK_ERROR
      ensures !useCache || pos <= |file| ==> ok
    {
      if useCache {
        var index := GetCacheBlock(pos);
        if index == NO_VALID_CACHE {
          return false;
        }
        cacheIndex := index;
        cacheOffset := pos - cache[index].base;
      } else {
        filePos := pos;
      }
      return true;
    }

    /** Gives the position of the byte just read, hence one less than where the next byte is. */
    method SafeTell() returns (ok: bool, pos: int)
      requires Valid()
      modifies this`lastError
      ensures Valid() && (old(Positioned()) ==> Positioned() && Pos() == old(Pos()))
      ensures ok <==> Positioned()
      ensures ok ==> pos == Pos() - 1 && lastError == old(lastError)
      ensures !ok ==> lastError == ERROR_CACHE_ERROR
    {
      pos := 0;
      if useCache {
        if cacheIndex == NO_VALID_CACHE {
          lastError := ERROR_CACHE_ERROR;
          return false, 0;
        }
        return true, cache[cacheIndex].base + cacheOffset - 1;
      } else {
        return true, filePos - 1;
      }
    }

    /** One pass of the loop in `ReadBytes`: as many of the `remain` bytes at `at` as the block holding them has. */
    method ReadBlock(dst: array<byte>, done: nat, remain: nat, at: nat) returns (reading: nat)
      requires Valid() && useCache && at + remain <= |file| && done + remain <= dst.Length
      modifies this`filePos, this`lastError, this`cacheIndex, this`cacheOffset, cache, dst
      ensures Valid() && Positioned() && Pos() == at + reading && lastError == old(lastError)
      ensures reading <= remain && (remain > 0 ==> reading > 0)
      ensures ReadAt(old(dst[..]), dst[..], file, done, at, reading)
    {
      hide Faithful, ReadAt;
      cacheIndex := GetCacheBlock(at);
      cacheOffset := at - cache[cacheIndex].base;
      FaithfulByte(file, cacheSize, cache[cacheIndex], cacheOffset);
      reading := Min(remain, cache[cacheIndex].size - cacheOffset);
      FaithfulSlice(file, cacheSize, cache[cacheIndex], at, reading);
      ghost var before := dst[..];
      CopyInto(dst, done, cache[cacheIndex].data[cacheOffset..cacheOffset + reading]);
      CopiedAt(before, dst[..], file, done, at, reading);
      cacheOffset := cacheOffset + reading;
    }

    /** With the cache, the loop makes no progress at the end of the file: the caller must ask for bytes that exist. */
    method ReadBytes(dst: array<byte>, size: nat, pos: nat) returns (ok: bool)
      requires Valid() && size <= dst.Length
      requires useCache ==> pos + size <= |file|
      modifies this`filePos, this`lastError, this`cacheIndex, this`cacheOffset, cache, dst
      ensures Valid()
      ensures ok <==> size == 0 || pos + size <= |file|
      ensures ok && size > 0 ==> dst[..size] == file[pos..pos + size]
      ensures ok ==> Positioned() && Pos() == pos + size && lastError == old(lastError)
      ensures !ok ==> lastError == ERROR_EOF && Positioned() && Pos() == Max(pos, |file|)
      ensures dst[size..] == old(dst[size..])
    {
      if useCache {
        ok := ReadCached(dst, size, pos);
      } else {
        ok := ReadPlain(dst, size, pos);
      }
    }

    method ReadPlain(dst: array<byte>, size: nat, pos: nat) returns (ok: bool)
      requires Valid() && !useCache && size <= dst.Length
      modifies this`filePos, this`lastError, dst
      ensures Valid()
      ensures ok <==> size == 0 || pos + size <= |file|
      ensures ok && size > 0 ==> dst[..size] == file[pos..pos + size]
      ensures if ok then filePos == pos + size && lastError == old(lastError)
              else filePos == Max(pos, |file|) && lastError == ERROR_EOF
      ensures dst[size..] == old(dst[size..])
    {
      var data := Window(file, pos, size);
      CopyInto(dst, 0, data);
      assert dst[..|data|] == data && dst[|data|..] == old(dst[|data|..]);
      assert dst[size..] == dst[|data|..][size - |data|..];
      filePos := pos + |data|;
      ok := |data| == size;
      if !ok {
        lastError := ERROR_EOF;
      }
    }

    method ReadCached(dst: array<byte>, size: nat, pos: nat) returns (ok: bool)
      requires Valid() && useCache && size <= dst.Length && pos + size <= |file|
      modifies this`filePos, this`lastError, this`cacheIndex, this`cacheOffset, cache, dst
      ensures Valid() && ok
      ensures dst[..size] == file[pos..pos + size]
      ensures Positioned() && Pos() == pos + size && lastError == old(lastError)
      ensures dst[size..] == old(dst[size..])
    {
      var remain: nat, done: nat, at: nat := size, 0, pos;
      var first := true;
      while first || remain > 0
        invariant Valid() && done + remain == size && at == pos + done
        invariant first || (Positioned() && Pos() == at)
        invariant lastError == old(lastError)
        invariant ReadAt(old(dst[..]), dst[..], file, 0, pos, done)
        decreases first, remain
      {
        first := false;
        ghost var now := dst[..];
        var reading := ReadBlock(dst, done, remain, at);
        ReadOn(old(dst[..]), now, dst[..], file, pos, done, reading);
        remain, done, at := remain - reading, done + reading, at + reading;
      }
      return true;
    }

    // -------------------------------------------------------------- properties

    /** The loop of `getProps` that drops the ESCAPE bytes where they stand. */
    method UnescapeBuffer(size: nat) returns (j: nat)
      requires size <= buffer.Length && Clean(buffer[..size])
      modifies buffer
      ensures j <= size && buffer[..j] == Unescape(old(buffer[..size]))
    {
      hide Unescape, Clean;
      ghost var region := buffer[..size];
      var i, escaped := 0, false;
      j := 0;
      while i < size
        invariant 0 <= j <= i <= size && (!escaped ==> i == j)
        invariant forall k :: i <= k < size ==> buffer[k] == region[k]
        invariant Clean(region[i..])
        invariant buffer[..j] + Unescape(region[i..]) == Unescape(region)
      {
        ghost var kept, left := buffer[..j], region[i..];
        UnescapeStep(left);
        if buffer[i] == ESCAPE_CHAR {
          assert left[2..] == region[i + 2..] && buffer[i + 1] == left[1];
          i := i + 1;
          buffer[j] := buffer[i];
          escaped := true;
        } else {
          assert left[1..] == region[i + 1..];
          if escaped {
            buffer[j] := buffer[i];
          }
        }
        ConcatAssoc(kept, [buffer[j]], Unescape(region[i + 1..]));
        i, j := i + 1, j + 1;
        assert buffer[..j] == kept + [buffer[j - 1]];
      }
      assert region[i..] == [] && Unescape([]) == [] by {
        UnescapeEscape([]);
      }
    }

    ghost predicate InFile(node: NodeStruct)
      reads this`file, node
    {
      node.start + 2 + node.propsSize <= |file|
    }

    ghost function RegionOf(node: NodeStruct): seq<byte>
      requires InFile(node)
      reads this`file, node
    {
      file[node.start + 2..node.start + 2 + node.propsSize]
    }

    /** `Overrun` stands for the write past the buffer that follows when one step of growth is not enough. */
    method GetProps(node: NodeStruct?) returns (r: PropsResult)
      requires Valid()
      requires node != null && InFile(node) ==> Clean(RegionOf(node))
      requires node != null && useCache ==> InFile(node)
      modifies this`filePos, this`lastError, this`cacheIndex, this`cacheOffset, this`buffer, cache, buffer
      ensures Valid() && (buffer == old(buffer) || fresh(buffer))
      ensures r.NoNode? <==> node == null
      ensures r.Overrun? <==> node != null && node.propsSize > old(buffer.Length) + 1024
      ensures r.ReadFailed? ==> !InFile(node)
      ensures r.Props? && InFile(node) ==> r.bytes == Unescape(RegionOf(node))
      ensures r.Props? && !InFile(node) ==> node.propsSize == 0 && r.bytes == []
      ensures r.Props? ==> |r.bytes| <= buffer.Length && buffer[..|r.bytes|] == r.bytes
      ensures buffer.Length
              == if node != null && node.propsSize >= old(buffer.Length) then old(buffer.Length) + 1024
                 else old(buffer.Length)
    {
      hide Valid, Unescape, Clean;
      if node == null {
        return NoNode;
      }
      if node.propsSize >= buffer.Length {
        buffer := new byte[buffer.Length + 1024];
      }
      if node.propsSize > buffer.Length {
        return Overrun;
      }
      r := ReadProps(node);
    }

    /** The rest of `getProps`, once the buffer is large enough. */
    method ReadProps(node: NodeStruct) returns (r: PropsResult)
      requires Valid() && node.propsSize <= buffer.Length
      requires InFile(node) ==> Clean(RegionOf(node))
      requires useCache ==> InFile(node)
      modifies this`filePos, this`lastError, this`cacheIndex, this`cacheOffset, cache, buffer
      ensures Valid() && (r.ReadFailed? || r.Props?)
      ensures r.ReadFailed? ==> !InFile(node)
      ensures r.Props? && InFile(node) ==> r.bytes == Unescape(RegionOf(node))
      ensures r.Props? && !InFile(node) ==> node.propsSize == 0 && r.bytes == []
      ensures r.Props? ==> |r.bytes| <= buffer.Length && buffer[..|r.bytes|] == r.bytes
    {
      hide Unescape, Clean;
      NothingToUnescape();
      var ok := ReadBytes(buffer, node.propsSize, node.start + 2);
      if !ok {
        return ReadFailed;
      }
      assert buffer[..node.propsSize] == if InFile(node) then RegionOf(node) else [];
      var size := UnescapeBuffer(node.propsSize);
      return Props(buffer[..size]);
    }

    // -------------------------------------------------------------- parsing

    /** What a failed parse leaves in `lastError`, given what was there before. */
    function ErrorAfter(error: ParseError, before: LoaderError): LoaderError
      reads this`useCache
    {
      if error == BadFormat then ERROR_INVALID_FORMAT else if useCache then before else ERROR_EOF
    }

    /** The reader stands behind the START byte of a node that has only its start recorded. */
    ghost predicate AtNode(node: NodeStruct)
      reads this`file, this`filePos, this`useCache, this`cacheSize, this`cache, this`cacheIndex, this`cacheOffset, cache,
            node
    {
      && Valid() && Positioned()
      && Pos() == node.start + 1 <= |file|
      && node.child == null && node.next == null
    }

    method ParseNode(node: NodeStruct) returns (ok: bool, ghost net: Net, ghost repr: set<NodeStruct>)
      requires AtNode(node)
      modifies this`filePos, this`lastError, this`cacheIndex, this`cacheOffset, cache, node
      ensures Valid() && Positioned() && node.start == old(node.start)
      ensures ok <==> Parse(file, node.start).Parsed?
      ensures ok ==> Parse(file, node.start) == Parsed(net, Pos())
      ensures ok ==> Spells(node, net, repr) && fresh(repr - {node})
      ensures !ok ==> lastError == ErrorAfter(Parse(file, node.start).error, old(lastError))
      ensures ok ==> lastError == if Pos() < |file| then old(lastError) else ErrorAfter(Truncated, old(lastError))
      decreases |file| - node.start, 3
    {
      hide Valid, Pos, Parse;
      var currentNode := node;
      ghost var done: seq<Net>, covered: set<NodeStruct> := [], {};
      while true
        invariant AtNode(currentNode) && node.start == old(node.start) <= currentNode.start
        invariant currentNode == node || (fresh(currentNode) && node in covered)
        invariant currentNode !in covered && fresh(covered - {node})
        invariant Leads(node, currentNode, done, covered)
        invariant Parse(file, node.start) == Prepend(done, Parse(file, currentNode.start))
        invariant lastError == old(lastError)
        decreases |file| - currentNode.start
      {
        var step, rec, kids := ParseOne(currentNode);
        match step
        case Fail =>
          return false, Nil, {};
        case End =>
          net, repr := Link(done, rec), covered + kids + {currentNode};
          assert Spells(currentNode, rec, kids + {currentNode}) by {
            SpellsMore(currentNode.child, rec.child, kids, kids + {currentNode});
          }
          LeadsToEnd(node, currentNode, done, rec, covered, kids + {currentNode}, repr);
          return true, net, repr;
        case Sibling(nextNode) =>
          PrependMore(done, rec, Parse(file, nextNode.start));
          LeadsOn(node, currentNode, done, rec, covered, kids, covered + kids + {currentNode});
          covered := covered + kids + {currentNode};
          done := done + [rec];
          currentNode := nextNode;
      }
    }

    /** One pass of the outer loop of `parseNode`: a node, its children, and the byte after its END. */
    method ParseOne(node: NodeStruct) returns (step: ParseStep, ghost rec: Net, ghost kids: set<NodeStruct>)
      requires AtNode(node)
      modifies this`filePos, this`lastError, this`cacheIndex, this`cacheOffset, cache, node
      ensures Valid() && Positioned() && node.start == old(node.start) && fresh(kids)
      ensures StepOk(step, Parse(file, node.start), old(lastError))
      ensures !step.Fail? ==> SameFields(node, rec) && rec.next.Nil? && Spells(node.child, rec.child, kids)
      ensures step.End? ==> Parse(file, node.start) == Parsed(rec, Pos()) && node.next == null
      ensures step.Sibling? ==>
                && node.next == step.node && AtNode(step.node) && fresh(step.node) && step.node !in kids
                && node.start < step.node.start
                && Parse(file, node.start) == Prepend([rec], Parse(file, step.node.start))
      decreases |file| - node.start, 2
    {
      hide Valid, Pos, ParseRest;
      kids, rec := {}, Nil;
      var ok, byte := ReadByte();
      if !ok {
        return Fail, Nil, {};
      }
      node.typ := byte;
      ghost var child;
      ok, child, kids := ParseBody(node);
      if !ok {
        return Fail, Nil, {};
      }
      step := ParseSibling(node, child);
      rec := Node(node.start, node.propsSize, node.typ, child, Nil);
    }

    /** How one pass ends, when what it and the passes after it read is `r`. */
    ghost predicate StepOk(step: ParseStep, r: ParseResult, before: LoaderError)
      requires Valid() && Positioned()
      reads this`file, this`filePos, this`useCache, this`cacheSize, this`cache, this`cacheIndex, this`cacheOffset, cache,
            this`lastError
    {
      match step
      case Fail => r.Failed? && lastError == ErrorAfter(r.error, before)
      case End => lastError == if Pos() < |file| then before else ErrorAfter(Truncated, before)
      case Sibling(_) => lastError == before
    }

    /** The part of `parseNode` behind the END byte of a node. */
    method ParseSibling(node: NodeStruct, ghost child: Net) returns (step: ParseStep)
      requires Valid() && Positioned() && node.start + 2 < Pos() <= |file|
      requires node.typ == file[node.start + 1] && node.next == null
      modifies this`filePos, this`lastError, this`cacheIndex, this`cacheOffset, cache, node`next
      ensures Valid() && Positioned()
      ensures var r := ParseRest(file, node.start, node.propsSize, child, old(Pos()) - 1);
              var rec := Node(node.start, node.propsSize, node.typ, child, Nil);
              && StepOk(step, r, old(lastError))
              && (step.End? ==> r == Parsed(rec, Pos()) && node.next == null)
              && (step.Sibling? ==>
                    && node.next == step.node && AtNode(step.node) && fresh(step.node)
                    && node.start < step.node.start
                    && r == Prepend([rec], Parse(file, step.node.start)))
    {
      hide Valid, Pos;
      var ok, byte := ReadByte();
      if !ok {
        return End;
      }
      if byte == NODE_START {
        var told, pos := SafeTell();
        if !told {
          return Fail;
        }
        var nextNode := new NodeStruct();
        nextNode.start := pos;
        node.next := nextNode;
        PrependOne(Node(node.start, node.propsSize, node.typ, child, Nil), Parse(file, pos));
        return Sibling(nextNode);
      } else if byte == NODE_END {
        var told, pos := SafeTell();
        if !told {
          return Fail;
        }
        var sought := SafeSeek(pos);
        if !sought {
          return Fail;
        }
        return End;
      } else {
        lastError := ERROR_INVALID_FORMAT;
        return Fail;
      }
    }

    /** The inner loop of `parseNode`: from behind the type byte to behind the END byte of the node. */
    method ParseBody(node: NodeStruct) returns (ok: bool, ghost child: Net, ghost kids: set<NodeStruct>)
      requires Valid() && Positioned() && node.start + 2 == Pos() <= |file|
      requires node.child == null && node.next == null && node.typ == file[node.start + 1]
      modifies this`filePos, this`lastError, this`cacheIndex, this`cacheOffset, cache, node`propsSize, node`child
      ensures Valid() && Positioned() && fresh(kids)
      ensures !ok ==>
                && Parse(file, node.start).Failed?
                && lastError == ErrorAfter(Parse(file, node.start).error, old(lastError))
      ensures ok ==>
                && node.start + 2 < Pos() <= |file| && lastError == old(lastError)
                && Spells(node.child, child, kids)
                && Parse(file, node.start) == ParseRest(file, node.start, node.propsSize, child, Pos() - 1)
      decreases |file| - node.start, 1
    {
      hide Valid, Pos, Parse, ParseRest, Scan;
      child, kids := Nil, {};
      var setPropsSize := false;
      while true
        invariant Valid() && Positioned() && node.start + 2 <= Pos() <= |file|
        invariant fresh(kids) && Spells(node.child, child, kids)
        invariant !setPropsSize || Pos() < |file| ==> lastError == old(lastError)
        invariant useCache ==> lastError == old(lastError)
        invariant !setPropsSize ==>
                    node.child == null && child.Nil? && Scan(file, node.start + 2) == Scan(file, Pos())
        invariant setPropsSize && Pos() < |file| ==>
                    && file[Pos()] == NODE_END
                    && Parse(file, node.start) == ParseRest(file, node.start, node.propsSize, child, Pos())
        invariant setPropsSize && Pos() == |file| ==> Parse(file, node.start) == Failed(Truncated)
        decreases |file| - Pos()
      {
        if !setPropsSize {
          ScanStep(file, node.start, Pos());
        }
        var more, byte := ReadByte();
        if !more {
          return false, Nil, {};
        }
        if byte == NODE_START {
          setPropsSize := true;
          more, child, kids := ParseChild(node);
          if !more {
            return false, Nil, {};
          }
        } else if byte == NODE_END {
          if !setPropsSize {
            var told, pos := SafeTell();
            if !told {
              return false, Nil, {};
            }
            node.propsSize := pos - node.start - 2;
          }
          return true, child, kids;
        } else if byte == ESCAPE_CHAR {
          more, byte := ReadByte();
          if !more {
            return false, Nil, {};
          }
        }
      }
    }

    /** The branch of `parseNode` taken on the START byte of a first child. */
    method ParseChild(node: NodeStruct) returns (ok: bool, ghost child: Net, ghost kids: set<NodeStruct>)
      requires Valid() && Positioned() && node.start + 2 < Pos() <= |file| && node.child == null
      requires file[Pos() - 1] == NODE_START && Scan(file, node.start + 2) == Some(Pos() - 1)
      modifies this`filePos, this`lastError, this`cacheIndex, this`cacheOffset, cache, node`propsSize, node`child
      ensures Valid() && Positioned() && fresh(kids)
      ensures !ok ==>
                && Parse(file, node.start).Failed?
                && lastError == ErrorAfter(Parse(file, node.start).error, old(lastError))
      ensures node.child == null || fresh(node.child)
      ensures ok ==>
                && old(Pos()) < Pos() <= |file| && Spells(node.child, child, kids) && node.child != null
                && lastError == if Pos() < |file| then old(lastError) else ErrorAfter(Truncated, old(lastError))
      ensures ok && Pos() < |file| ==>
                && file[Pos()] == NODE_END
                && Parse(file, node.start) == ParseRest(file, node.start, node.propsSize, child, Pos())
      ensures ok && Pos() == |file| ==> Parse(file, node.start) == Failed(Truncated)
      decreases |file| - node.start, 0
    {
      ChildStep(file, node.start, Pos() - 1);
      hide Valid, Pos, Parse, ParseRest, Scan;
      var told, pos := SafeTell();
      if !told {
        return false, Nil, {};
      }
      var childNode := new NodeStruct();
      childNode.start := pos;
      node.propsSize := pos - node.start - 2;
      node.child := childNode;
      ghost var repr;
      ok, child, repr := ParseNode(childNode);
      kids := repr + {childNode};
      if ok {
        SpellsMore(childNode, child, repr, kids);
      } else {
        kids := {};
      }
    }

    // -------------------------------------------------------------- opening a file

    /** `disk` is the file's content if it exists; `junk` is what `version` holds when fewer than four bytes are
        there. */
    method OpenForReading(disk: Option<seq<byte>>, junk: nat, caching: bool)
      returns (ok: bool, ghost net: Net, ghost repr: set<NodeStruct>)
      requires Valid() && Closed()
      modifies this, cache
      ensures cache == old(cache) && buffer == old(buffer) && Valid()
      ensures ok <==> disk.Some? && Accepted(disk.value)
      ensures ok ==> file == disk.value && root != null
      ensures ok ==> net == Parse(file, 4).net && Spells(root, net, repr)
      ensures disk.None? ==> lastError == ERROR_CAN_NOT_OPEN
      ensures disk.Some? && |disk.value| >= 4 && !VersionZero(disk.value) ==> lastError == ERROR_INVALID_FILE_VERSION
      ensures ok && caching ==> useCache && 1 <= cacheSize <= 32768
    {
      net, repr := Nil, {};
      if disk.None? {
        lastError := ERROR_CAN_NOT_OPEN;
        return false, net, repr;
      }
      file, filePos := disk.value, Min(4, |disk.value|);
      var version := if |file| >= 4 then LittleEndian(file[..4]) else junk;
      if version > 0 {
        lastError := ERROR_INVALID_FILE_VERSION;
        return false, net, repr;
      }
      if caching {
        StartCaching();
      }
      ok, net, repr := ReadRoot();
    }

    /** The block size: from 8192 to 32768, a multiple of 8192 but not always a power of two. */
    method StartCaching()
      requires Valid() && Closed()
      modifies this`useCache, this`filePos, this`cacheSize
      ensures Valid() && useCache && 1 <= cacheSize <= 32768
    {
      useCache := true;
      filePos := |file|;
      cacheSize := AndNot(Min(32768, Max(|file| / 20, 8192)), 0x1FFF);
      AndNotWithin(Min(32768, Max(|file| / 20, 8192)), 0x1FFF);
    }

    method ReadRoot() returns (ok: bool, ghost net: Net, ghost repr: set<NodeStruct>)
      requires Valid() && (|file| >= 4 ==> VersionZero(file))
      modifies this`filePos, this`lastError, this`cacheIndex, this`cacheOffset, this`root, cache
      ensures Valid()
      ensures ok <==> Accepted(file)
      ensures ok ==> root != null && net == Parse(file, 4).net && Spells(root, net, repr)
    {
      hide Valid, Pos, Parse;
      net, repr := Nil, {};
      var sought := SafeSeek(4);
      if !sought {
        lastError := ERROR_INVALID_FORMAT;
        return false, net, repr;
      }
      root := new NodeStruct();
      root.start := 4;
      sought := SafeSeek(4);
      if !sought {
        return false, net, repr;
      }
      var more, byte := ReadByte();
      if !more || byte != NODE_START {
        return false, net, repr;
      }
      ok, net, repr := ParseNode(root);
    }

    method OpenForWriting(creatable: bool) returns (ok: bool)
      modifies this`file, this`lastError
      ensures ok == creatable
      ensures if ok then file == [0, 0, 0, 0] && lastError == old(lastError)
              else file == old(file) && lastError == ERROR_CAN_NOT_CREATE
    {
      if !creatable {
        lastError := ERROR_CAN_NOT_CREATE;
        return false;
      }
      file := [];
      WriteData([0, 0, 0, 0], false);
      return true;
    }

    // -------------------------------------------------------------- writing

    method WriteData(data: seq<byte>, unescape: bool)
      modifies this`file
      ensures file == old(file) + Written(data, unescape)
    {
      var i := 0;
      while i < |data|
        invariant 0 <= i <= |data|
        invariant file == old(file) + Written(data[..i], unescape)
      {
        var c := data[i];
        WrittenMore(old(file), data, i, unescape);
        if unescape && (c == NODE_START || c == NODE_END || c == ESCAPE_CHAR) {
          file := file + [ESCAPE_CHAR];
        }
        file := file + [c];
        i := i + 1;
      }
      assert data[..i] == data;
    }

    method StartNode(typ: byte)
      modifies this`file
      ensures file == old(file) + [NODE_START] + EscapeByte(typ)
    {
      WriteData([NODE_START], false);
      WriteData([typ], true);
      assert Escape([typ]) == EscapeByte(typ) by {
        EscapeCons(typ, []);
      }
    }

    method SetProps(data: seq<byte>) returns (error: LoaderError)
      requires |data| < 0x1_0000
      modifies this`file
      ensures file == old(file) + Escape(data) && error == ERROR_NONE
    {
      WriteData(data, true);
      error := ERROR_NONE;
    }

    method EndNode()
      modifies this`file
      ensures file == old(file) + [NODE_END]
    {
      WriteData([NODE_END], false);
    }
  }

  function Written(data: seq<byte>, unescape: bool): seq<byte> {
    if unescape then Escape(data) else data
  }

  lemma WrittenMore(before: seq<byte>, data: seq<byte>, i: nat, unescape: bool)
    requires i < |data|
    ensures before + Written(data[..i + 1], unescape)
            == before + Written(data[..i], unescape)
               + if unescape && Special(data[i]) then [ESCAPE_CHAR] + [data[i]] else [data[i]]
  {
    assert data[..i + 1] == data[..i] + [data[i]];
    EscapeConcat(data[..i], [data[i]]);
    EscapeCons(data[i], []);
    assert [data[i]] + [] == [data[i]];
    ConcatAssoc(before, Written(data[..i], unescape), EscapeByte(data[i]));
  }

  predicate VersionZero(file: seq<byte>) {
    |file| >= 4 && file[0] == file[1] == file[2] == file[3] == 0
  }

  /** What the reader accepts: version zero, then siblings that begin with a root node. */
  predicate Accepted(file: seq<byte>) {
    VersionZero(file) && |file| > 4 && file[4] == NODE_START && Parse(file, 4).Parsed?
  }

  function LittleEndian(s: seq<byte>): (n: nat)
    requires |s| == 4
    ensures n == 0 <==> s[0] == s[1] == s[2] == s[3] == 0
  {
    var a: int, b: int, c: int, d: int := s[0], s[1], s[2], s[3];
    a + 0x100 * b + 0x1_0000 * c + 0x100_0000 * d
  }

  /** The callers of the writer: each node's properties in pieces of at most 65535 bytes, then its children. */
  method WriteForest(loader: Loader, f: Forest)
    modifies loader`file
    ensures loader.file == old(loader.file) + Print(f)
    decreases f
  {
    match f
    case Empty =>
    case Tree(typ, props, kids, rest) =>
      loader.StartNode(typ);
      var left := props;
      ghost var before := loader.file;
      while left != []
        invariant loader.file + Escape(left) == before + Escape(props)
        decreases |left|
      {
        var n := Min(0xFFFF, |left|);
        ghost var written := loader.file;
        var error := loader.SetProps(left[..n]);
        EscapeConcat(left[..n], left[n..]);
        assert left == left[..n] + left[n..];
        ConcatAssoc(written, Escape(left[..n]), Escape(left[n..]));
        left := left[n..];
      }
      assert loader.file == before + Escape(props);
      WriteForest(loader, kids);
      loader.EndNode();
      WriteForest(loader, rest);
      PrintAppended(old(loader.file), f);
  }

  lemma PrintAppended(before: seq<byte>, f: Forest)
    requires f.Tree?
    ensures before + [NODE_START] + EscapeByte(f.typ) + Escape(f.props) + Print(f.kids) + [NODE_END] + Print(f.rest)
            == before + Print(f)
  {
    var a, b, c, d, e := [NODE_START], EscapeByte(f.typ), Escape(f.props), Print(f.kids), [NODE_END];
    ConcatAssoc(before, a, b);
    ConcatAssoc(before, a + b, c);
    ConcatAssoc(before, a + b + c, d);
    ConcatAssoc(before, a + b + c + d, e);
    ConcatAssoc(before, a + b + c + d + e, Print(f.rest));
  }

  // ---------------------------------------------------------------- the cache cannot be seen

  datatype Request = Seek(pos: nat) | Tell | Next | Block(size: nat, pos: nat)

  datatype Reply = Sought | Told(at: int) | Got(b: byte) | EndOfFile | Read(data: seq<byte>)

  /** The request stays inside the file. */
  predicate Inside(file: seq<byte>, q: Request) {
    match q
    case Seek(pos) => pos <= |file|
    case Block(size, pos) => pos + size <= |file|
    case _ => true
  }

  /** The answer of a plain file at position `pos`, and the position afterwards. */
  function Answer(file: seq<byte>, pos: nat, q: Request): (Reply, nat)
    requires pos <= |file| && Inside(file, q)
  {
    match q
    case Seek(to) => (Sought, to)
    case Tell => (Told(pos - 1), pos)
    case Next => if pos < |file| then (Got(file[pos]), pos + 1) else (EndOfFile, pos)
    case Block(size, at) => (Read(file[at..at + size]), at + size)
  }

  function Answers(file: seq<byte>, pos: nat, qs: seq<Request>): seq<Reply>
    requires pos <= |file| && forall i :: 0 <= i < |qs| ==> Inside(file, qs[i])
    decreases |qs|
  {
    if qs == [] then []
    else [Answer(file, pos, qs[0]).0] + Answers(file, Answer(file, pos, qs[0]).1, qs[1..])
  }

  /** Any run of requests is answered as the plain file answers it, with or without the cache. */
  method Serve(loader: Loader, qs: seq<Request>) returns (replies: seq<Reply>)
    requires loader.Valid() && loader.Positioned() && loader.Pos() <= |loader.file|
    requires forall i :: 0 <= i < |qs| ==> Inside(loader.file, qs[i])
    modifies loader`filePos, loader`lastError, loader`cacheIndex, loader`cacheOffset, loader.cache
    ensures replies == Answers(loader.file, old(loader.Pos()), qs)
  {
    replies := [];
    var i := 0;
    while i < |qs|
      invariant 0 <= i <= |qs|
      invariant loader.Valid() && loader.Positioned() && loader.Pos() <= |loader.file|
      invariant replies + Answers(loader.file, loader.Pos(), qs[i..])
                == Answers(loader.file, old(loader.Pos()), qs)
    {
      ghost var pos, before := loader.Pos(), replies;
      var reply := ServeOne(loader, qs[i]);
      replies := replies + [reply];
      assert qs[i..][1..] == qs[i + 1..];
      i := i + 1;
    }
    assert qs[i..] == [];
  }

  method ServeOne(loader: Loader, q: Request) returns (reply: Reply)
    requires loader.Valid() && loader.Positioned() && loader.Pos() <= |loader.file|
    requires Inside(loader.file, q)
    modifies loader`filePos, loader`lastError, loader`cacheIndex, loader`cacheOffset, loader.cache
    ensures loader.Valid() && loader.Positioned() && loader.Pos() <= |loader.file|
    ensures (reply, loader.Pos()) == Answer(loader.file, old(loader.Pos()), q)
  {
    match q
    case Seek(pos) =>
      var ok := loader.SafeSeek(pos);
      return Sought;
    case Tell =>
      var ok, pos := loader.SafeTell();
      return Told(pos);
    case Next =>
      var ok, byte := loader.ReadByte();
      return if ok then Got(byte) else EndOfFile;
    case Block(size, pos) =>
      var dst := new byte[size];
      var ok := loader.ReadBytes(dst, size, pos);
      assert dst[..] == dst[..size] == loader.file[pos..pos + size];
      return Read(dst[..]);
  }

  lemma ReadOn(start: seq<byte>, before: seq<byte>, after: seq<byte>, file: seq<byte>, pos: nat, done: nat, n: nat)
    requires ReadAt(start, before, file, 0, pos, done)
    requires ReadAt(before, after, file, done, pos + done, n)
    ensures ReadAt(start, after, file, 0, pos, done + n)
  {
  }
}
