/** Property streams: values written one after the other into a growing buffer, and read back in order. */
module PropStreams {
  import opened Bytes

  // ---------------------------------------------------------------- numbers

  /** The low `k` bytes of a number, the lowest first. */
  function Le(n: nat, k: nat): (s: seq<byte>)
    ensures |s| == k
  {
    if k == 0 then [] else [n % 256] + Le(n / 256, k - 1)
  }

  function FromLe(s: seq<byte>): nat {
    if s == [] then 0 else s[0] + 256 * FromLe(s[1..])
  }

  function Power(k: nat): nat
    ensures Power(k) > 0
  {
    if k == 0 then 1 else 256 * Power(k - 1)
  }

  lemma {:induction false} LeBack(n: nat, k: nat)
    requires n < Power(k)
    ensures FromLe(Le(n, k)) == n
  {
    if k > 0 {
      LeBack(n / 256, k - 1);
      assert Le(n, k)[1..] == Le(n / 256, k - 1);
    }
  }

  /** And any bytes are those of the number they make. */
  lemma {:induction false} LeOf(s: seq<byte>)
    ensures FromLe(s) < Power(|s|) && Le(FromLe(s), |s|) == s
  {
    if s != [] {
      LeOf(s[1..]);
      LowFirst(s[0], FromLe(s[1..]));
    }
  }

  lemma LowFirst(b: byte, n: nat)
    ensures (b + 256 * n) % 256 == b && (b + 256 * n) / 256 == n
  {
  }

  lemma Bytes2(a: byte, b: byte)
    ensures Le(a + 0x100 * b, 2) == [a, b]
  {
    LeOf([a, b]);
  }

  lemma Bytes4(a: byte, b: byte, c: byte, d: byte)
    ensures Le(a + 0x100 * b + 0x1_0000 * c + 0x100_0000 * d, 4) == [a, b, c, d]
  {
    var s := [a, b, c, d];
    LeOf(s);
    assert FromLe([d]) == d && FromLe([c, d]) == c + 256 * FromLe([d]);
    assert FromLe([b, c, d]) == b + 256 * FromLe([c, d]) && FromLe(s) == a + 256 * FromLe([b, c, d]);
  }

  /** Byte `i` of a number is the one with weight 256 to the `i`. */
  lemma {:induction false} LeAt(n: nat, k: nat, i: nat)
    requires i < k
    ensures Le(n, k)[i] == n / Power(i) % 256
  {
    if i > 0 {
      LeAt(n / 256, k - 1, i - 1);
      DivTwice(n, Power(i - 1));
    }
  }

  lemma DivTwice(n: nat, p: nat)
    requires p > 0
    ensures n / 256 / p == n / (256 * p)
  {
    var q := n / 256 / p;
    var r := n / 256 % p;
    assert n == 256 * (p * q + r) + n % 256;
    assert 0 <= 256 * r + n % 256 < 256 * p;
    DivIs(n, 256 * p, q, 256 * r + n % 256);
  }

  lemma DivIs(n: nat, d: nat, q: nat, r: nat)
    requires n == d * q + r && r < d
    ensures n / d == q
  {
    var e: int := q - n / d;
    assert d * e == n % d - r;
    assert e >= 1 ==> d * e >= d;
    assert e < 0 ==> d * e + d <= 0;
  }

  lemma Sizes()
    ensures Power(1) == 0x100 && Power(2) == 0x1_0000 && Power(4) == UINT32
  {
    assert Power(3) == 0x100_0000;
  }

  // ---------------------------------------------------------------- strings

  /** A string as C reads it, up to its first zero. */
  function CString(s: seq<byte>): (r: seq<byte>)
    ensures 0 !in r && (0 !in s ==> r == s)
  {
    if s == [] || s[0] == 0 then [] else [s[0]] + CString(s[1..])
  }

  lemma {:induction false} CStringIff(s: seq<byte>)
    ensures CString(s) == s <==> 0 !in s
  {
  }

  const USHORT := 0x1_0000

  /** The length is kept in 16 bits, and no more than that is written. */
  function PutString(s: seq<byte>): seq<byte> {
    Le(|s| % USHORT, 2) + s[..|s| % USHORT]
  }

  /** The next `n` bytes of a stream, and the rest. */
  function Take(s: seq<byte>, n: nat): Option<(seq<byte>, seq<byte>)> {
    if |s| < n then None else Some((s[..n], s[n..]))
  }

  function GetString(s: seq<byte>): Option<(seq<byte>, seq<byte>)> {
    if |s| < 2 then None
    else
      var n := FromLe(s[..2]);
      if |s| - 2 < n then None else Some((CString(s[2..2 + n]), s[2 + n..]))
  }

  lemma TakeBack(a: seq<byte>, rest: seq<byte>)
    ensures Take(a + rest, |a|) == Some((a, rest))
  {
    assert (a + rest)[..|a|] == a && (a + rest)[|a|..] == rest;
  }

  lemma StringBack(s: seq<byte>, rest: seq<byte>)
    ensures GetString(PutString(s) + rest) == Some((CString(s[..|s| % USHORT]), rest))
  {
    var n := |s| % USHORT;
    var all := PutString(s) + rest;
    Sizes();
    LeBack(n, 2);
    assert all[..2] == Le(n, 2);
    assert all[2..2 + n] == s[..n];
    assert all[2 + n..] == rest;
  }

  /** The next multiple of 32. */
  function RoundUp(n: nat): (r: nat)
    ensures n <= r < n + 32 && r % 32 == 0
  {
    (n + 31) / 32 * 32
  }

  lemma SliceOn(s: seq<byte>, n: nat)
    requires |s| >= 2
    ensures |s[2..]| >= n ==> s[2..][..n] == s[2..2 + n] && s[2..][n..] == s[2 + n..]
  {
  }

  // ---------------------------------------------------------------- the streams as objects

  class PropWriteStream {
    var buffer: array<byte>
    var size: nat

    ghost predicate Valid()
      reads this
    {
      size <= buffer.Length
    }

    ghost function Contents(): seq<byte>
      reads this, buffer
      requires Valid()
    {
      buffer[..size]
    }

    constructor ()
      ensures Valid() && fresh(buffer) && Contents() == []
    {
      buffer := new byte[32](_ => 0);
      size := 0;
    }

    /** `realloc` */
    method Grow(n: nat)
      requires Valid()
      modifies this`buffer
      ensures Valid() && fresh(buffer) && Contents() == old(Contents()) && buffer.Length - size >= n
    {
      var bigger := new byte[buffer.Length + RoundUp(n)](_ => 0);
      var k := 0;
      while k < size
        invariant k <= size && buffer == old(buffer) && bigger[..k] == buffer[..k]
      {
        bigger[k] := buffer[k];
        k := k + 1;
      }
      buffer := bigger;
    }

    /** `ADD_VALUE`: the buffer grows, in steps of 32 bytes, when the bytes do not fit. */
    method AddBytes(s: seq<byte>)
      requires Valid()
      modifies this, buffer
      ensures Valid() && (buffer == old(buffer) || fresh(buffer))
      ensures Contents() == old(Contents()) + s
    {
      if buffer.Length - size < |s| {
        Grow(|s|);
      }
      ghost var was := buffer[..size];
      var i := 0;
      while i < |s|
        invariant i <= |s| && size + |s| <= buffer.Length && size == old(size)
        invariant buffer[..size + i] == was + s[..i]
        modifies buffer
      {
        buffer[size + i] := s[i];
        i := i + 1;
      }
      size := size + |s|;
    }

    /** `ADD_STRING` */
    method AddString(s: seq<byte>)
      requires Valid()
      modifies this, buffer
      ensures Valid() && (buffer == old(buffer) || fresh(buffer))
      ensures Contents() == old(Contents()) + PutString(s)
    {
      var n := |s| % USHORT;
      ghost var was := Contents();
      AddBytes(Le(n, 2));
      AddBytes(s[..n]);
      ConcatAssoc(was, Le(n, 2), s[..n]);
    }
  }

  class PropStream {
    const data: seq<byte>
    var p: nat

    ghost predicate Valid()
      reads this
    {
      p <= |data|
    }

    ghost function Rest(): seq<byte>
      reads this
      requires Valid()
    {
      data[p..]
    }

    constructor (data: seq<byte>)
      ensures Valid() && Rest() == data
    {
      this.data, p := data, 0;
    }

    /** `GET_VALUE` of a value of `n` bytes */
    method GetBytes(n: nat) returns (ok: bool, s: seq<byte>)
      requires Valid()
      modifies this
      ensures Valid()
      ensures match Take(old(Rest()), n)
              case None => !ok && Rest() == old(Rest())
              case Some(pair) => ok && s == pair.0 && Rest() == pair.1
    {
      if |data| - p < n {
        return false, [];
      }
      s := data[p..p + n];
      p := p + n;
      ok := true;
    }

    /** `GET_STRING` */
    method GetText() returns (ok: bool, s: seq<byte>)
      requires Valid()
      modifies this
      ensures Valid()
      ensures match GetString(old(Rest()))
              case None => !ok
              case Some(pair) => ok && s == pair.0 && Rest() == pair.1
    {
      ghost var before := Rest();
      var length;
      ok, length := GetBytes(2);
      if !ok {
        return false, [];
      }
      var n := FromLe(length);
      SliceOn(before, n);
      ok, s := GetBytes(n);
      s := CString(s);
    }
  }

  /** A tag and the value behind it. */
  method AddField(out: PropWriteStream, tag: byte, s: seq<byte>)
    requires out.Valid()
    modifies out, out.buffer
    ensures out.Valid() && (out.buffer == old(out.buffer) || fresh(out.buffer))
    ensures out.Contents() == old(out.Contents()) + ([tag] + s)
  {
    ghost var was := out.Contents();
    out.AddBytes([tag]);
    out.AddBytes(s);
    ConcatAssoc(was, [tag], s);
  }
}
