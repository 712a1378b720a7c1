/** How a damage condition spreads its damage: falling values whose running total follows a straight line. */
module DamageList {
  import opened Bytes

  function Abs(x: int): nat {
    if x < 0 then -x else x
  }

  function AbsReal(x: real): real {
    if x < 0.0 then -x else x
  }

  /** Would one more `i` bring the sum nearer to the mark? Dividing by a mark of zero gives infinities, which do not
      compare as less. */
  predicate Nearer(sum: int, i: int, med: int) {
    med != 0 && AbsReal(1.0 - (sum as real + i as real) / med as real) < AbsReal(1.0 - sum as real / med as real)
  }

  lemma NearerIff(sum: int, i: int, med: int)
    requires i > 0 && med >= 0 && sum >= 0
    ensures Nearer(sum, i, med) <==> 2 * sum + i < 2 * med
  {
    hide AbsReal;
    if med > 0 {
      NearerReal(sum as real, i as real, med as real);
    }
  }

  lemma NearerReal(s: real, d: real, m: real)
    requires d > 0.0 && m > 0.0
    ensures AbsReal(1.0 - (s + d) / m) < AbsReal(1.0 - s / m) <==> 2.0 * s + d < 2.0 * m
  {
    hide AbsReal;
    Scaled(s + d, m);
    Scaled(s, m);
    NearerBy(s, d, m);
    Divide(AbsReal(1.0 - (s + d) / m), AbsReal(1.0 - s / m), AbsReal(m - (s + d)), AbsReal(m - s), m);
  }

  lemma Scaled(x: real, m: real)
    requires m > 0.0
    ensures AbsReal(1.0 - x / m) * m == AbsReal(m - x)
  {
    assert (1.0 - x / m) * m == m - x;
  }

  lemma Divide(a: real, b: real, c: real, d: real, m: real)
    requires m > 0.0 && a * m == c && b * m == d
    ensures a < b <==> c < d
  {
  }

  lemma NearerBy(s: real, d: real, m: real)
    requires d > 0.0
    ensures AbsReal(m - (s + d)) < AbsReal(m - s) <==> 2.0 * s + d < 2.0 * m
  {
  }

  // ---------------------------------------------------------------- the list

  function Sum(s: seq<nat>): nat {
    if s == [] then 0 else s[0] + Sum(s[1..])
  }

  lemma {:induction false} SumConcat(a: seq<nat>, b: seq<nat>)
    ensures Sum(a + b) == Sum(a) + Sum(b)
  {
    if a == [] {
      assert a + b == b;
    } else {
      assert (a + b)[1..] == a[1..] + b;
      SumConcat(a[1..], b);
    }
  }

  function Product(a: nat, b: nat): nat {
    a * b
  }

  function Quotient(a: nat, b: nat): nat
    requires b > 0
  {
    a / b
  }

  /** The mark that the sum should reach by the value `i`. */
  function Mark(amount: nat, start: nat, i: nat): nat
    requires 1 <= i <= start + 1 && start > 0
  {
    Quotient(Product(start + 1 - i, amount), start)
  }

  /** Copies of one value: at least one, and more as long as they bring the sum nearer to the mark. */
  function Copies(sum: nat, i: nat, med: nat): (r: seq<nat>)
    requires i > 0
    ensures r != [] && forall k :: 0 <= k < |r| ==> r[k] == i
    decreases 2 * med - 2 * sum
  {
    if 2 * (sum + i) + i < 2 * med then [i] + Copies(sum + i, i, med) else [i]
  }

  /** The values from `i` down to 1, with the sum so far. */
  function From(amount: nat, start: nat, i: nat, sum: nat): seq<nat>
    requires i <= start
  {
    if i == 0 then []
    else
      var r := Copies(sum, i, Mark(amount, start, i));
      r + From(amount, start, i - 1, sum + Sum(r))
  }

  function Damages(amount: int, start: int): seq<nat> {
    if start <= 0 then [] else From(Abs(amount), start, start, 0)
  }

  /** `generateDamageList` */
  method GenerateDamageList(amount: int, start: int) returns (list: seq<nat>)
    ensures list == Damages(amount, start)
  {
    hide *;
    var abs := Abs(amount);
    var sum: nat := 0;
    list := [];
    DamagesAre(amount, start);
    var i := start;
    while i > 0
      invariant start > 0 ==> 0 <= i <= start && Damages(amount, start) == list + From(abs, start, i, sum)
      invariant start <= 0 ==> list == [] && i == start
    {
      var n := start + 1 - i;
      var med := Quotient(Product(n, abs), start);
      FromIs(abs, start, i, sum);
      ghost var had, before := list, sum;
      ghost var copies: seq<nat> := [];
      sum := sum + i;
      list := list + [i];
      copies := [i];
      SumOne(i);
      NearerIff(sum, i, med);
      CopiesStep(before, i, med);
      while Nearer(sum, i, med)
        invariant sum == before + Sum(copies) && list == had + copies && i > 0
        invariant Copies(before, i, med)
                  == copies + if 2 * sum + i < 2 * med then Copies(sum, i, med) else []
        invariant Nearer(sum, i, med) <==> 2 * sum + i < 2 * med
        decreases 2 * med - 2 * sum
      {
        CopiesStep(sum, i, med);
        SumConcat(copies, [i]);
        sum := sum + i;
        list := list + [i];
        copies := copies + [i];
        NearerIff(sum, i, med);
      }
      assert copies + [] == copies;
      ConcatAssoc(had, copies, From(abs, start, i - 1, sum));
      i := i - 1;
    }
    if start > 0 {
      FromIs(abs, start, 0, sum);
      assert list + [] == list;
    }
  }

  lemma DamagesAre(amount: int, start: int)
    ensures Damages(amount, start) == if start <= 0 then [] else From(Abs(amount), start, start, 0)
  {
  }

  lemma FromIs(amount: nat, start: nat, i: nat, sum: nat)
    requires i <= start
    ensures From(amount, start, i, sum)
            == if i == 0 then []
               else
                 var r := Copies(sum, i, Quotient(Product(start + 1 - i, amount), start));
                 r + From(amount, start, i - 1, sum + Sum(r))
  {
  }

  lemma SumOne(i: nat)
    ensures Sum([i]) == i
  {
  }

  lemma CopiesStep(sum: nat, i: nat, med: nat)
    requires i > 0
    ensures Copies(sum, i, med) == [i] + if 2 * (sum + i) + i < 2 * med then Copies(sum + i, i, med) else []
  {
  }

  // ---------------------------------------------------------------- what the list is like

  ghost predicate Falling(s: seq<nat>) {
    s == [] || (Falling(s[1..]) && forall x :: x in s[1..] ==> x <= s[0])
  }

  lemma {:induction false} FallingConcat(a: seq<nat>, b: seq<nat>, i: nat)
    requires Falling(b) && (forall k :: 0 <= k < |a| ==> a[k] == i) && forall x :: x in b ==> x <= i
    ensures Falling(a + b)
  {
    if a == [] {
      assert a + b == b;
    } else {
      assert (a + b)[1..] == a[1..] + b;
      FallingConcat(a[1..], b, i);
      assert forall x :: x in a[1..] + b ==> x in a[1..] || x in b;
    }
  }

  lemma {:induction false} FromFalls(amount: nat, start: nat, i: nat, sum: nat)
    requires i <= start
    ensures Falling(From(amount, start, i, sum))
    ensures forall x :: x in From(amount, start, i, sum) <==> 1 <= x <= i
    decreases i
  {
    hide Mark;
    if i > 0 {
      var r := Copies(sum, i, Mark(amount, start, i));
      var rest: seq<nat> := From(amount, start, i - 1, sum + Sum(r));
      FromFalls(amount, start, i - 1, sum + Sum(r));
      FallingConcat(r, rest, i);
      assert r[0] == i;
      forall x ensures x in r + rest <==> 1 <= x <= i {
        assert x in r + rest <==> x in r || x in rest;
        assert x in r <==> x == i;
      }
    }
  }

  lemma {:induction false} FallingAt(s: seq<nat>, k: nat)
    requires Falling(s) && k < |s|
    ensures s[k] <= s[0]
  {
    if k > 0 {
      assert s[k] in s[1..];
    }
  }

  /** The list falls from the start value to 1 and leaves out no value between. */
  lemma DamagesFall(amount: int, start: int)
    ensures Falling(Damages(amount, start))
    ensures forall x :: x in Damages(amount, start) <==> 1 <= x <= start
  {
    if start > 0 {
      FromFalls(Abs(amount), start, start, 0);
    }
  }

  /** After the copies, one more would not bring the sum nearer; and unless there is one copy only, the last one did. */
  lemma {:induction false} CopiesEnd(sum: nat, i: nat, med: nat)
    requires i > 0
    ensures var end := sum + Sum(Copies(sum, i, med));
            2 * end + i >= 2 * med && (end == sum + i || 2 * end < 2 * med + i)
    decreases 2 * med - 2 * sum
  {
    CopiesStep(sum, i, med);
    if 2 * (sum + i) + i < 2 * med {
      var r := Copies(sum + i, i, med);
      CopiesEnd(sum + i, i, med);
      assert ([i] + r)[1..] == r;
      assert Sum([i] + r) == i + Sum(r);
    } else {
      SumOne(i);
    }
  }

  lemma FromSum(amount: nat, start: nat, i: nat, sum: nat)
    requires 1 <= i <= start
    ensures var end := sum + Sum(Copies(sum, i, Mark(amount, start, i)));
            sum + Sum(From(amount, start, i, sum)) == end + Sum(From(amount, start, i - 1, end))
  {
    hide Mark, Copies;
    var r := Copies(sum, i, Mark(amount, start, i));
    SumConcat(r, From(amount, start, i - 1, sum + Sum(r)));
  }

  lemma Multiples(a: nat, b: nat, s: nat)
    requires a < b
    ensures a * s + s <= b * s
  {
    var more: nat := b - a - 1;
    var rest: nat := Product(more, s);
    assert b == a + 1 + more;
    assert b * s == a * s + s + rest;
  }

  lemma DivIs(a: nat, s: nat)
    requires s > 0
    ensures (a / s) * s <= a < (a / s) * s + s
  {
  }

  lemma DivAtLeast(a: nat, s: nat, q: nat)
    requires s > 0 && a >= q * s
    ensures a / s >= q
  {
    DivIs(a, s);
    if a / s < q {
      Multiples(a / s, q, s);
    }
  }

  /** The mark is no more than this share of the amount. */
  lemma MarkShare(amount: nat, start: nat, i: nat)
    requires 1 <= i <= start
    ensures start * Mark(amount, start, i) <= (start + 1 - i) * amount
  {
    DivIs(Product(start + 1 - i, amount), start);
  }

  lemma MarkLast(amount: nat, start: nat)
    requires start > 0
    ensures Mark(amount, start, 1) == amount
  {
    DivAtLeast(Product(start, amount), start, amount);
    MarkShare(amount, start, 1);
    Divided(start, Mark(amount, start, 1), amount);
  }

  function Triangle(n: nat): nat {
    if n == 0 then 0 else n + Triangle(n - 1)
  }

  lemma {:induction false} FromLower(amount: nat, start: nat, i: nat, sum: nat)
    requires 1 <= i <= start
    ensures sum + Sum(From(amount, start, i, sum)) >= amount
    decreases i
  {
    hide Mark, Copies, From;
    var end := sum + Sum(Copies(sum, i, Mark(amount, start, i)));
    CopiesEnd(sum, i, Mark(amount, start, i));
    FromSum(amount, start, i, sum);
    MarkLast(amount, start);
    if i > 1 {
      FromLower(amount, start, i - 1, end);
    }
  }

  /** Every value down from `i` is dealt at least once. */
  lemma {:induction false} FromTriangle(amount: nat, start: nat, i: nat, sum: nat)
    requires 0 <= i <= start && start > 0
    ensures Sum(From(amount, start, i, sum)) >= Triangle(i)
    decreases i
  {
    hide Mark, From;
    if i > 0 {
      var r := Copies(sum, i, Mark(amount, start, i));
      CopiesEnd(sum, i, Mark(amount, start, i));
      FromSum(amount, start, i, sum);
      FromTriangle(amount, start, i - 1, sum + Sum(r));
    }
  }

  lemma {:induction false} TriangleIs(n: nat)
    ensures 2 * Triangle(n) == n * (n + 1)
  {
    if n > 0 {
      TriangleIs(n - 1);
    }
  }

  /** A sum that follows the mark leaves room below `most` for one copy of each value that is still to come. */
  lemma MarkRoom(amount: nat, start: nat, i: nat, most: nat)
    requires 1 <= i <= start && most >= amount && most >= Triangle(start)
    ensures 2 * Mark(amount, start, i) + (i - 1) + 2 * Triangle(i - 1) <= 2 * most
  {
    var mark := Mark(amount, start, i);
    TriangleIs(i - 1);
    TriangleIs(start);
    MarkShare(amount, start, i);
    RoomLeft(amount, start, i, most, mark);
    assert (i - 1) + (i - 1) * i == (i - 1) * (i + 1);
  }

  lemma RoomLeft(amount: nat, start: nat, i: nat, most: nat, mark: nat)
    requires 1 <= i <= start && most >= amount && 2 * most >= start * (start + 1)
    requires start * mark <= (start + 1 - i) * amount
    ensures (i - 1) * (i + 1) <= 2 * most - 2 * mark
  {
    var later, end := i - 1, start + 1;
    Larger(start - later, amount, most);
    Distribute(start, later, most);
    Spread(start, most, mark);
    Larger(later, start * end, 2 * most);
    Doubled(later, most);
    Doubled(start, most - mark);
    Swapped(later, start, end);
    Divided(start, later * end, 2 * (most - mark));
    Larger(later, i + 1, end);
  }

  lemma Distribute(a: int, b: int, c: int)
    ensures (a - b) * c == a * c - b * c
  {
  }

  lemma Spread(a: int, b: int, c: int)
    ensures a * (b - c) == a * b - a * c
  {
  }

  lemma Doubled(a: int, b: int)
    ensures a * (2 * b) == 2 * (a * b)
  {
  }

  lemma Swapped(a: int, b: int, c: int)
    ensures a * (b * c) == b * (a * c)
  {
  }

  lemma Larger(a: nat, b: int, c: int)
    requires b <= c
    ensures a * b <= a * c
  {
    var more: nat := c - b;
    var rest: nat := Product(a, more);
    assert a * c == a * b + rest;
  }

  lemma Divided(a: nat, b: int, c: int)
    requires a > 0 && a * b <= a * c
    ensures b <= c
  {
    if c < b {
      MuchLarger(a, c, b);
    }
  }

  lemma MuchLarger(a: nat, b: int, c: int)
    requires b < c
    ensures a * b + a <= a * c
  {
    Larger(a, b + 1, c);
    assert a * (b + 1) == a * b + a;
  }

  lemma {:induction false} FromUpper(amount: nat, start: nat, i: nat, sum: nat, most: nat)
    requires 0 <= i <= start && start > 0 && most >= amount && most >= Triangle(start)
    requires sum + Triangle(i) <= most
    ensures sum + Sum(From(amount, start, i, sum)) <= most
    decreases i
  {
    hide Mark, Copies, From;
    if i > 0 {
      var end := sum + Sum(Copies(sum, i, Mark(amount, start, i)));
      CopiesEnd(sum, i, Mark(amount, start, i));
      FromSum(amount, start, i, sum);
      MarkRoom(amount, start, i, most);
      FromUpper(amount, start, i - 1, end, most);
    } else {
      FromIs(amount, start, 0, sum);
    }
  }

  function TotalDamage(amount: int, start: int): nat {
    Sum(Damages(amount, start))
  }

  /** The damage dealt once all values of at least `i` have been dealt. */
  function SumFrom(s: seq<nat>, i: nat): nat {
    if s == [] then 0 else (if s[0] >= i then s[0] else 0) + SumFrom(s[1..], i)
  }

  lemma {:induction false} SumFromConcat(a: seq<nat>, b: seq<nat>, i: nat)
    ensures SumFrom(a + b, i) == SumFrom(a, i) + SumFrom(b, i)
  {
    if a == [] {
      assert a + b == b;
    } else {
      assert (a + b)[1..] == a[1..] + b;
      SumFromConcat(a[1..], b, i);
    }
  }

  lemma {:induction false} SumFromAll(s: seq<nat>, i: nat)
    ensures (forall x :: x in s ==> x >= i) ==> SumFrom(s, i) == Sum(s)
    ensures (forall x :: x in s ==> x < i) ==> SumFrom(s, i) == 0
  {
    if s != [] {
      assert forall x :: x in s[1..] ==> x in s;
      assert s[0] in s;
      SumFromAll(s[1..], i);
    }
  }

  /** The sum is as near to the mark as copies of `i` can bring it, with one copy at least. */
  predicate NearMark(sum: nat, before: nat, i: nat, med: nat) {
    sum > before && 2 * sum + i >= 2 * med && (sum == before + i || 2 * sum < 2 * med + i)
  }

  lemma {:induction false} FromFollows(amount: nat, start: nat, top: nat, sum: nat, i: nat)
    requires 1 <= i <= top <= start
    ensures var list := From(amount, start, top, sum);
            NearMark(sum + SumFrom(list, i), sum + SumFrom(list, i + 1), i, Mark(amount, start, i))
    decreases top
  {
    hide Mark, Copies, From, NearMark, SumFrom, Sum;
    var r := Copies(sum, top, Mark(amount, start, top));
    var rest: seq<nat> := From(amount, start, top - 1, sum + Sum(r));
    FromSplits(amount, start, top, sum, i);
    FromSplits(amount, start, top, sum, i + 1);
    if i == top {
      CopiesNear(sum, top, Mark(amount, start, top));
    } else {
      FromFollows(amount, start, top - 1, sum + Sum(r), i);
    }
  }

  /** The copies of the greatest value come first, and the rest is less. */
  lemma FromSplits(amount: nat, start: nat, top: nat, sum: nat, i: nat)
    requires 1 <= top <= start && 1 <= i <= top + 1
    ensures var r := Copies(sum, top, Mark(amount, start, top));
            var rest: seq<nat> := From(amount, start, top - 1, sum + Sum(r));
            && SumFrom(From(amount, start, top, sum), i) == (if i > top then 0 else Sum(r) + SumFrom(rest, i))
            && (i >= top ==> SumFrom(rest, i) == 0)
  {
    hide Mark, Copies, SumFrom, Sum;
    var r := Copies(sum, top, Mark(amount, start, top));
    var rest: seq<nat> := From(amount, start, top - 1, sum + Sum(r));
    SumFromConcat(r, rest, i);
    FromFalls(amount, start, top - 1, sum + Sum(r));
    forall x | x in r ensures x == top {
    }
    SumFromAll(r, i);
    SumFromAll(rest, i);
  }

  lemma CopiesNear(sum: nat, i: nat, med: nat)
    requires i > 0
    ensures NearMark(sum + Sum(Copies(sum, i, med)), sum, i, med)
  {
    hide Copies, Sum;
    CopiesEnd(sum, i, med);
    SomeCopies(sum, i, med);
  }

  lemma SomeCopies(sum: nat, i: nat, med: nat)
    requires i > 0
    ensures Sum(Copies(sum, i, med)) > 0
  {
    var r := Copies(sum, i, med);
    assert r[0] == i && Sum(r) == r[0] + Sum(r[1..]);
  }

  /** The damage follows the straight line: once all values of at least `i` have been dealt, it is as near to the mark,
      (start + 1 - i) / start of the amount, as the copies of `i` can bring it. */
  lemma DamagesFollow(amount: int, start: int, i: nat)
    requires 1 <= i <= start
    ensures var list := Damages(amount, start);
            NearMark(SumFrom(list, i), SumFrom(list, i + 1), i, Mark(Abs(amount), start, i))
  {
    hide From, Mark, NearMark;
    FromFollows(Abs(amount), start, start, 0, i);
  }

  lemma MarkIs(amount: nat, start: nat, i: nat)
    requires 1 <= i <= start
    ensures Mark(amount, start, i) * start <= (start + 1 - i) * amount < (Mark(amount, start, i) + 1) * start
  {
    var p, q := (start + 1 - i) * amount, Mark(amount, start, i);
    assert q == p / start;
  }

  /** The total is the amount, or 1 + 2 + ... + start if that is more. */
  lemma TotalIs(amount: int, start: int)
    ensures TotalDamage(amount, start) == if start <= 0 then 0 else Max(Abs(amount), Triangle(start))
  {
    hide From, Mark;
    if start > 0 {
      var a := Abs(amount);
      FromLower(a, start, start, 0);
      FromTriangle(a, start, start, 0);
      FromUpper(a, start, start, 0, Max(a, Triangle(start)));
    }
  }

  /** So it is just the amount if and only if 1 + 2 + ... + start is no more than that. */
  lemma TotalExactIff(amount: int, start: int)
    requires start > 0
    ensures TotalDamage(amount, start) == Abs(amount) <==> start * (start + 1) <= 2 * Abs(amount)
  {
    hide TotalDamage;
    TotalIs(amount, start);
    TriangleIs(start);
  }

  /** With a start value beyond that, the total is too much. */
  lemma TooMuch()
    ensures TotalDamage(1, 2) == 3
  {
  }
}
