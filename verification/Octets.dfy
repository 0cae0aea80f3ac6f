/** Machine integers as bounded mathematical integers, and byte strings. */
module Octets {

  type u8 = x: int | 0 <= x < 0x100
  type u16 = x: int | 0 <= x < 0x1_0000
  type u32 = x: int | 0 <= x < 0x1_0000_0000
  type u64 = x: int | 0 <= x < 0x1_0000_0000_0000_0000
  type i32 = x: int | -0x8000_0000 <= x < 0x8000_0000

  type Bytes = seq<u8>

  const U8_MAX := 0xff
  const U16_MAX := 0xffff
  const U64_MAX := 0xffff_ffff_ffff_ffff

  lemma Distribute(a: nat, x: nat, y: nat)
    ensures a * (x + y) == a * x + a * y
  {
  }

  lemma Regroup(a: nat, b: nat, c: nat)
    ensures a * (b * c) == (a * b) * c
  {
  }

  lemma AtLeastOnce(d: nat, k: nat)
    requires k > 0
    ensures d * k >= d
  {
    Distribute(d, k - 1, 1);
  }

  lemma NextMultiple(d: nat, x: nat, y: nat)
    requires x < y
    ensures d * x + d <= d * y
  {
    Distribute(d, x, y - x);
    AtLeastOnce(d, y - x);
  }

  lemma DivisionOf(n: nat, d: nat)
    requires d > 0
    ensures n == d * (n / d) + n % d && n % d < d
  {
  }

  lemma TwoDivisions(n: nat, a: nat, b: nat, q: nat, r: nat, k: nat, s: nat)
    requires n == a * q + r && r < a && q == b * k + s && s < b
    ensures n == (a * b) * k + (a * s + r) && a * s + r < a * b
  {
    Distribute(a, b * k, s);
    Regroup(a, b, k);
    NextMultiple(a, s, b);
  }

  /** Dividing by a product is dividing twice. */
  lemma DivideTwice(n: nat, a: nat, b: nat)
    requires a > 0 && b > 0
    ensures a * b > 0 && n / a / b == n / (a * b)
  {
    DivisionOf(n, a);
    DivisionOf(n / a, b);
    AtLeastOnce(a, b);
    TwoDivisions(n, a, b, n / a, n % a, n / a / b, n / a % b);
    QuotientIs(n, a * b, n / a / b, a * (n / a % b) + n % a);
  }

  lemma QuotientIs(n: nat, d: nat, k: nat, r: nat)
    requires d > 0 && r < d && n == d * k + r
    ensures n / d == k
  {
    var q := n / d;
    if q < k {
      NextMultiple(d, q, k);
      assert false;
    } else if q > k {
      NextMultiple(d, k, q);
      assert false;
    }
  }

  /** Where the middle of three parts is found. */
  lemma Middle<T>(a: seq<T>, b: seq<T>, c: seq<T>)
    ensures (a + b + c)[|a|..|a| + |b|] == b && (a + b + c)[|a| + |b|..] == c
  {
  }

  /** A part of a part. */
  lemma PartOfPart<T>(s: seq<T>, from: nat, part: seq<T>, a: nat, b: nat)
    requires from + |part| <= |s| && s[from..from + |part|] == part && a <= b <= |part|
    ensures s[from + a..from + b] == part[a..b]
    ensures a < |part| ==> s[from + a] == part[a]
  {
    assert forall i :: 0 <= i < |part| ==> part[i] == s[from + i];
  }

  lemma ConcatAssoc<T>(a: seq<T>, b: seq<T>, c: seq<T>)
    ensures (a + b) + c == a + (b + c)
  {
  }

  /** A non-empty list in front of another one: its head, then its tail in front. */
  lemma ConcatHeadTail<T>(left: seq<T>, right: seq<T>)
    requires left != []
    ensures (left + right)[0] == left[0] && (left + right)[1..] == left[1..] + right
  {
  }

  function Flatten<T>(parts: seq<seq<T>>): seq<T> {
    if parts == [] then [] else parts[0] + Flatten(parts[1..])
  }

  lemma {:induction false} FlattenConcat<T>(left: seq<seq<T>>, right: seq<seq<T>>)
    ensures Flatten(left + right) == Flatten(left) + Flatten(right)
  {
    if left == [] {
      assert left + right == right;
    } else {
      FlattenConcat(left[1..], right);
      ConcatHeadTail(left, right);
      ConcatAssoc(left[0], Flatten(left[1..]), Flatten(right));
    }
  }

  lemma FlattenOne<T>(part: seq<T>)
    ensures Flatten([part]) == part
  {
    assert [part][1..] == [];
  }
}
