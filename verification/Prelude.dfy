/** Shared value types: optional values, and Go's fixed-width integers. */
module Prelude {

  datatype Option<+T> = None | Some(value: T)

  const TWO_31: int := 0x8000_0000
  const TWO_32: int := 0x1_0000_0000
  const TWO_63: int := 0x8000_0000_0000_0000
  const TWO_64: int := 0x1_0000_0000_0000_0000

  predicate IsInt32(x: int) {
    -TWO_31 <= x < TWO_31
  }

  predicate IsInt64(x: int) {
    -TWO_63 <= x < TWO_63
  }

  type Int32 = x: int | IsInt32(x)

  /** Go's conversion int32(x): the value congruent to x modulo 2^32. */
  function ToInt32(x: int): (r: int)
    ensures IsInt32(r)
    ensures (x - r) % TWO_32 == 0
    ensures IsInt32(x) ==> r == x
  {
    (x + TWO_31) % TWO_32 - TWO_31
  }

  /** The result of an int64 operation whose exact value is x. */
  function ToInt64(x: int): (r: int)
    ensures IsInt64(r)
    ensures (x - r) % TWO_64 == 0
    ensures IsInt64(x) ==> r == x
  {
    (x + TWO_63) % TWO_64 - TWO_63
  }

  /** Go's integer division, which truncates toward zero. */
  function TruncDiv(a: int, b: int): int
    requires b > 0
  {
    if a >= 0 then a / b else -((-a) / b)
  }

  function Min(a: int, b: int): int {
    if a <= b then a else b
  }

  function Max(a: int, b: int): int {
    if a <= b then b else a
  }

  /** s without the element at position k. */
  function Without<T>(s: seq<T>, k: nat): seq<T>
    requires k < |s|
  {
    s[..k] + s[k + 1..]
  }

  lemma WithoutMultiset<T>(s: seq<T>, k: nat)
    requires k < |s|
    ensures multiset(s) == multiset(Without(s, k)) + multiset{s[k]}
  {
    assert s == s[..k] + [s[k]] + s[k + 1..];
  }

  lemma BagWithout<T>(part: multiset<T>, whole: multiset<T>, partLeft: multiset<T>, wholeLeft: multiset<T>, x: T)
    requires part == partLeft + multiset{x} && whole == wholeLeft + multiset{x} && part <= whole
    ensures partLeft <= wholeLeft <= whole
  {
    forall y
      ensures partLeft[y] <= wholeLeft[y] <= whole[y]
    {
      assert part[y] <= whole[y];
    }
  }

  /** Taking one common element out of both keeps a part a part. */
  lemma PartWithout<T>(part: seq<T>, whole: seq<T>, k: nat)
    requires part != [] && k < |whole| && whole[k] == part[0]
    requires multiset(part) <= multiset(whole)
    ensures multiset(Without(part, 0)) <= multiset(Without(whole, k)) <= multiset(whole)
  {
    hide Without;
    WithoutMultiset(part, 0);
    WithoutMultiset(whole, k);
    BagWithout(multiset(part), multiset(whole), multiset(Without(part, 0)), multiset(Without(whole, k)), part[0]);
  }

  lemma MiddleOut<T>(a: seq<T>, middle: seq<T>, b: seq<T>)
    ensures multiset(a + middle + b) == multiset(a + b) + multiset(middle)
  {
  }
}
