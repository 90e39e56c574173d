/** Machine integers, saturating arithmetic and the option type shared by every module. */
module Base {

  const U64_MAX: int := 0xffff_ffff_ffff_ffff
  const U32_MAX: int := 0xffff_ffff

  type u64 = x: int | 0 <= x <= U64_MAX
  type u32 = x: int | 0 <= x <= U32_MAX
  type u16 = x: int | 0 <= x <= 0xffff
  type byte = x: int | 0 <= x < 256
  type Bytes = seq<byte>

  datatype Option<+T> = None | Some(value: T)

  function Min(a: int, b: int): int { if a <= b then a else b }

  function Max(a: int, b: int): int { if a <= b then b else a }

  // The elements that satisfy `p`, in order.
  function Filter<T>(s: seq<T>, p: T -> bool): seq<T> {
    if s == [] then [] else (if p(s[0]) then [s[0]] else []) + Filter(s[1..], p)
  }

  lemma {:induction false} FilterConcat<T>(a: seq<T>, b: seq<T>, p: T -> bool)
    ensures Filter(a + b, p) == Filter(a, p) + Filter(b, p)
  {
    if a == [] {
      assert a + b == b;
    } else {
      assert (a + b)[1..] == a[1..] + b;
      FilterConcat(a[1..], b, p);
      var head := if p(a[0]) then [a[0]] else [];
      assert Filter(a + b, p) == head + Filter(a[1..] + b, p);
      assert head + (Filter(a[1..], p) + Filter(b, p)) == (head + Filter(a[1..], p)) + Filter(b, p);
    }
  }

  lemma FilterShort<T>(s: seq<T>, p: T -> bool)
    requires |s| <= 2
    ensures Filter(s, p)
         == (if |s| > 0 && p(s[0]) then [s[0]] else []) + (if |s| > 1 && p(s[1]) then [s[1]] else [])
  {
    if |s| > 0 {
      assert Filter(s[1..], p) == if |s| > 1 && p(s[1]) then [s[1]] else [];
    }
  }

  // How many elements satisfy `p`.
  function Count<T>(s: seq<T>, p: T -> bool): nat {
    if s == [] then 0 else Count(s[..|s| - 1], p) + (if p(s[|s| - 1]) then 1 else 0)
  }

  lemma CountSnoc<T>(s: seq<T>, x: T, p: T -> bool)
    ensures Count(s + [x], p) == Count(s, p) + (if p(x) then 1 else 0)
  {
    assert (s + [x])[..|s|] == s;
  }

  lemma {:induction false} CountUpdate<T>(s: seq<T>, i: nat, x: T, p: T -> bool)
    requires i < |s|
    ensures Count(s[i := x], p) == Count(s, p) - (if p(s[i]) then 1 else 0) + (if p(x) then 1 else 0)
  {
    var last := |s| - 1;
    if i == last {
      assert s[i := x][..last] == s[..last];
    } else {
      CountUpdate(s[..last], i, x, p);
      assert s[i := x][..last] == s[..last][i := x];
    }
  }

  lemma {:induction false} CountMore<T(!new)>(s: seq<T>, p: T -> bool, q: T -> bool)
    requires forall x :: p(x) ==> q(x)
    ensures Count(s, p) <= Count(s, q)
  {
    if s != [] { CountMore(s[..|s| - 1], p, q); }
  }

  lemma SubsetSize<T>(a: set<T>, b: set<T>)
    requires a <= b
    ensures |a| <= |b|
  {
    assert b == a + (b - a);
  }

  // u64::saturating_add.
  function SatAdd(a: u64, b: u64): u64 { Min(a + b, U64_MAX) }

  // u64::saturating_sub.
  function SatSub(a: u64, b: u64): u64 { Max(a - b, 0) }

  // u32::saturating_add.
  function SatAdd32(a: u32, b: u32): u32 { Min(a + b, U32_MAX) }
}
