/** Values that may be absent, and the fixed-width integers the program uses. */
module Wrappers {

  datatype Option<+T> = None | Some(value: T) {
    function GetOr(default: T): T {
      match this
      case Some(v) => v
      case None => default
    }
  }

  function AsSeq<T>(o: Option<T>): seq<T> {
    match o case None => [] case Some(x) => [x]
  }

  lemma Regroup<T>(a: seq<T>, b: seq<T>, c: seq<T>)
    ensures a + b + c == a + (b + c)
  {
  }

  /** The elements of a hash set, in the arbitrary order in which iteration yields them. */
  method Elements<T(==)>(s: set<T>) returns (xs: seq<T>)
    ensures forall x :: x in xs <==> x in s
    ensures forall i, j :: 0 <= i < j < |xs| ==> xs[i] != xs[j]
  {
    var left := s;
    xs := [];
    while left != {}
      invariant left <= s
      invariant forall x :: x in xs <==> x in s && x !in left
      invariant forall i, j :: 0 <= i < j < |xs| ==> xs[i] != xs[j]
      decreases left
    {
      var x :| x in left;
      xs := xs + [x];
      left := left - {x};
    }
  }
}

module Numbers {

  type u8 = x: int | 0 <= x < 0x100
  type u32 = x: int | 0 <= x < 0x1_0000_0000
  type u64 = x: int | 0 <= x < 0x1_0000_0000_0000_0000
  type i64 = x: int | -0x8000_0000_0000_0000 <= x < 0x8000_0000_0000_0000

  const U64_MAX: u64 := 0xffff_ffff_ffff_ffff

  function Max(a: int, b: int): int {
    if a < b then b else a
  }

  function Min(a: int, b: int): int {
    if a < b then a else b
  }

  /** `u64::saturating_sub`. */
  function SaturatingSub(a: u64, b: u64): u64 {
    if b <= a then a - b else 0
  }

  /** `u64::saturating_add`. */
  function SaturatingAdd(a: u64, b: u64): u64 {
    if a + b <= U64_MAX then a + b else U64_MAX
  }

  /** `u64::saturating_mul(2)`. */
  function SaturatingDouble(a: u64): u64 {
    if 2 * a <= U64_MAX then 2 * a else U64_MAX
  }

  /** The cast `as i64`: SQLite stores slots and lamports in signed columns. */
  function AsI64(x: u64): i64 {
    if x < 0x8000_0000_0000_0000 then x else x - 0x1_0000_0000_0000_0000
  }

  /** The cast `as u64`, back from a signed column. */
  function AsU64(x: i64): (u: u64)
    ensures AsI64(u) == x
  {
    if 0 <= x then x else x + 0x1_0000_0000_0000_0000
  }
}
