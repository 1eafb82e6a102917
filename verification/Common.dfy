/** Shared result types. */
module Common {
  datatype Option<+T> = None | Some(value: T)

  datatype Result<+T, +E> = Ok(value: T) | Err(error: E)

  /** The error classes of src/error.rs that the modelled operations return. */
  datatype Error = Validation | Unauthorized | Conflict | NotFound | Internal

  function Min(a: int, b: int): (m: int)
    ensures m <= a && m <= b && (m == a || m == b)
  {
    if a <= b then a else b
  }

  /** Rust's `clamp`. */
  function Clamp(x: int, lo: int, hi: int): (c: int)
    requires lo <= hi
    ensures lo <= c <= hi && (lo <= x <= hi ==> c == x) && (x < lo ==> c == lo) && (x > hi ==> c == hi)
  {
    if x < lo then lo else if x > hi then hi else x
  }

  /** `j * x`, added up. */
  function Times(j: nat, x: nat): (p: nat)
    ensures j > 0 ==> p >= x
  {
    if j == 0 then 0 else Times(j - 1, x) + x
  }

  lemma {:induction false} TimesIsProduct(j: nat, x: nat)
    ensures Times(j, x) == j * x
  {
    if j > 0 {
      TimesIsProduct(j - 1, x);
    }
  }

  lemma {:induction false} SubsetSize<T>(a: set<T>, b: set<T>)
    requires a <= b
    ensures |a| <= |b|
    ensures a != b ==> |a| < |b|
  {
    assert b == a + (b - a);
    if a != b {
      var x :| x in b - a;
    }
  }
}
