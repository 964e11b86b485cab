/** Small notions shared by the whole model. */
module Basics {

  datatype Option<+T> = None | Some(value: T)

  function Max(a: int, b: int): int {
    if a > b then a else b
  }

  function Min(a: int, b: int): int {
    if a < b then a else b
  }

  function Distance(a: int, b: int): nat {
    if a < b then b - a else a - b
  }

  function Pow(b: nat, e: nat): nat {
    if e == 0 then 1 else b * Pow(b, e - 1)
  }

  lemma MulLess(a: int, b: int, n: nat)
    requires a * n < b * n
    ensures a < b
  {
    assert (b - a) * n > 0;
  }

  lemma DivGe(x: nat, q: nat, n: nat)
    requires n > 0 && q * n <= x
    ensures q <= x / n
  {
    assert x < (x / n + 1) * n;
    MulLess(q, x / n + 1, n);
  }

  /** Some member of a set, such as the next key of a map being ranged over. */
  method Pick<T(==)>(s: set<T>) returns (x: T)
    requires s != {}
    ensures x in s
  {
    x :| x in s;
  }
}
