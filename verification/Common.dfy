/** What several modules share. */
module Common {
  datatype Option<T> = None | Some(value: T)

  function Bit(b: bool): nat {
    if b then 1 else 0
  }

  function RemoveAt<T>(s: seq<T>, k: nat): (r: seq<T>)
    requires k < |s|
    ensures |r| == |s| - 1
    ensures forall i :: 0 <= i < |r| ==> r[i] == s[if i < k then i else i + 1]
  {
    s[..k] + s[k + 1..]
  }
}

/** Multiplication and division by a positive number. */
module Arithmetic {
  lemma MulAtLeast(q: nat, b: nat)
    requires b >= 1
    ensures q <= q * b
  {
    assert q * b == q + q * (b - 1);
  }

  lemma MulGrows(t: nat, q: nat, b: nat)
    requires b >= 1 && t < q
    ensures t * b + b <= q * b
  {
    assert q * b == t * b + b + (q - t - 1) * b;
  }

  lemma DivUnique(n: nat, q: nat, r: nat, b: nat)
    requires b >= 1 && n == q * b + r && r < b
    ensures n / b == q && n % b == r
  {
    var p := n / b;
    assert n == p * b + n % b;
    if p < q { MulGrows(p, q, b); }
    if q < p { MulGrows(q, p, b); }
  }

  /** Whole multiples pass through division. */
  lemma AddMultiple(q: nat, h: nat, b: nat)
    requires b >= 1
    ensures (q * b + h) / b == q + h / b && (q * b + h) % b == h % b
  {
    assert h == h / b * b + h % b;
    assert (q + h / b) * b == q * b + h / b * b;
    DivUnique(q * b + h, q + h / b, h % b, b);
  }

  /** Division of a sum: the remainder of the first part is carried over. */
  lemma FloorSplits(n: nat, len: nat, b: nat)
    requires b >= 1
    ensures (n + len) / b == n / b + (len + n % b) / b
  {
    assert n == n / b * b + n % b;
    AddMultiple(n / b, n % b + len, b);
  }
}
