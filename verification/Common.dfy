/** Types shared by every component. */
module Common {
  datatype Option<+T> = None | Some(value: T) {
    function GetOr(default: T): T {
      if Some? then value else default
    }
  }

  datatype Result<+T> = Ok(value: T) | Err(error: string)

  newtype byte = x: int | 0 <= x < 256

  const TWO_64: int := 0x1_0000_0000_0000_0000

  /** An unsigned 64-bit value (`uint64_t`). */
  type u64 = x: int | 0 <= x < 0x1_0000_0000_0000_0000

  /** `int16_t` and `int64_t`. */
  type i16 = x: int | -0x8000 <= x < 0x8000
  type i64 = x: int | -0x8000_0000_0000_0000 <= x < 0x8000_0000_0000_0000

  /** An Ed25519 public key; the hive's nodes are listed under theirs. */
  type Key = seq<byte>

  function Min(a: int, b: int): int {
    if a <= b then a else b
  }

  /** The sum of a measure over a list. */
  function Sum<T>(xs: seq<T>, f: T -> nat): nat {
    if xs == [] then 0 else Sum(xs[..|xs| - 1], f) + f(xs[|xs| - 1])
  }

  lemma {:induction false} SumUpdate<T>(xs: seq<T>, f: T -> nat, i: nat, x: T)
    requires i < |xs|
    ensures Sum(xs[i := x], f) == Sum(xs, f) - f(xs[i]) + f(x)
  {
    var last := |xs| - 1;
    if i == last {
      assert xs[i := x][..last] == xs[..last];
    } else {
      SumUpdate(xs[..last], f, i, x);
      assert xs[i := x][..last] == xs[..last][i := x];
    }
  }

  lemma {:induction false} SumMono<T>(xs: seq<T>, f: T -> nat, g: T -> nat)
    requires forall x :: f(x) <= g(x)
    ensures Sum(xs, f) <= Sum(xs, g)
  {
    if xs != [] {
      SumMono(xs[..|xs| - 1], f, g);
    }
  }
}
