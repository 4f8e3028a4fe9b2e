/** Fixed-width unsigned integers and the arithmetic the node uses on them.

    The release and bench profiles switch overflow checks on and abort on panic, so a
    plain `+` or `*` that leaves its range ends the process.  Operations
    that can end that way return `None` in this model; `saturating_*` and `checked_*`
    calls are written out with the functions below. */
module MachineInts {

  const U32_MAX: nat := 0xFFFF_FFFF
  const U64_MAX: nat := 0xFFFF_FFFF_FFFF_FFFF
  const U128_MAX: nat := 0xFFFF_FFFF_FFFF_FFFF_FFFF_FFFF_FFFF_FFFF

  type U32 = x: nat | x <= U32_MAX
  type U64 = x: nat | x <= U64_MAX
  type U128 = x: nat | x <= U128_MAX

  datatype Option<+T> = None | Some(value: T)

  function Min(a: int, b: int): int { if a <= b then a else b }

  function Max(a: int, b: int): int { if a <= b then b else a }

  function Count(b: bool): nat { if b then 1 else 0 }

  function SatAdd64(a: nat, b: nat): U64 { Min(a + b, U64_MAX) }

  function SatSub(a: nat, b: nat): nat { Max(a - b, 0) }

  function SatMul64(a: nat, b: nat): U64 { Min(a * b, U64_MAX) }

  function SatMul128(a: nat, b: nat): U128 { Min(a * b, U128_MAX) }

  /** Overflow-checked addition and multiplication on `u64`: `None` is the abort. */
  function Add64(a: nat, b: nat): Option<U64> {
    if a + b <= U64_MAX then Some(a + b) else None
  }

  function Mul64(a: nat, b: nat): Option<U64> {
    if a * b <= U64_MAX then Some(a * b) else None
  }

  /** Floored division, by repeated subtraction so that proofs meet it through its
      defining bounds; `DivIsFloor` says that it is the built-in quotient. */
  function Div(x: nat, d: nat): (q: nat)
    requires d > 0
    ensures q * d <= x < q * d + d
    ensures q <= x
  {
    if x < d then 0 else 1 + Div(x - d, d)
  }

  lemma MulMono(a: nat, b: nat, d: nat)
    requires a <= b
    ensures a * d <= b * d
  {
    assert b * d == a * d + (b - a) * d;
  }

  lemma DivUnique(x: nat, d: nat, q: nat)
    requires d > 0 && q * d <= x < q * d + d
    ensures Div(x, d) == q
  {
    var p := Div(x, d);
    if p < q { NextMultiple(p, q, d); }
    if q < p { NextMultiple(q, p, d); }
  }

  lemma NextMultiple(p: nat, q: nat, d: nat)
    requires p < q
    ensures p * d + d <= q * d
  {
    MulMono(p + 1, q, d);
    assert (p + 1) * d == p * d + d;
  }

  lemma DivAtLeast(x: nat, d: nat, q: nat)
    requires d > 0 && q * d <= x
    ensures Div(x, d) >= q
  {
    if Div(x, d) < q {
      MulMono(Div(x, d) + 1, q, d);
      assert false;
    }
  }

  lemma DivAtMost(x: nat, d: nat, q: nat)
    requires d > 0 && x <= q * d
    ensures Div(x, d) <= q
  {
    if Div(x, d) > q {
      MulMono(q + 1, Div(x, d), d);
      assert false;
    }
  }

  lemma DivMono(x: nat, y: nat, d: nat)
    requires d > 0 && x <= y
    ensures Div(x, d) <= Div(y, d)
  {
    DivAtLeast(y, d, Div(x, d));
  }

  lemma MulCancel(a: nat, b: nat, d: nat)
    requires d > 0 && a * d <= b * d
    ensures a <= b
  {
    if a > b {
      MulMono(b + 1, a, d);
      assert false;
    }
  }

  lemma MulSub(a: nat, b: nat, d: nat)
    requires b <= a
    ensures (a - b) * d == a * d - b * d
  {
  }

  lemma MulAdd(a: nat, b: nat, d: nat)
    ensures (a + b) * d == a * d + b * d
  {
  }

  lemma DivIsFloor(x: nat, d: nat)
    requires d > 0
    ensures Div(x, d) == x / d
  {
    assert x == (x / d) * d + x % d;
    DivUnique(x, d, x / d);
  }

  /** The value stored under a key, or zero, as `get(k).copied().unwrap_or(0)`. */
  function Get<K>(m: map<K, nat>, k: K): nat { if k in m then m[k] else 0 }

  function Put<K>(m: map<K, nat>, k: K, v: nat): map<K, nat> { m[k := v] }
}
