/** Small value types shared by every module of the model. */
module Wrappers {

  datatype Option<T> = None | Some(value: T)
  {
    predicate IsSome() { this.Some? }

    function GetOr(default: T): T
    {
      match this
      case Some(v) => v
      case None => default
    }
  }

  /** The error codes of `hermes::Result` this model produces. */
  datatype HeError = Error | OutOfBounds | NotImplemented

  /** `hermes::Result<T>`: a value, or the status code of a failure. */
  datatype HeResult<T> = Ok(value: T) | Err(status: HeError)

  /** `circe::Color`: red, green, blue and alpha. */
  datatype Color = Color(r: real, g: real, b: real, a: real)

  /** A Vulkan (or GL) object handle; `NullHandle` is `VK_NULL_HANDLE`. */
  datatype VkHandle = NullHandle | Live(id: nat)

  /** 2^32: C++ `u32`/`GLuint` arithmetic wraps modulo this value. */
  const U32_MODULUS: nat := 0x1_0000_0000
  /** 2^64: `size_t` arithmetic wraps modulo this value. */
  const U64_MODULUS: nat := 0x1_0000_0000_0000_0000
  /** `~0u`, the largest `u32`. */
  const U32_MAX: nat := 0xFFFF_FFFF

  predicate IsU32(x: int) { 0 <= x < U32_MODULUS }

  /** Unsigned 32-bit subtraction, as C++ computes `a - b` on `u32` operands. */
  function SubU32(a: nat, b: nat): (r: nat)
    requires IsU32(a) && IsU32(b)
    ensures IsU32(r)
    ensures a >= b ==> r == a - b
    ensures a < b ==> r == U32_MODULUS + a - b
  {
    (a - b) % U32_MODULUS
  }

  /** Unsigned 64-bit subtraction (`size_t`). */
  function SubU64(a: nat, b: nat): (r: nat)
    requires a < U64_MODULUS && b < U64_MODULUS
    ensures r < U64_MODULUS
    ensures a >= b ==> r == a - b
    ensures a < b ==> r == U64_MODULUS + a - b
  {
    (a - b) % U64_MODULUS
  }

  /** Sum of a sequence of naturals. */
  function Sum(s: seq<nat>): nat
  {
    if s == [] then 0 else Sum(s[..|s| - 1]) + s[|s| - 1]
  }

  lemma SumAppend(s: seq<nat>, x: nat)
    ensures Sum(s + [x]) == Sum(s) + x
  {
    assert (s + [x])[..|s + [x]| - 1] == s;
  }

  lemma MulAtLeast(e: int, d: nat)
    requires e >= 1
    ensures e * d >= d
  {
  }

  lemma MulSucc(n: nat, s: nat)
    ensures (n + 1) * s == n * s + s
  {
  }

  lemma MulMono(a: nat, b: nat, c: nat)
    requires a <= b
    ensures a * c <= b * c
  {
    MulSucc(0, 0);
    var e := b - a;
    assert b * c == a * c + e * c;
  }

  /** Euclidean division is unique: a quotient and remainder that rebuild `k` are `k / d` and `k % d`. */
  lemma DivModUnique(k: nat, d: nat, q: nat, r: nat)
    requires d > 0 && r < d && k == q * d + r
    ensures k / d == q && k % d == r
  {
    var q', r' := k / d, k % d;
    assert k == q' * d + r';
    if q > q' {
      MulAtLeast(q - q', d);
    } else if q < q' {
      MulAtLeast(q' - q, d);
    }
  }
}
