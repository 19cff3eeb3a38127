/** Shared wrappers and the 64-bit arithmetic the builder uses. */
module Prelude {

  datatype Option<+T> = None | Some(value: T) {
    function GetOr(default: T): T {
      if Some? then value else default
    }
  }

  function Get<K, V>(m: map<K, V>, k: K): Option<V> {
    if k in m then Some(m[k]) else None
  }

  lemma SameMaps<K(!new), V(!new)>(m: map<K, V>, n: map<K, V>)
    requires forall k :: Get(m, k) == Get(n, k)
    ensures m == n
  {
    assert forall k :: (k in m <==> k in n) && (k in m ==> m[k] == n[k]) by {
      forall k ensures (k in m <==> k in n) && (k in m ==> m[k] == n[k]) {
        assert Get(m, k) == Get(n, k);
      }
    }
  }

  const U64_MAX: nat := 0xFFFF_FFFF_FFFF_FFFF

  function Min(a: nat, b: nat): nat {
    if a <= b then a else b
  }

  function Max(a: nat, b: nat): nat {
    if a >= b then a else b
  }

  /** `saturating_sub` */
  function SatSub(a: nat, b: nat): nat {
    if b <= a then a - b else 0
  }

  /** `saturating_add` on u64 */
  function SatAdd(a: nat, b: nat): nat {
    Min(a + b, U64_MAX)
  }

  /** `saturating_mul` on u64 */
  function SatMul(a: nat, b: nat): nat {
    Min(a * b, U64_MAX)
  }

  /** Plain `+` on u64: the release profiles do not enable overflow checks, so it wraps. */
  function WrapAdd(a: nat, b: nat): nat {
    if a + b <= U64_MAX then a + b else (a + b) % (U64_MAX + 1)
  }

  /** Plain `*` on u64, wrapping for the same reason. */
  function WrapMul(a: nat, b: nat): nat {
    if a * b <= U64_MAX then a * b else (a * b) % (U64_MAX + 1)
  }

  lemma WrapsOnce(a: nat, b: nat)
    requires a <= U64_MAX && b <= U64_MAX && a + b > U64_MAX
    ensures WrapAdd(a, b) == a + b - (U64_MAX + 1)
  {
  }

  /** `s[k..]`, empty when k is out of range. */
  function From<T>(s: seq<T>, k: nat): seq<T> {
    if k <= |s| then s[k..] else []
  }

  lemma TailOfPrefix<T>(s: seq<T>, n: nat)
    requires 0 < n <= |s|
    ensures s[..n][0] == s[0] && s[..n][1..] == s[1..][..n - 1]
  {
  }

  lemma ConcatAssociates<T>(a: seq<T>, b: seq<T>, c: seq<T>)
    ensures a + (b + c) == a + b + c
  {
  }

  lemma MulLe(a: nat, b: nat, k: nat)
    requires a <= b
    ensures a * k <= b * k
  {
  }

  lemma MulSucc(n: nat, k: nat)
    ensures (n + 1) * k == n * k + k
  {
  }
}
