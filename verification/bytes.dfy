/** Bytes, 32-bit unsigned integers and their little-endian form.
    Both the mesh builder and the engine run on little-endian x86, so every
    `uint32_t` the builder writes with `fwrite` and the engine reads back by
    reinterpreting memory is four bytes, least significant first. */
module Bytes {

  datatype Option<T> = None | Some(value: T)

  type Byte = b: int | 0 <= b < 0x100

  /** `uint32_t`. */
  type U32 = n: int | 0 <= n < 0x1_0000_0000

  const U32Limit: int := 0x1_0000_0000

  /** The C conversion of any integer to `uint32_t` (reduction modulo 2^32). */
  function ToU32(i: int): (n: U32)
    ensures 0 <= i < U32Limit ==> n == i
    ensures (n - i) % U32Limit == 0
  {
    i % U32Limit
  }

  /** The four bytes of `n` in memory order. */
  function U32ToLe(n: U32): (s: seq<Byte>)
    ensures |s| == 4
  {
    var q1 := n / 0x100;
    var q2 := q1 / 0x100;
    [n % 0x100, q1 % 0x100, q2 % 0x100, q2 / 0x100]
  }

  /** The `uint32_t` whose memory form is `s`. */
  function LeToU32(s: seq<Byte>): (n: U32)
    requires |s| == 4
  {
    s[0] as int + 0x100 * (s[1] as int + 0x100 * (s[2] as int + 0x100 * s[3] as int))
  }

  lemma U32RoundTrip(n: U32)
    ensures LeToU32(U32ToLe(n)) == n
  {
    var q1 := n / 0x100;
    var q2 := q1 / 0x100;
    assert n == n % 0x100 + 0x100 * q1;
    assert q1 == q1 % 0x100 + 0x100 * q2;
    assert q2 == q2 % 0x100 + 0x100 * (q2 / 0x100);
  }

  lemma LeRoundTrip(s: seq<Byte>)
    requires |s| == 4
    ensures U32ToLe(LeToU32(s)) == s
  {
    var q2: int := s[2] as int + 0x100 * s[3] as int;
    var q1: int := s[1] as int + 0x100 * q2;
    var n: int := s[0] as int + 0x100 * q1;
    assert n == LeToU32(s);
    assert n % 0x100 == s[0] && n / 0x100 == q1;
    assert q1 % 0x100 == s[1] && q1 / 0x100 == q2;
    assert q2 % 0x100 == s[2] && q2 / 0x100 == s[3];
  }

  /** A sequence of `uint32_t` laid out back to back, as `fwrite` of a
      `uint32_t` array writes it. */
  function U32sToLe(xs: seq<U32>): (s: seq<Byte>)
    ensures |s| == 4 * |xs|
  {
    if xs == [] then [] else U32ToLe(xs[0]) + U32sToLe(xs[1..])
  }

  /** The `uint32_t` array that a byte range reinterprets as. */
  function LeToU32s(s: seq<Byte>): (xs: seq<U32>)
    requires |s| % 4 == 0
    ensures 4 * |xs| == |s|
  {
    if s == [] then [] else [LeToU32(s[..4])] + LeToU32s(s[4..])
  }

  lemma {:induction false} U32sRoundTrip(xs: seq<U32>)
    ensures LeToU32s(U32sToLe(xs)) == xs
  {
    if xs != [] {
      var s := U32sToLe(xs);
      assert s[..4] == U32ToLe(xs[0]);
      assert s[4..] == U32sToLe(xs[1..]);
      U32RoundTrip(xs[0]);
      U32sRoundTrip(xs[1..]);
    }
  }

  lemma FourDividesRest(n: nat)
    requires n % 4 == 0 && n >= 4
    ensures (n - 4) % 4 == 0
  {
  }

  /** Element `k` of the reinterpreted array is read from bytes `4k .. 4k+3`. */
  lemma {:induction false} LeToU32sAt(s: seq<Byte>, k: nat)
    requires |s| % 4 == 0 && 4 * k + 4 <= |s|
    ensures LeToU32s(s)[k] == LeToU32(s[4 * k .. 4 * k + 4])
  {
    if k > 0 {
      var rest := s[4..];
      assert |rest| % 4 == 0 by { FourDividesRest(|s|); }
      assert LeToU32s(s) == [LeToU32(s[..4])] + LeToU32s(rest);
      LeToU32sAt(rest, k - 1);
      assert rest[4 * (k - 1) .. 4 * (k - 1) + 4] == s[4 * k .. 4 * k + 4];
    }
  }
}
