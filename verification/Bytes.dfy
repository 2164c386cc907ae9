/** Octets, fixed-width integers and C strings, as the two programs lay them out in memory. */
module Bytes {

  /** A C `char` seen as an unsigned octet. */
  type Octet = c: char | c as int < 256 witness '\0'

  const NUL: Octet := '\0'

  function Oct(n: nat): Octet
    requires n < 256
  {
    n as char
  }

  function Zeros(n: nat): (s: seq<Octet>)
    ensures |s| == n && forall i :: 0 <= i < n ==> s[i] == NUL
  {
    seq(n, _ => NUL)
  }

  /** A non-negative `int` in host (little-endian) order. */
  function Le32(n: nat): (s: seq<Octet>)
    requires n < 0x8000_0000
    ensures |s| == 4
  {
    [Oct(n % 256), Oct(n / 256 % 256), Oct(n / 65536 % 256), Oct(n / 16777216)]
  }

  /** Four octets read back as a signed `int` in host order. */
  function LeInt(s: seq<Octet>): int
    requires |s| == 4
  {
    var u := s[0] as int + 256 * s[1] as int + 65536 * s[2] as int + 16777216 * s[3] as int;
    if u < 0x8000_0000 then u else u - 0x1_0000_0000
  }

  /** What is written reads back, and the first octet is the least significant. */
  lemma LeRoundTrip(n: nat)
    requires n < 0x8000_0000
    ensures LeInt(Le32(n)) == n
    ensures var s := Le32(n);
            n == s[0] as int + 256 * s[1] as int + 65536 * s[2] as int + 16777216 * s[3] as int
  {
    var q, q', q'' := n / 256, n / 65536, n / 16777216;
    assert n == 256 * q + n % 256 && q == 256 * q' + q % 256 && q' == 256 * q'' + q' % 256;
  }

  /** The unsigned number in network (big-endian) order. */
  function BeNat(s: seq<Octet>): (n: nat) {
    if s == [] then 0 else 256 * BeNat(s[..|s| - 1]) + s[|s| - 1] as int
  }

  /** A number written in `k` octets in network order. */
  function BeBytes(n: nat, k: nat): (s: seq<Octet>)
    ensures |s| == k
  {
    if k == 0 then [] else BeBytes(n / 256, k - 1) + [Oct(n % 256)]
  }

  function Pow256(k: nat): nat {
    if k == 0 then 1 else 256 * Pow256(k - 1)
  }

  /** Octets and number determine each other. */
  lemma {:induction false} BeRoundTrip(n: nat, s: seq<Octet>)
    ensures n < Pow256(|s|) ==> BeNat(BeBytes(n, |s|)) == n
    ensures BeNat(s) < Pow256(|s|) && BeBytes(BeNat(s), |s|) == s
  {
    if s != [] {
      var front := s[..|s| - 1];
      BeRoundTrip(n / 256, front);
      var text := BeBytes(n, |s|);
      assert text[..|s| - 1] == BeBytes(n / 256, |s| - 1);
      assert BeNat(s) / 256 == BeNat(front) && BeNat(s) % 256 == s[|s| - 1] as int;
      assert s == front + [s[|s| - 1]];
    }
  }

  /** ntohl: the first octet is the most significant. */
  lemma BeNatOfFour(s: seq<Octet>)
    requires |s| == 4
    ensures BeNat(s) == 16777216 * s[0] as int + 65536 * s[1] as int + 256 * s[2] as int + s[3] as int
    ensures BeNat(s) < 0x1_0000_0000
  {
    assert s[..3][..2] == s[..2] && s[..2][..1] == s[..1] && s[..1][..0] == [];
    assert BeNat(s[..3]) == 256 * BeNat(s[..2]) + s[2] as int;
    assert BeNat(s[..2]) == 256 * BeNat(s[..1]) + s[1] as int;
    assert BeNat(s[..1]) == s[0] as int;
  }

  /** ntohs */
  lemma BeNatOfTwo(s: seq<Octet>)
    requires |s| == 2
    ensures BeNat(s) == 256 * s[0] as int + s[1] as int
  {
    assert s[..1][..0] == [];
    assert BeNat(s[..1]) == s[0] as int;
  }

  /** The C string at the start of `s`: everything before the first terminator. */
  function CString(s: seq<Octet>): (r: seq<Octet>)
    ensures r <= s && NUL !in r
    ensures |r| < |s| ==> s[|r|] == NUL
  {
    if s == [] || s[0] == NUL then [] else [s[0]] + CString(s[1..])
  }

  /** Only the octets before the terminator matter: the C string is the longest terminator-free prefix. */
  lemma {:induction false} CStringIs(text: seq<Octet>, rest: seq<Octet>)
    requires NUL !in text && (rest == [] || rest[0] == NUL)
    ensures CString(text + rest) == text
  {
    if text == [] {
      assert text + rest == rest;
    } else {
      assert (text + rest)[1..] == text[1..] + rest;
      CStringIs(text[1..], rest);
    }
  }

  /** A field that ends in a terminator reads the same whatever follows it. */
  lemma CStringOfField(field: seq<Octet>, rest: seq<Octet>)
    ensures CString(field + [NUL] + rest) == CString(field)
  {
    var text := CString(field);
    var tail := field[|text|..] + [NUL] + rest;
    assert field + [NUL] + rest == text + tail;
    assert tail[0] == NUL;
    CStringIs(text, tail);
  }
}
