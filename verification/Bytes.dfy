// Bytes, checksums and the option type shared by every other module.

module Bytes {

  type byte = bv8

  datatype Option<+T> = None | Some(value: T)

  /** The frame delimiter. */
  const START: byte := 0xFF

  /** Exclusive-or of all bytes, folded from the left as the checksum loops do. */
  function Xor(s: seq<byte>): byte {
    if s == [] then 0 else Xor(s[..|s| - 1]) ^ s[|s| - 1]
  }

  lemma XorSnoc(s: seq<byte>, b: byte)
    ensures Xor(s + [b]) == Xor(s) ^ b
  {
    assert (s + [b])[..|s|] == s;
  }

  lemma XorOfThree(a: byte, b: byte, c: byte)
    ensures Xor([a, b, c]) == a ^ b ^ c
  {
    XorSnoc([], a);
    XorSnoc([a], b);
    XorSnoc([a, b], c);
    assert [a] == [] + [a] && [a, b] == [a] + [b] && [a, b, c] == [a, b] + [c];
  }

  lemma {:induction false} XorAppend(a: seq<byte>, b: seq<byte>)
    ensures Xor(a + b) == Xor(a) ^ Xor(b)
  {
    if b == [] {
      assert a + b == a;
    } else {
      XorAppend(a, b[..|b| - 1]);
      assert (a + b)[..|a + b| - 1] == a + b[..|b| - 1];
    }
  }

  /** The checksum loop of the frame builder and of the deframer. */
  method Checksum(data: seq<byte>) returns (checksum: byte)
    ensures checksum == Xor(data)
  {
    checksum := 0;
    for i := 0 to |data|
      invariant checksum == Xor(data[..i])
    {
      assert data[..i + 1][..i] == data[..i];
      checksum := checksum ^ data[i];
    }
    assert data[..|data|] == data;
  }

  /** `n` copies of `x`. */
  function Repeat<T>(x: T, n: nat): (s: seq<T>)
    ensures |s| == n && forall i :: 0 <= i < n ==> s[i] == x
  {
    seq(n, _ => x)
  }
}
