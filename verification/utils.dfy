/** Byte helpers of the contract (src/core/utils.rs): the placeholder
    hashing, the attestation and signature stubs, and the little-endian
    encoding of an integer that the execution reconciler builds challenge
    data from. */
module Utils {
  import opened Types

  /** UTF-8 encoding of one Unicode scalar value, as `str::as_bytes` yields it. */
  function EncodeChar(c: char): (b: Bytes)
    ensures 1 <= |b| <= 4
    ensures |b| == 1 <==> (c as int) < 0x80
    ensures |b| == 1 ==> b[0] as int == c as int
    ensures 0x80 <= b[0] as int ==> |b| > 1
  {
    var n := c as int;
    if n < 0x80 then
      [n as byte]
    else if n < 0x800 then
      [(0xC0 + n / 0x40) as byte, (0x80 + n % 0x40) as byte]
    else if n < 0x1_0000 then
      [(0xE0 + n / 0x1000) as byte, (0x80 + (n / 0x40) % 0x40) as byte,
       (0x80 + n % 0x40) as byte]
    else
      [(0xF0 + n / 0x4_0000) as byte, (0x80 + (n / 0x1000) % 0x40) as byte,
       (0x80 + (n / 0x40) % 0x40) as byte, (0x80 + n % 0x40) as byte]
  }

  /** The bytes of a Rust `String`: its UTF-8 encoding. */
  function Utf8(s: string): Bytes {
    if s == [] then [] else EncodeChar(s[0]) + Utf8(s[1..])
  }

  /** A string of `n` characters takes between `n` and `4n` bytes, and
      exactly `n` when every character is ASCII. */
  lemma {:induction false} Utf8Length(s: string)
    ensures |s| <= |Utf8(s)| <= 4 * |s|
    ensures (forall i :: 0 <= i < |s| ==> (s[i] as int) < 0x80) ==> |Utf8(s)| == |s|
  {
    if s != [] {
      Utf8Length(s[1..]);
      assert forall i :: 0 <= i < |s[1..]| ==> s[1..][i] == s[i + 1];
    }
  }

  /** Encoding distributes over concatenation. */
  lemma {:induction false} Utf8Append(a: string, b: string)
    ensures Utf8(a + b) == Utf8(a) + Utf8(b)
  {
    if a == [] {
      assert a + b == b;
    } else {
      assert (a + b)[0] == a[0];
      assert (a + b)[1..] == a[1..] + b;
      Utf8Append(a[1..], b);
    }
  }

  /** `hash_incremental`: the previous hash extended with the bytes of the
      operator address. */
  function HashIncremental(previous: Bytes, operator: string): (h: Bytes)
    ensures |h| == |previous| + |Utf8(operator)|
    ensures h[..|previous|] == previous
    ensures h[|previous|..] == Utf8(operator)
  {
    previous + Utf8(operator)
  }

  /** Extending twice is extending once with the two addresses joined: the
      incremental hash of a sequence of operators does not depend on how
      the sequence is split into steps. */
  lemma HashIncrementalChains(h: Bytes, a: string, b: string)
    ensures HashIncremental(HashIncremental(h, a), b) == HashIncremental(h, a + b)
  {
    Utf8Append(a, b);
    assert (h + Utf8(a)) + Utf8(b) == h + (Utf8(a) + Utf8(b));
  }

  /** `hash_message`: the placeholder hash returns its input unchanged. */
  function HashMessage(message: Bytes): (h: Bytes)
    ensures h == message
  {
    message
  }

  /** `verify_attestation_report` as shipped: it accepts every report. The
      entrypoints take the oracle as a parameter; this is one instance. */
  function StubAttestation(): (oracle: AttestationOracle)
    ensures forall report, signature :: oracle(report, signature)
  {
    (report: Bytes, signature: Bytes) => true
  }

  /** `verify_signature` as shipped: it accepts every signature. */
  function StubSignature(): (oracle: SignatureOracle)
    ensures forall hash, signature, signer :: oracle(hash, signature, signer)
  {
    (hash: Bytes, signature: Bytes, signer: string) => true
  }

  function Pow256(w: nat): (p: nat)
    ensures p >= 1
  {
    if w == 0 then 1 else 256 * Pow256(w - 1)
  }

  /** `n.to_le_bytes()` for a `w`-byte unsigned integer. */
  function LeBytes(n: nat, w: nat): (b: Bytes)
    requires n < Pow256(w)
    ensures |b| == w
  {
    if w == 0 then [] else [(n % 256) as byte] + LeBytes(n / 256, w - 1)
  }

  /** The value of a little-endian byte string. */
  function FromLeBytes(b: Bytes): nat {
    if b == [] then 0 else b[0] as nat + 256 * FromLeBytes(b[1..])
  }

  /** Decoding inverts encoding, so the encoding is injective. */
  lemma {:induction false} LeBytesRoundTrip(n: nat, w: nat)
    requires n < Pow256(w)
    ensures FromLeBytes(LeBytes(n, w)) == n
  {
    if w > 0 {
      var b := LeBytes(n, w);
      LeBytesRoundTrip(n / 256, w - 1);
      assert b[1..] == LeBytes(n / 256, w - 1);
    }
  }

  /** `u128::to_le_bytes`. */
  function Le16(n: U128): (b: Bytes)
    ensures |b| == 16
    ensures FromLeBytes(b) == n
  {
    assert Pow256(16) == U128_LIMIT by {
      assert Pow256(0) == 1;
      assert Pow256(1) == 256;
      assert Pow256(2) == 65536;
      assert Pow256(3) == 16777216;
      assert Pow256(4) == 4294967296;
      assert Pow256(5) == 1099511627776;
      assert Pow256(6) == 281474976710656;
      assert Pow256(7) == 72057594037927936;
      assert Pow256(8) == 18446744073709551616;
      assert Pow256(9) == 4722366482869645213696;
      assert Pow256(10) == 1208925819614629174706176;
      assert Pow256(11) == 309485009821345068724781056;
      assert Pow256(12) == 79228162514264337593543950336;
      assert Pow256(13) == 20282409603651670423947251286016;
      assert Pow256(14) == 5192296858534827628530496329220096;
      assert Pow256(15) == 1329227995784915872903807060280344576;
      assert Pow256(16) == 340282366920938463463374607431768211456;
    }
    LeBytesRoundTrip(n, 16);
    LeBytes(n, 16)
  }
}
