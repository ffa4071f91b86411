/** Public keys and Schnorr signatures on secp256k1, with their byte forms. The curve equation itself is abstract. */
module Keys {
  import opened FixedWidth
  import opened Integers
  import opened Wrappers

  const FIELD_PRIME: nat := 0xffff_ffff_ffff_ffff_ffff_ffff_ffff_ffff_ffff_ffff_ffff_ffff_ffff_fffe_ffff_fc2f
  const GROUP_ORDER: nat := 0xffff_ffff_ffff_ffff_ffff_ffff_ffff_fffe_baae_dce6_af48_a03b_bfd2_5e8c_d036_4141

  type FieldElement = x: nat | x < FIELD_PRIME
  type Scalar = x: nat | x < GROUP_ORDER

  /** A point of the curve, given by its abscissa and the parity of its ordinate. */
  datatype PubKey = PubKey(x: FieldElement, odd: bool)

  datatype Signature = Signature(r: FieldElement, s: Scalar)

  /** Which abscissas carry a point, and which pairs are points. */
  datatype Curve = Curve(hasPoint: nat -> bool, isPoint: (nat, nat) -> bool)

  function SerializeCompressed(key: PubKey): (b: bytes)
    ensures |b| == 33
  {
    [if key.odd then 0x03 else 0x02] + BigEndian(key.x, 32)
  }

  /** The compressed form, the uncompressed form and the hybrid one, whose prefix repeats the parity. */
  function ParsePubKey(curve: Curve, b: bytes): Option<PubKey> {
    if |b| == 33 && (b[0] == 0x02 || b[0] == 0x03) then
      var x := FromBigEndian(b[1..]);
      if x < FIELD_PRIME && curve.hasPoint(x) then Some(PubKey(x, b[0] == 0x03)) else None
    else if |b| == 65 && (b[0] == 0x04 || b[0] == 0x06 || b[0] == 0x07) then
      var x, y := FromBigEndian(b[1..33]), FromBigEndian(b[33..]);
      if b[0] != 0x04 && (b[0] == 0x07) != (y % 2 == 1) then None
      else if x < FIELD_PRIME && y < FIELD_PRIME && curve.isPoint(x, y) then Some(PubKey(x, y % 2 == 1))
      else None
    else None
  }

  function SerializeSignature(sig: Signature): (b: bytes)
    ensures |b| == 64
  {
    BigEndian(sig.r, 32) + BigEndian(sig.s, 32)
  }

  function ParseSignature(b: bytes): Option<Signature> {
    if |b| != 64 then None
    else
      var r, s := FromBigEndian(b[..32]), FromBigEndian(b[32..]);
      if r < FIELD_PRIME && s < GROUP_ORDER then Some(Signature(r, s)) else None
  }

  lemma FourMoreBytes(n: nat)
    ensures Capacity(n + 4) == 0x1_0000_0000 * Capacity(n)
  {
    assert Capacity(n + 4) == 0x100 * Capacity(n + 3);
    assert Capacity(n + 3) == 0x100 * Capacity(n + 2);
    assert Capacity(n + 2) == 0x100 * Capacity(n + 1);
    assert Capacity(n + 1) == 0x100 * Capacity(n);
  }

  lemma Capacity32()
    ensures Capacity(32) == 0x1_0000_0000_0000_0000_0000_0000_0000_0000_0000_0000_0000_0000_0000_0000_0000_0000
  {
    assert Capacity(0) == 1;
    FourMoreBytes(0);
    FourMoreBytes(4);
    FourMoreBytes(8);
    FourMoreBytes(12);
    FourMoreBytes(16);
    FourMoreBytes(20);
    FourMoreBytes(24);
    FourMoreBytes(28);
  }

  lemma Word32RoundTrip(v: nat)
    requires v < FIELD_PRIME
    ensures FromBigEndian(BigEndian(v, 32)) == v
  {
    assert v < Capacity(32) by {
      Capacity32();
    }
    BigEndianRoundTrip(v, 32);
  }

  /** A compressed key is read back exactly when it names a point of the curve. */
  lemma PubKeyRoundTrip(curve: Curve, key: PubKey)
    ensures ParsePubKey(curve, SerializeCompressed(key)) == (if curve.hasPoint(key.x) then Some(key) else None)
  {
    Word32RoundTrip(key.x);
    assert SerializeCompressed(key)[1..] == BigEndian(key.x, 32);
  }

  lemma SignatureRoundTrip(sig: Signature)
    ensures ParseSignature(SerializeSignature(sig)) == Some(sig)
  {
    Word32RoundTrip(sig.r);
    Word32RoundTrip(sig.s);
    var b := SerializeSignature(sig);
    assert b[..32] == BigEndian(sig.r, 32) && b[32..] == BigEndian(sig.s, 32);
  }

  /** A signature has one byte form only. */
  lemma SignatureOnly(b: bytes)
    requires ParseSignature(b).Some?
    ensures SerializeSignature(ParseSignature(b).value) == b
  {
    FromBigEndianRoundTrip(b[..32]);
    FromBigEndianRoundTrip(b[32..]);
    assert b == b[..32] + b[32..];
  }
  /** Which bytes are a signature: 64, the abscissa below the field prime, then the scalar below the group order. */
  lemma ParsesSignatureExactly(b: bytes, sig: Signature)
    ensures ParseSignature(b) == Some(sig)
       <==> |b| == 64 && FromBigEndian(b[..32]) == sig.r && FromBigEndian(b[32..]) == sig.s
    ensures ParseSignature(b) == Some(sig) <==> b == SerializeSignature(sig)
    ensures ParseSignature(b).Some? <==> |b| == 64 && FromBigEndian(b[..32]) < FIELD_PRIME && FromBigEndian(b[32..]) < GROUP_ORDER
  {
    SignatureRoundTrip(sig);
    if ParseSignature(b).Some? {
      SignatureOnly(b);
    }
  }

  /** Which bytes are a key: a compressed point, or both coordinates of one, in the plain form or in the hybrid one that
      repeats the parity. */
  lemma ParsesKeyExactly(curve: Curve, b: bytes, key: PubKey)
    ensures ParsePubKey(curve, b) == Some(key)
       <==> || (|b| == 33 && b[0] == (if key.odd then 3 else 2) && FromBigEndian(b[1..]) == key.x && curve.hasPoint(key.x))
            || (&& |b| == 65 && (b[0] == 4 || b[0] == (if key.odd then 7 else 6))
                && FromBigEndian(b[1..33]) == key.x && FromBigEndian(b[33..]) < FIELD_PRIME
                && curve.isPoint(key.x, FromBigEndian(b[33..])) && (FromBigEndian(b[33..]) % 2 == 1 <==> key.odd))
  {
    hide FromBigEndian;
  }
}
