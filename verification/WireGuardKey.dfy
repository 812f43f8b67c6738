/** `gen_wg_keypair` of quick_link.py: 32 random bytes clamped in place, and the two keys in base64. */
module WireGuardKey {
  import opened Base64Link
  import opened FieldArithmetic
  import opened Options
  import opened X25519

  /** `int.from_bytes(s, "little")` */
  function FromBytes(s: seq<Byte>): nat {
    if s == [] then 0 else s[0] + 256 * FromBytes(s[1..])
  }

  /** `n.to_bytes(len, "little")`; a number that does not fit never reaches it here. */
  function ToBytes(n: nat, len: nat): (s: seq<Byte>)
    ensures |s| == len
  {
    if len == 0 then [] else [n % 256] + ToBytes(n / 256, len - 1)
  }

  lemma FirstByte(b: Byte, rest: seq<Byte>)
    ensures FromBytes([b] + rest) == b + 256 * FromBytes(rest)
  {
    assert ([b] + rest)[1..] == rest;
  }

  lemma FitsAfterShift(n: nat, p: nat)
    requires n < 256 * p
    ensures n / 256 < p
  {
  }

  lemma {:induction false} FromToBytes(n: nat, len: nat)
    requires n < Pow2(8 * len)
    ensures FromBytes(ToBytes(n, len)) == n
  {
    if len > 0 {
      Pow2Byte(len - 1);
      FitsAfterShift(n, Pow2(8 * (len - 1)));
      FromToBytes(n / 256, len - 1);
      FirstByte(n % 256, ToBytes(n / 256, len - 1));
    }
  }

  /** The bytes of the key's array as numbers. */
  function Values(s: seq<bv8>): (r: seq<Byte>)
    ensures |r| == |s|
  {
    seq(|s|, k requires 0 <= k < |s| => s[k] as int)
  }

  /** Bytes 0 and 31 as the three assignments leave them. */
  function Clamped(s: seq<bv8>): seq<bv8>
    requires |s| == 32
  {
    s[0 := s[0] & 248][31 := (s[31] & 127) | 64]
  }

  method Clamp(priv: array<bv8>)
    requires priv.Length == 32
    modifies priv
    ensures priv[..] == Clamped(old(priv[..]))
  {
    priv[0] := priv[0] & 248;
    priv[31] := priv[31] & 127;
    priv[31] := priv[31] | 64;
  }

  /** The text decodes to 32 bytes that are the ladder's value for this private key and base point 9. */
  ghost predicate IsPublicKey(text: string, priv: seq<Byte>) {
    && Decode(text).Some? && |Decode(text).value| == 32
    && FromBytes(Decode(text).value) == Affine(P, Registers(P, 255, FromBytes(priv), 9, 0).0)
  }

  /** `priv` holds the random bytes, which become the private key; both keys are returned in base64. */
  method GenerateKeypair(priv: array<bv8>) returns (privateKey: string, publicKey: string)
    requires priv.Length == 32
    modifies priv
    ensures priv[..] == Clamped(old(priv[..]))
    ensures Decode(privateKey) == Some(Values(priv[..]))
    ensures IsPublicKey(publicKey, Values(priv[..]))
  {
    Clamp(priv);
    var u := ScalarMult(FromBytes(Values(priv[..])), 9);
    Powers();
    FromToBytes(u, 32);
    var pub := ToBytes(u, 32);
    DecodeEncode(Values(priv[..]));
    DecodeEncode(pub);
    return Encode(Values(priv[..])), Encode(pub);
  }

  // ----- what clamping means -------------------------------------------------------------------

  const TWO_248: nat := 452312848583266388373324160190187140051835877600158453279131187530910662656
  const TWO_251: nat := 3618502788666131106986593281521497120414687020801267626233049500247285301248
  const TWO_254: nat := 28948022309329048855892746252171976963317496166410141009864396001978282409984

  lemma Powers()
    ensures Pow2(248) == TWO_248 && Pow2(251) == TWO_251 && Pow2(254) == TWO_254
    ensures P < Pow2(8 * 32)
  {
    ModulusIsRight();
    Pow2Sum(7, 248);
    Pow2Sum(4, 251);
    Pow2Sum(1, 254);
    Pow2Sum(1, 255);
  }

  lemma Regroup(b: int, lo: int, p: int, hi: int)
    ensures b + 256 * (lo + p * hi) == (b + 256 * lo) + (256 * p) * hi
  {
  }

  lemma Pow2Byte(n: nat)
    ensures Pow2(8 * n + 8) == 256 * Pow2(8 * n)
  {
    Pow2Sum(8 * n, 8);
    assert Pow2(8) == 256;
  }

  lemma ByteBelow(b: Byte, r: nat, p: nat)
    requires r < p
    ensures b + 256 * r < 256 * p
  {
  }

  lemma {:induction false} FromBytesBound(s: seq<Byte>)
    ensures FromBytes(s) < Pow2(8 * |s|)
  {
    if s != [] {
      FromBytesBound(s[1..]);
      Pow2Byte(|s| - 1);
      ByteBelow(s[0], FromBytes(s[1..]), Pow2(8 * (|s| - 1)));
    }
  }

  lemma {:induction false} FromBytesSplit(s: seq<Byte>, i: nat)
    requires i <= |s|
    ensures FromBytes(s) == FromBytes(s[..i]) + Pow2(8 * i) * FromBytes(s[i..])
  {
    if i == 0 {
      assert s[0..] == s;
    } else {
      var t := s[1..];
      assert s[..i][1..] == t[..i - 1] && s[i..] == t[i - 1..];
      FromBytesSplit(t, i - 1);
      Pow2Byte(i - 1);
      Regroup(s[0], FromBytes(t[..i - 1]), Pow2(8 * (i - 1)), FromBytes(s[i..]));
    }
  }

  /** The number of a 32-byte key, by its first byte and by its last. */
  lemma KeyEnds(s: seq<Byte>) returns (rest: nat, low: nat)
    requires |s| == 32
    ensures FromBytes(s) == s[0] + 256 * rest
    ensures low < TWO_248 && FromBytes(s) == low + TWO_248 * s[31]
  {
    Powers();
    var last := 31;
    FromBytesSplit(s, last);
    FromBytesBound(s[..31]);
    assert s[31..] == [s[31]] && FromBytes([s[31]]) == s[31];
    rest, low := FromBytes(s[1..]), FromBytes(s[..31]);
  }

  lemma LowBits(b: bv8)
    ensures b & 248 == b <==> b as int % 8 == 0
    ensures (b & 248) & 248 == b & 248
  {
    assert (b & 248) as int == b as int / 8 * 8;
  }

  lemma HighBits(b: bv8)
    ensures (b & 127) | 64 == b <==> 64 <= b as int < 128
    ensures (((b & 127) | 64) & 127) | 64 == (b & 127) | 64
  {
    assert ((b & 127) | 64) as int == 64 + b as int % 64;
  }

  lemma ClampedForm(n: int, first: int, rest: int, last: int, low: int)
    requires 0 <= first < 256 && 0 <= last < 256 && 0 <= low < TWO_248
    requires n == first + 256 * rest && n == low + TWO_248 * last
    ensures first % 8 == 0 && 64 <= last < 128 <==> exists m: nat :: m < TWO_251 && n == TWO_254 + 8 * m
  {
    if first % 8 == 0 && 64 <= last < 128 {
      var m := first / 8 + 32 * rest - TWO_251;
      assert n == TWO_254 + 8 * m;
    }
    if m: nat :| m < TWO_251 && n == TWO_254 + 8 * m {
      assert first == 8 * (TWO_251 + m - 32 * rest);
      assert 64 <= last < 128;
    }
  }

  /** The keys left alone by clamping are exactly those of section 5 of RFC 7748: 2^254 + 8m with 0 <= m < 2^251. */
  lemma ClampedKeys(s: seq<bv8>)
    requires |s| == 32
    ensures Clamped(s) == s <==> exists m: nat :: m < TWO_251 && FromBytes(Values(s)) == TWO_254 + 8 * m
  {
    var rest, low := KeyEnds(Values(s));
    ClampedForm(FromBytes(Values(s)), s[0] as int, rest, s[31] as int, low);
    KeptByClamping(s);
  }

  lemma KeptByClamping(s: seq<bv8>)
    requires |s| == 32
    ensures Clamped(s) == s <==> s[0] as int % 8 == 0 && 64 <= s[31] as int < 128
  {
    LowBits(s[0]);
    HighBits(s[31]);
    assert Clamped(s)[0] == s[0] & 248 && Clamped(s)[31] == (s[31] & 127) | 64;
  }

  /** Every key clamping produces is one of them. */
  lemma ClampingGivesKeys(s: seq<bv8>)
    requires |s| == 32
    ensures exists m: nat :: m < TWO_251 && FromBytes(Values(Clamped(s))) == TWO_254 + 8 * m
  {
    LowBits(s[0]);
    HighBits(s[31]);
    assert Clamped(Clamped(s)) == Clamped(s);
    ClampedKeys(Clamped(s));
  }
}
