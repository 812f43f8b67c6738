/**
 The payload of a connection link: base64url without padding on the side that builds it, and the import
 that takes standard or url-safe base64, padded or not. Sections 4 and 5 of RFC 4648.
 */
module Base64Link {
  import opened Options

  type Byte = b: int | 0 <= b < 256
  type Sextet = v: int | 0 <= v < 64

  // ----- the standard codec --------------------------------------------------------------------

  function ToChar(v: Sextet): char {
    if v < 26 then (65 + v) as char
    else if v < 52 then (71 + v) as char
    else if v < 62 then (v - 4) as char
    else if v == 62 then '+'
    else '/'
  }

  function FromChar(c: char): Option<Sextet> {
    if 'A' <= c <= 'Z' then Some(c as int - 65)
    else if 'a' <= c <= 'z' then Some(c as int - 71)
    else if '0' <= c <= '9' then Some(c as int + 4)
    else if c == '+' then Some(62)
    else if c == '/' then Some(63)
    else None
  }

  predicate InAlphabet(c: char) { FromChar(c).Some? }

  /** The base64 encoding without its padding. */
  function Unpadded(bs: seq<Byte>): string {
    if bs == [] then ""
    else if |bs| == 1 then [ToChar(bs[0] / 4), ToChar(bs[0] % 4 * 16)]
    else if |bs| == 2 then [ToChar(bs[0] / 4), ToChar(bs[0] % 4 * 16 + bs[1] / 16), ToChar(bs[1] % 16 * 4)]
    else
      [ToChar(bs[0] / 4), ToChar(bs[0] % 4 * 16 + bs[1] / 16), ToChar(bs[1] % 16 * 4 + bs[2] / 64), ToChar(bs[2] % 64)]
      + Unpadded(bs[3..])
  }

  function Padding(n: nat): string { seq(n, _ => '=') }

  /** Standard base64: groups of three bytes to four characters, the last group padded. */
  function Encode(bs: seq<Byte>): string { Unpadded(bs) + Padding((3 - |bs| % 3) % 3) }

  /** The bytes of one group of four characters; only the last group may be padded. */
  function DecodeGroup(s: string, last: bool): Option<seq<Byte>>
    requires |s| == 4
  {
    var a, b, c, d := FromChar(s[0]), FromChar(s[1]), FromChar(s[2]), FromChar(s[3]);
    if a.None? || b.None? then None
    else
      var first: Byte := a.value * 4 + b.value / 16;
      if last && s[2] == '=' && s[3] == '=' then Some([first])
      else if c.None? then None
      else
        var second: Byte := b.value % 16 * 16 + c.value / 4;
        if last && s[3] == '=' then Some([first, second])
        else if d.None? then None
        else Some([first, second, c.value % 4 * 64 + d.value])
  }

  /** A decoder strict about length, alphabet and padding. */
  function Decode(s: string): Option<seq<Byte>> {
    if s == "" then Some([])
    else if |s| < 4 then None
    else if |s| == 4 then DecodeGroup(s, true)
    else
      var group, rest := DecodeGroup(s[..4], false), Decode(s[4..]);
      if group.Some? && rest.Some? then Some(group.value + rest.value) else None
  }

  // ----- the link ------------------------------------------------------------------------------

  function UrlSafe(s: string): string { seq(|s|, k requires 0 <= k < |s| => UrlSafeChar(s[k])) }

  function UrlSafeChar(c: char): char { if c == '+' then '-' else if c == '/' then '_' else c }

  function Standard(s: string): string { seq(|s|, k requires 0 <= k < |s| => StandardChar(s[k])) }

  function StandardChar(c: char): char { if c == '-' then '+' else if c == '_' then '/' else c }

  function StripPadding(s: string): string {
    if s != "" && s[|s| - 1] == '=' then StripPadding(s[..|s| - 1]) else s
  }

  /** What the generator puts after `data=`. */
  function LinkData(bs: seq<Byte>): string { StripPadding(UrlSafe(Encode(bs))) }

  function Normalised(s: string): string {
    Standard(s) + Padding((4 - |s| % 4) % 4)
  }

  function ImportData(s: string): Option<seq<Byte>> { Decode(Normalised(s)) }

  // ----- proofs --------------------------------------------------------------------------------

  /** Table 1 of RFC 4648: the letters from A to Z, from a to z, the digits, then two signs. */
  lemma AlphabetIsStandard()
    ensures ToChar(0) == 'A' && ToChar(25) == 'Z' && ToChar(26) == 'a' && ToChar(51) == 'z'
    ensures ToChar(52) == '0' && ToChar(61) == '9' && ToChar(62) == '+' && ToChar(63) == '/'
    ensures forall v: Sextet :: v < 61 && v != 25 && v != 51 ==> ToChar(v + 1) as int == ToChar(v) as int + 1
  {
  }

  /** The vectors of section 10 of RFC 4648 for "foo" and its beginnings. */
  lemma Vectors()
    ensures Encode([]) == "" && Encode([102]) == "Zg==" && Encode([102, 111]) == "Zm8="
    ensures Encode([102, 111, 111]) == "Zm9v"
  {
    assert [102, 111, 111][3..] == [];
  }

  lemma CharsRoundTrip(v: Sextet)
    ensures FromChar(ToChar(v)) == Some(v)
    ensures ToChar(v) !in "=-_"
  {
  }

  lemma {:induction false} UnpaddedShape(bs: seq<Byte>)
    ensures forall k :: 0 <= k < |Unpadded(bs)| ==> InAlphabet(Unpadded(bs)[k])
    ensures |Unpadded(bs)| == |bs| / 3 * 4 + (if |bs| % 3 == 0 then 0 else |bs| % 3 + 1)
  {
    if |bs| >= 3 {
      UnpaddedShape(bs[3..]);
      assert |bs[3..]| / 3 == |bs| / 3 - 1;
    }
  }

  lemma {:induction false} DecodeEncode(bs: seq<Byte>)
    ensures Decode(Encode(bs)) == Some(bs)
  {
    if |bs| <= 3 {
      ShortRoundTrip(bs);
    } else {
      DecodeEncode(bs[3..]);
      EncodeUnrolls(bs);
      GroupRoundTrip(bs[0], bs[1], bs[2], false);
      DecodeUnrolls(Encode(bs), [bs[0], bs[1], bs[2]], bs[3..]);
      assert bs == [bs[0], bs[1], bs[2]] + bs[3..];
    }
  }

  lemma DecodeUnrolls(s: string, group: seq<Byte>, rest: seq<Byte>)
    requires |s| > 4 && DecodeGroup(s[..4], false) == Some(group) && Decode(s[4..]) == Some(rest)
    ensures Decode(s) == Some(group + rest)
  {
  }

  lemma ShortRoundTrip(bs: seq<Byte>)
    requires |bs| <= 3
    ensures Decode(Encode(bs)) == Some(bs)
  {
    if |bs| == 1 {
      LastOfOne(bs[0]);
      assert bs == [bs[0]];
    } else if |bs| == 2 {
      LastOfTwo(bs[0], bs[1]);
      assert bs == [bs[0], bs[1]];
    } else if |bs| == 3 {
      LastOfThree(bs[0], bs[1], bs[2]);
      assert bs == [bs[0], bs[1], bs[2]];
    }
  }

  /** The first group of the encoding stands for the first three bytes and the rest for the others. */
  lemma EncodeUnrolls(bs: seq<Byte>)
    requires |bs| >= 3
    ensures |Encode(bs)| == 4 + |Encode(bs[3..])| && Encode(bs)[4..] == Encode(bs[3..])
    ensures Encode(bs)[..4] == Group(bs[0], bs[1], bs[2])
    ensures |bs| > 3 ==> Encode(bs[3..]) != ""
  {
    var group, rest, pad := Group(bs[0], bs[1], bs[2]), Unpadded(bs[3..]), Padding((3 - |bs| % 3) % 3);
    SameRest(|bs|);
    assert Encode(bs) == group + (rest + pad);
  }

  lemma SameRest(n: nat)
    requires n >= 3
    ensures (n - 3) % 3 == n % 3
  {
  }

  function Group(x: Byte, y: Byte, z: Byte): string {
    [ToChar(x / 4), ToChar(x % 4 * 16 + y / 16), ToChar(y % 16 * 4 + z / 64), ToChar(z % 64)]
  }

  lemma GroupDecodes(a: Sextet, b: Sextet, c: Sextet, d: Sextet, last: bool)
    ensures DecodeGroup([ToChar(a), ToChar(b), ToChar(c), ToChar(d)], last)
            == Some([a * 4 + b / 16, b % 16 * 16 + c / 4, c % 4 * 64 + d])
  {
    CharsRoundTrip(a);
    CharsRoundTrip(b);
    CharsRoundTrip(c);
    CharsRoundTrip(d);
  }

  /** Three bytes cut into four sextets and put together again. */
  lemma CutAndJoin(x: Byte, y: Byte, z: Byte)
    ensures var a, b, c, d := x / 4, x % 4 * 16 + y / 16, y % 16 * 4 + z / 64, z % 64;
      a * 4 + b / 16 == x && b % 16 * 16 + c / 4 == y && c % 4 * 64 + d == z
  {
  }

  lemma GroupRoundTrip(x: Byte, y: Byte, z: Byte, last: bool)
    ensures DecodeGroup(Group(x, y, z), last) == Some([x, y, z])
  {
    GroupDecodes(x / 4, x % 4 * 16 + y / 16, y % 16 * 4 + z / 64, z % 64, last);
    CutAndJoin(x, y, z);
  }

  lemma LastOfOne(x: Byte)
    ensures Decode(Encode([x])) == Some([x])
  {
    CharsRoundTrip(x / 4);
    CharsRoundTrip(x % 4 * 16);
    assert Encode([x]) == [ToChar(x / 4), ToChar(x % 4 * 16), '=', '='];
  }

  lemma LastOfTwo(x: Byte, y: Byte)
    ensures Decode(Encode([x, y])) == Some([x, y])
  {
    CharsRoundTrip(x / 4);
    CharsRoundTrip(x % 4 * 16 + y / 16);
    CharsRoundTrip(y % 16 * 4);
    assert Encode([x, y]) == [ToChar(x / 4), ToChar(x % 4 * 16 + y / 16), ToChar(y % 16 * 4), '='];
  }

  lemma LastOfThree(x: Byte, y: Byte, z: Byte)
    ensures Decode(Encode([x, y, z])) == Some([x, y, z])
  {
    GroupRoundTrip(x, y, z, true);
    assert [x, y, z][3..] == [] && Unpadded([]) == "";
    assert Unpadded([x, y, z]) == Group(x, y, z);
    assert Encode([x, y, z]) == Group(x, y, z);
  }

  lemma {:induction false} StripsExactly(s: string, n: nat)
    requires s == "" || s[|s| - 1] != '='
    ensures StripPadding(s + Padding(n)) == s
  {
    if n > 0 {
      StripsExactly(s, n - 1);
      assert (s + Padding(n))[..|s| + n - 1] == s + Padding(n - 1);
    } else {
      assert s + Padding(0) == s;
    }
  }

  /** The link is the url-safe form of the encoding without padding. */
  lemma LinkDataIs(bs: seq<Byte>)
    ensures LinkData(bs) == UrlSafe(Unpadded(bs))
  {
    UnpaddedShape(bs);
    var n := (3 - |bs| % 3) % 3;
    assert UrlSafe(Encode(bs)) == UrlSafe(Unpadded(bs)) + Padding(n);
    StripsExactly(UrlSafe(Unpadded(bs)), n);
  }

  /** How the payload may be written: either alphabet, padded or not. */
  function Variant(bs: seq<Byte>, urlSafe: bool, padded: bool): string {
    var s := if padded then Encode(bs) else Unpadded(bs);
    if urlSafe then UrlSafe(s) else s
  }

  predicate Standardised(s: string) { forall k :: 0 <= k < |s| ==> s[k] == '=' || InAlphabet(s[k]) }

  lemma AlphabetsRoundTrip(s: string)
    requires Standardised(s)
    ensures Normalised(s) == s + Padding((4 - |s| % 4) % 4) == Normalised(UrlSafe(s))
  {
    assert Standard(s) == s && Standard(UrlSafe(s)) == s;
  }

  lemma EncodeShape(bs: seq<Byte>)
    ensures |Encode(bs)| == |Unpadded(bs)| + (4 - |Unpadded(bs)| % 4) % 4 && |Encode(bs)| % 4 == 0
    ensures Encode(bs) == Unpadded(bs) + Padding((4 - |Unpadded(bs)| % 4) % 4)
    ensures Standardised(Encode(bs)) && Standardised(Unpadded(bs))
  {
    UnpaddedShape(bs);
    PadsMeet(|bs|, |Unpadded(bs)|);
  }

  lemma PadsMeet(n: nat, unpadded: nat)
    requires unpadded == n / 3 * 4 + (if n % 3 == 0 then 0 else n % 3 + 1)
    ensures (3 - n % 3) % 3 == (4 - unpadded % 4) % 4
    ensures (unpadded + (3 - n % 3) % 3) % 4 == 0
  {
    var q := n / 3;
    if n % 3 == 0 {
      assert unpadded == 4 * q;
    } else if n % 3 == 1 {
      assert unpadded == 4 * q + 2;
    } else {
      assert unpadded == 4 * q + 3;
    }
  }

  /** Normalising any of the four ways of writing the payload gives its one canonical encoding. */
  lemma VariantsNormalise(bs: seq<Byte>, urlSafe: bool, padded: bool)
    ensures Normalised(Variant(bs, urlSafe, padded)) == Encode(bs)
  {
    EncodeShape(bs);
    if padded {
      AlphabetsRoundTrip(Encode(bs));
      assert Encode(bs) + Padding(0) == Encode(bs);
    } else {
      AlphabetsRoundTrip(Unpadded(bs));
    }
  }

  /** All four ways of writing a payload import as the payload, and the generator's link is one of them. */
  lemma RoundTrip(bs: seq<Byte>, urlSafe: bool, padded: bool)
    ensures ImportData(Variant(bs, urlSafe, padded)) == Some(bs)
    ensures ImportData(LinkData(bs)) == Some(bs)
  {
    VariantsNormalise(bs, urlSafe, padded);
    VariantsNormalise(bs, true, false);
    LinkDataIs(bs);
    DecodeEncode(bs);
  }

  /** Different payloads make different links. */
  lemma LinksAreDistinct(a: seq<Byte>, b: seq<Byte>)
    requires LinkData(a) == LinkData(b)
    ensures a == b
  {
    RoundTrip(a, true, false);
    RoundTrip(b, true, false);
  }

  predicate NeedsNoEscape(c: char) {
    'A' <= c <= 'Z' || 'a' <= c <= 'z' || '0' <= c <= '9' || c == '-' || c == '_'
  }

  /** Nothing in the link needs escaping in a URL. */
  lemma LinkNeedsNoEscape(bs: seq<Byte>)
    ensures forall k :: 0 <= k < |LinkData(bs)| ==> NeedsNoEscape(LinkData(bs)[k])
  {
    LinkDataIs(bs);
    UnpaddedShape(bs);
  }

  // ----- what the import accepts -----------------------------------------------------------------

  /** Whole groups from the alphabet, the last of which may be padded. */
  predicate WellFormed(s: string) {
    |s| % 4 == 0 && (s == "" || Padded(s, 0) || Padded(s, 1) || Padded(s, 2))
  }

  predicate Padded(s: string, pad: nat)
  {
    && (forall k :: 0 <= k < |s| - pad ==> InAlphabet(s[k]))
    && (forall k :: 0 <= k < |s| && |s| - pad <= k ==> s[k] == '=')
  }

  lemma {:induction false} DecodesExactly(s: string)
    ensures Decode(s).Some? <==> WellFormed(s)
  {
    if |s| == 4 {
      LastGroupDecodes(s);
    } else if |s| > 4 {
      DecodesExactly(s[4..]);
      DecodeStep(s);
      WellFormedStep(s);
    }
  }

  lemma WellFormedStep(s: string)
    requires |s| > 4
    ensures WellFormed(s) <==> DecodeGroup(s[..4], false).Some? && WellFormed(s[4..])
  {
    if |s| % 4 == 0 {
      Prepended(s, 0);
      Prepended(s, 1);
      Prepended(s, 2);
    }
  }

  lemma DecodeStep(s: string)
    requires |s| > 4
    ensures Decode(s).Some? <==> DecodeGroup(s[..4], false).Some? && Decode(s[4..]).Some?
  {
  }

  lemma LastGroupDecodes(s: string)
    requires |s| == 4
    ensures DecodeGroup(s, true).Some? <==> WellFormed(s)
  {
    if DecodeGroup(s, true).Some? {
      assert Padded(s, if s[3] != '=' then 0 else if s[2] != '=' then 1 else 2);
    }
  }

  lemma Prepended(s: string, pad: nat)
    requires |s| > 4 && pad <= 2 && pad <= |s| - 4
    ensures Padded(s, pad) <==> (Padded(s[4..], pad) && DecodeGroup(s[..4], false).Some?)
  {
    var rest := s[4..];
    assert forall k :: 4 <= k < |s| ==> s[k] == rest[k - 4];
    assert forall k :: 0 <= k < |rest| ==> rest[k] == s[k + 4];
    if Padded(s, pad) {
      assert InAlphabet(s[0]) && InAlphabet(s[1]) && InAlphabet(s[2]) && InAlphabet(s[3]);
    }
  }

  /** What normalising makes of unpadded input: characters of the alphabet, then the padding. */
  lemma NormalisedShape(s: string)
    requires forall k :: 0 <= k < |s| ==> InAlphabet(s[k]) || s[k] == '-' || s[k] == '_'
    ensures var t, pad := Normalised(s), (4 - |s| % 4) % 4;
      |t| == |s| + pad && |t| % 4 == 0 && Padded(t, pad)
  {
    var t := Normalised(s);
    forall k | 0 <= k < |s| ensures InAlphabet(t[k]) {
      assert t[k] == StandardChar(s[k]);
    }
  }

  lemma ThreePadsAreTooMany(t: string)
    requires |t| >= 4 && Padded(t, 3)
    ensures !WellFormed(t)
  {
    assert t[|t| - 3] == '=';
  }

  /** Unpadded input from either alphabet imports exactly if its length leaves no lone character. */
  lemma UnpaddedAccepted(s: string)
    requires forall k :: 0 <= k < |s| ==> InAlphabet(s[k]) || s[k] == '-' || s[k] == '_'
    ensures ImportData(s).Some? <==> |s| % 4 != 1
  {
    NormalisedShape(s);
    DecodesExactly(Normalised(s));
    if |s| % 4 == 1 {
      ThreePadsAreTooMany(Normalised(s));
    }
  }
}
