/**
 The client-facing refresh token "uuid:base64(secret)". UUID text follows section 4 of RFC 9562,
 base64 follows section 4 of RFC 4648 with padding.
 */
module RefreshToken {
  import opened Wrappers

  type byte = n: nat | n < 256

  type Uuid = s: seq<byte> | |s| == 16 witness [0, 0, 0, 0, 0, 0, 0, 0, 0, 0, 0, 0, 0, 0, 0, 0]

  // ------------------------------------------------------------------ hexadecimal and UUID text

  function HexChar(d: nat): char
    requires d < 16
  {
    if d < 10 then '0' + d as char else 'a' + (d - 10) as char
  }

  function HexValue(c: char): Option<nat>
  {
    if '0' <= c <= '9' then Some((c - '0') as nat)
    else if 'a' <= c <= 'f' then Some((c - 'a') as nat + 10)
    else if 'A' <= c <= 'F' then Some((c - 'A') as nat + 10)
    else None
  }

  function HexText(bs: seq<byte>): (s: string)
    ensures |s| == 2 * |bs| && ':' !in s
  {
    if |bs| == 0 then "" else [HexChar(bs[0] / 16), HexChar(bs[0] % 16)] + HexText(bs[1..])
  }

  function ParseHex(s: string): Option<seq<byte>>
  {
    if |s| == 0 then Some([])
    else if |s| == 1 then None
    else
      match (HexValue(s[0]), HexValue(s[1]), ParseHex(s[2..]))
      case (Some(h), Some(l), Some(rest)) => if h < 16 && l < 16 then Some([h * 16 + l] + rest) else None
      case _ => None
  }

  lemma HexCharRoundTrip(d: nat)
    requires d < 16
    ensures HexValue(HexChar(d)) == Some(d)
  {
  }

  lemma {:induction false} HexRoundTrip(bs: seq<byte>)
    ensures ParseHex(HexText(bs)) == Some(bs)
    decreases |bs|
  {
    if |bs| > 0 {
      HexRoundTrip(bs[1..]);
      HexCharRoundTrip(bs[0] / 16);
      HexCharRoundTrip(bs[0] % 16);
      assert HexText(bs)[2..] == HexText(bs[1..]);
      assert bs == [bs[0]] + bs[1..];
    }
  }

  function UuidText(id: Uuid): (s: string)
    ensures |s| == 36 && ':' !in s
  {
    HexText(id[..4]) + "-" + HexText(id[4..6]) + "-" + HexText(id[6..8]) + "-" + HexText(id[8..10]) + "-" +
      HexText(id[10..])
  }

  /** The canonical form only; the other spellings the UUID library accepts are not modelled. */
  function ParseUuid(s: string): Option<Uuid>
  {
    if |s| != 36 || s[8] != '-' || s[13] != '-' || s[18] != '-' || s[23] != '-' then None
    else
      match ParseHex(s[..8] + s[9..13] + s[14..18] + s[19..23] + s[24..])
      case Some(bs) => if |bs| == 16 then Some(bs) else None
      case None => None
  }

  lemma {:induction false} HexTextSplits(a: seq<byte>, b: seq<byte>)
    ensures HexText(a + b) == HexText(a) + HexText(b)
    decreases |a|
  {
    if |a| == 0 {
      assert a + b == b;
    } else {
      assert (a + b)[1..] == a[1..] + b;
      HexTextSplits(a[1..], b);
    }
  }

  /** The hexadecimal groups of a UUID text, put together, spell all sixteen bytes. */
  lemma UuidGroups(id: Uuid)
    ensures HexText(id[..4]) + HexText(id[4..6]) + HexText(id[6..8]) + HexText(id[8..10]) + HexText(id[10..]) ==
      HexText(id)
  {
    HexTextSplits(id[..4], id[4..6]);
    HexTextSplits(id[..6], id[6..8]);
    HexTextSplits(id[..8], id[8..10]);
    HexTextSplits(id[..10], id[10..]);
    assert id[..4] + id[4..6] == id[..6] && id[..6] + id[6..8] == id[..8];
    assert id[..8] + id[8..10] == id[..10] && id[..10] + id[10..] == id;
  }

  lemma DashPositions(a: string, b: string, c: string, d: string, e: string)
    requires |a| == 8 && |b| == 4 && |c| == 4 && |d| == 4 && |e| == 12
    ensures var s := a + "-" + b + "-" + c + "-" + d + "-" + e;
      && |s| == 36 && s[8] == '-' && s[13] == '-' && s[18] == '-' && s[23] == '-'
      && s[..8] == a && s[9..13] == b && s[14..18] == c && s[19..23] == d && s[24..] == e
  {
  }

  lemma UuidRoundTrip(id: Uuid)
    ensures ParseUuid(UuidText(id)) == Some(id)
  {
    DashPositions(HexText(id[..4]), HexText(id[4..6]), HexText(id[6..8]), HexText(id[8..10]), HexText(id[10..]));
    UuidGroups(id);
    HexRoundTrip(id);
  }

  // ------------------------------------------------------------------ base64

  type sextet = n: nat | n < 64

  function SixBits(n: sextet): char
  {
    if n < 26 then 'A' + n as char
    else if n < 52 then 'a' + (n - 26) as char
    else if n < 62 then '0' + (n - 52) as char
    else if n == 62 then '+' else '/'
  }

  function SixBitsValue(c: char): Option<sextet>
  {
    if 'A' <= c <= 'Z' then Some((c - 'A') as nat)
    else if 'a' <= c <= 'z' then Some((c - 'a') as nat + 26)
    else if '0' <= c <= '9' then Some((c - '0') as nat + 52)
    else if c == '+' then Some(62)
    else if c == '/' then Some(63)
    else None
  }

  /** The four six-bit values of three bytes. */
  function Six0(x: byte): sextet { x / 4 }

  function Six1(x: byte, y: byte): sextet { x % 4 * 16 + y / 16 }

  function Six2(y: byte, z: byte): sextet { y % 16 * 4 + z / 64 }

  function Six3(z: byte): sextet { z % 64 }

  /** The three bytes of four six-bit values. */
  function Byte0(a: sextet, b: sextet): byte { a * 4 + b / 16 }

  function Byte1(b: sextet, c: sextet): byte { b % 16 * 16 + c / 4 }

  function Byte2(c: sextet, d: sextet): byte { c % 4 * 64 + d }

  function Quad(a: sextet, b: sextet, c: sextet, d: sextet): string
  {
    [SixBits(a), SixBits(b), SixBits(c), SixBits(d)]
  }

  function Base64(bs: seq<byte>): string
  {
    if |bs| == 0 then ""
    else if |bs| == 1 then [SixBits(Six0(bs[0])), SixBits(Six1(bs[0], 0)), '=', '=']
    else if |bs| == 2 then [SixBits(Six0(bs[0])), SixBits(Six1(bs[0], bs[1])), SixBits(Six2(bs[1], 0)), '=']
    else Quad(Six0(bs[0]), Six1(bs[0], bs[1]), Six2(bs[1], bs[2]), Six3(bs[2])) + Base64(bs[3..])
  }

  /** Line breaks are skipped wherever they stand. */
  function WithoutLineBreaks(s: string): string
  {
    if |s| == 0 then ""
    else (if s[0] == '\n' || s[0] == '\r' then "" else [s[0]]) + WithoutLineBreaks(s[1..])
  }

  /** Groups of four; padding only in the last group, whose left-over bits are ignored. */
  function DecodeGroups(s: string): Option<seq<byte>>
  {
    if |s| == 0 then Some([])
    else if |s| < 4 then None
    else
      match (SixBitsValue(s[0]), SixBitsValue(s[1]), SixBitsValue(s[2]), SixBitsValue(s[3]))
      case (Some(a), Some(b), Some(c), Some(d)) =>
        (match DecodeGroups(s[4..])
         case Some(rest) => Some([Byte0(a, b), Byte1(b, c), Byte2(c, d)] + rest)
         case None => None)
      case (Some(a), Some(b), Some(c), None) =>
        if |s| == 4 && s[3] == '=' then Some([Byte0(a, b), Byte1(b, c)]) else None
      case (Some(a), Some(b), None, None) =>
        if |s| == 4 && s[2] == '=' && s[3] == '=' then Some([Byte0(a, b)]) else None
      case _ => None
  }

  function DecodeBase64(s: string): Option<seq<byte>>
  {
    DecodeGroups(WithoutLineBreaks(s))
  }

  lemma SixBitsRoundTrip(n: sextet)
    ensures SixBitsValue(SixBits(n)) == Some(n) && SixBits(n) != '\n' && SixBits(n) != '\r'
  {
  }

  /** Splitting three bytes into four six-bit values loses nothing. */
  lemma ThreeBytes(x: byte, y: byte, z: byte)
    ensures Byte0(Six0(x), Six1(x, y)) == x && Byte1(Six1(x, y), Six2(y, z)) == y && Byte2(Six2(y, z), Six3(z)) == z
  {
  }

  /** Decoding one full group, whatever its four values are. */
  lemma FullGroup(a: sextet, b: sextet, c: sextet, d: sextet, rest: string)
    requires DecodeGroups(rest).Some?
    ensures DecodeGroups(Quad(a, b, c, d) + rest) ==
      Some([Byte0(a, b), Byte1(b, c), Byte2(c, d)] + DecodeGroups(rest).value)
  {
    SixBitsRoundTrip(a);
    SixBitsRoundTrip(b);
    SixBitsRoundTrip(c);
    SixBitsRoundTrip(d);
    assert (Quad(a, b, c, d) + rest)[4..] == rest;
  }

  /** Decoding a padded group. */
  lemma PaddedGroup(a: sextet, b: sextet, c: sextet)
    ensures DecodeGroups([SixBits(a), SixBits(b), SixBits(c), '=']) == Some([Byte0(a, b), Byte1(b, c)])
  {
    SixBitsRoundTrip(a);
    SixBitsRoundTrip(b);
    SixBitsRoundTrip(c);
  }

  lemma TwicePaddedGroup(a: sextet, b: sextet)
    ensures DecodeGroups([SixBits(a), SixBits(b), '=', '=']) == Some([Byte0(a, b)])
  {
    SixBitsRoundTrip(a);
    SixBitsRoundTrip(b);
  }

  lemma TwoBytesRoundTrip(x: byte, y: byte)
    ensures DecodeGroups(Base64([x, y])) == Some([x, y])
  {
    ThreeBytes(x, y, 0);
    PaddedGroup(Six0(x), Six1(x, y), Six2(y, 0));
  }

  lemma OneByteRoundTrip(x: byte)
    ensures DecodeGroups(Base64([x])) == Some([x])
  {
    ThreeBytes(x, 0, 0);
    TwicePaddedGroup(Six0(x), Six1(x, 0));
  }

  lemma Base64Splits(x: byte, y: byte, z: byte, rest: seq<byte>)
    ensures Base64([x, y, z] + rest) == Quad(Six0(x), Six1(x, y), Six2(y, z), Six3(z)) + Base64(rest)
  {
    var bs := [x, y, z] + rest;
    assert bs[0] == x && bs[1] == y && bs[2] == z && bs[3..] == rest;
  }

  lemma ThreeBytesRoundTrip(x: byte, y: byte, z: byte, rest: seq<byte>)
    requires DecodeGroups(Base64(rest)) == Some(rest)
    ensures DecodeGroups(Base64([x, y, z] + rest)) == Some([x, y, z] + rest)
  {
    Base64Splits(x, y, z, rest);
    ThreeBytes(x, y, z);
    FullGroup(Six0(x), Six1(x, y), Six2(y, z), Six3(z), Base64(rest));
  }

  lemma {:induction false} GroupsRoundTrip(bs: seq<byte>)
    ensures DecodeGroups(Base64(bs)) == Some(bs)
    decreases |bs|
  {
    if |bs| == 1 {
      assert bs == [bs[0]];
      OneByteRoundTrip(bs[0]);
    } else if |bs| == 2 {
      assert bs == [bs[0], bs[1]];
      TwoBytesRoundTrip(bs[0], bs[1]);
    } else if |bs| >= 3 {
      assert bs == [bs[0], bs[1], bs[2]] + bs[3..];
      GroupsRoundTrip(bs[3..]);
      ThreeBytesRoundTrip(bs[0], bs[1], bs[2], bs[3..]);
    }
  }

  predicate HasNoLineBreaks(s: string)
  {
    forall i :: 0 <= i < |s| ==> s[i] != '\n' && s[i] != '\r'
  }

  lemma {:induction false} NothingToStrip(s: string)
    requires HasNoLineBreaks(s)
    ensures WithoutLineBreaks(s) == s
    decreases |s|
  {
    if |s| > 0 {
      NothingToStrip(s[1..]);
    }
  }

  lemma {:induction false} Base64HasNoLineBreaks(bs: seq<byte>)
    ensures HasNoLineBreaks(Base64(bs))
    decreases |bs|
  {
    if |bs| >= 3 {
      Base64HasNoLineBreaks(bs[3..]);
      ThreeBytes(bs[0], bs[1], bs[2]);
    }
  }

  // ------------------------------------------------------------------ the token

  datatype Token = Token(id: Uuid, secret: seq<byte>)

  function EncodeRefreshToken(t: Token): string
  {
    UuidText(t.id) + ":" + Base64(t.secret)
  }

  /** Position of the first colon, or the length of the string. */
  function ColonAt(s: string): (i: nat)
    ensures i <= |s| && (i < |s| ==> s[i] == ':') && ':' !in s[..i]
  {
    if |s| == 0 || s[0] == ':' then 0 else 1 + ColonAt(s[1..])
  }

  function DecodeRefreshToken(s: string): Result<Token>
  {
    var i := ColonAt(s);
    if i == |s| || i == 0 || i >= |s| - 1 then Err("invalid refresh token format")
    else
      match (ParseUuid(s[..i]), DecodeBase64(s[i + 1..]))
      case (Some(id), Some(secret)) => Ok(Token(id, secret))
      case _ => Err("invalid refresh token")
  }

  lemma {:induction false} ColonAfter(head: string, tail: string)
    requires ':' !in head
    ensures ColonAt(head + ":" + tail) == |head|
    decreases |head|
  {
    if |head| > 0 {
      ColonAfter(head[1..], tail);
      assert (head + ":" + tail)[1..] == head[1..] + ":" + tail;
    }
  }

  /** Decoding gives the token back exactly when its secret is not empty. */
  lemma TokenRoundTripIff(t: Token)
    ensures DecodeRefreshToken(EncodeRefreshToken(t)) == Ok(t) <==> t.secret != []
  {
    var head, tail := UuidText(t.id), Base64(t.secret);
    var s := EncodeRefreshToken(t);
    ColonAfter(head, tail);
    assert s[..36] == head && s[37..] == tail;
    UuidRoundTrip(t.id);
    GroupsRoundTrip(t.secret);
    Base64HasNoLineBreaks(t.secret);
    NothingToStrip(tail);
  }

  /** A text without a colon, with nothing before the first one, or with nothing after it, is no token. */
  lemma MalformedIsRejected(s: string, n: nat)
    requires n <= |s| && ':' !in s[..n] && (n == |s| || s[n] == ':')
    ensures n == |s| || n == 0 || n == |s| - 1 ==> DecodeRefreshToken(s).Err?
  {
    var i := ColonAt(s);
    assert forall k :: 0 <= k < i ==> s[k] == s[..i][k];
    assert forall k :: 0 <= k < n ==> s[k] == s[..n][k];
  }

  /** The examples of section 10 of RFC 4648, and the two characters that they leave out. */
  lemma Base64Examples()
    ensures Base64([]) == "" && Base64([0x66]) == "Zg==" && Base64([0x66, 0x6f]) == "Zm8="
    ensures Base64([0x66, 0x6f, 0x6f]) == "Zm9v" && Base64([0x66, 0x6f, 0x6f, 0x62, 0x61, 0x72]) == "Zm9vYmFy"
    ensures Base64([0xfb, 0xff, 0xbf]) == "+/+/"
  {
    assert Base64([0x62, 0x61, 0x72]) == "YmFy";
    assert [0x66, 0x6f, 0x6f, 0x62, 0x61, 0x72][3..] == [0x62, 0x61, 0x72];
  }

  /** The alphabet of table 1 of RFC 4648 in character codes: capital letters, small letters, digits, plus, slash. */
  lemma AlphabetCodes(n: sextet)
    ensures SixBits(n) as int ==
      if n < 26 then 65 + n else if n < 52 then 71 + n else if n < 62 then n - 4 else if n == 62 then 43 else 47
  {
  }

  /** Two small hexadecimal digits for each byte, the high half first. */
  lemma {:induction false} HexTextAt(bs: seq<byte>, i: nat)
    requires i < |bs|
    ensures HexText(bs)[2 * i] as int == (if bs[i] / 16 < 10 then 48 else 87) + bs[i] / 16
    ensures HexText(bs)[2 * i + 1] as int == (if bs[i] % 16 < 10 then 48 else 87) + bs[i] % 16
    decreases |bs|
  {
    if i > 0 {
      HexTextAt(bs[1..], i - 1);
    }
  }

  /** Thirty-two digits in groups of 8, 4, 4, 4 and 12, then a colon and the secret. */
  lemma TokenLayout(t: Token)
    ensures var s := EncodeRefreshToken(t);
      && |s| >= 37 && s[8] == s[13] == s[18] == s[23] == '-' && s[36] == ':' && s[37..] == Base64(t.secret)
      && s[..8] + s[9..13] + s[14..18] + s[19..23] + s[24..36] == HexText(t.id)
  {
    var id, s := t.id, EncodeRefreshToken(t);
    DashPositions(HexText(id[..4]), HexText(id[4..6]), HexText(id[6..8]), HexText(id[8..10]), HexText(id[10..]));
    UuidGroups(id);
    var u := UuidText(id);
    assert s[..36] == u && s[37..] == Base64(t.secret);
    assert s[..8] == u[..8] && s[9..13] == u[9..13] && s[14..18] == u[14..18];
    assert s[19..23] == u[19..23] && s[24..36] == u[24..];
  }
}
