/** The two URL codecs: UrlCode of url_en_decode.cpp, whose decoder lets malformed escapes through, and the
    functions of url_encrypt.cpp, whose decoder asserts on them.  Escapes are those of section 2.1 of
    RFC 3986, with '+' for a space as in section 17.13.4.1 of HTML 4.01.  Character classes are ASCII. */
module UrlCodec {
  import opened Bytes
  import opened Wrappers

  const SPACE: byte := 0x20
  const PERCENT: byte := 0x25
  const PLUS: byte := 0x2B
  const INT_LIMIT: nat := 0x8000_0000
  const UINT_LIMIT: nat := 0x1_0000_0000

  predicate Digit(c: byte) { 0x30 <= c <= 0x39 }
  predicate Upper(c: byte) { 0x41 <= c <= 0x5A }
  predicate Lower(c: byte) { 0x61 <= c <= 0x7A }
  predicate Alnum(c: byte) { Digit(c) || Upper(c) || Lower(c) }
  predicate HexDigit(c: byte) { Digit(c) || 0x41 <= c <= 0x46 || 0x61 <= c <= 0x66 }

  /** The value of a hexadecimal digit. */
  function HexValue(c: byte): (v: nat)
    requires HexDigit(c)
    ensures v < 16
  {
    if Digit(c) then c - 0x30 else if Upper(c) then c - 0x41 + 10 else c - 0x61 + 10
  }

  /** What the conversion makes of any character. */
  function CharValue(c: byte): int {
    if Digit(c) then c - 0x30 else if Upper(c) then c - 0x41 + 10 else c - 0x61 + 10
  }

  function HexChar(x: nat): (c: byte)
    requires x < 16
    ensures HexDigit(c) && HexValue(c) == x
  {
    if x > 9 then x + 55 else x + 48
  }

  // ---------------------------------------------------------------- what is encoded and decoded

  /** The unreserved characters that each encoder leaves as they are. */
  predicate KeptByForm(c: byte) { Alnum(c) || c == 0x2D || c == 0x2E || c == 0x5F }

  predicate KeptByUri(c: byte) { KeptByForm(c) || c == 0x7E }

  function EncodedByte(keep: byte -> bool, c: byte): seq<byte> {
    if keep(c) then [c] else if c == SPACE then [PLUS] else [PERCENT, HexChar(c / 16), HexChar(c % 16)]
  }

  /** Character by character: letters, digits and '-', '.', '_' stay, the second encoder keeps '~' too, a space becomes
      '+', and all others become '%' and two digits. */
  lemma {:induction false} EncodedByteAs(c: byte, tilde: bool)
    ensures var digits: seq<byte> := [0x30, 0x31, 0x32, 0x33, 0x34, 0x35, 0x36, 0x37, 0x38, 0x39,
                                      0x41, 0x42, 0x43, 0x44, 0x45, 0x46];
      EncodedByte(if tilde then KeptByUri else KeptByForm, c) ==
        if 0x41 <= c <= 0x5A || 0x61 <= c <= 0x7A || 0x30 <= c <= 0x39 || c == 0x2D || c == 0x2E || c == 0x5F
           || (tilde && c == 0x7E) then [c]
        else if c == 0x20 then [0x2B]
        else [0x25, digits[c / 16], digits[c % 16]]
  {
    var digits: seq<byte> := [0x30, 0x31, 0x32, 0x33, 0x34, 0x35, 0x36, 0x37, 0x38, 0x39,
                              0x41, 0x42, 0x43, 0x44, 0x45, 0x46];
    assert HexChar(c / 16) == digits[c / 16] && HexChar(c % 16) == digits[c % 16];
  }

  function Encoded(keep: byte -> bool, s: seq<byte>): seq<byte> {
    if s == [] then [] else EncodedByte(keep, s[0]) + Encoded(keep, s[1..])
  }

  /** s starts with '%' and two hexadecimal digits. */
  predicate Escape(s: seq<byte>) { |s| >= 3 && s[0] == PERCENT && HexDigit(s[1]) && HexDigit(s[2]) }

  function LenientDecoded(s: seq<byte>): seq<byte> {
    if s == [] then []
    else if s[0] == PLUS then [SPACE] + LenientDecoded(s[1..])
    else if Escape(s) then [HexValue(s[1]) * 16 + HexValue(s[2])] + LenientDecoded(s[3..])
    else [s[0]] + LenientDecoded(s[1..])
  }

  /** Letters beyond F are taken for digits worth up to 35; anything else trips the assert. */
  function AnyHexValue(c: byte): Option<nat> {
    if Upper(c) then Some(c - 0x41 + 10) else if Lower(c) then Some(c - 0x61 + 10)
    else if Digit(c) then Some(c - 0x30) else None
  }

  /** None when the source's assert fails. */
  function StrictDecoded(s: seq<byte>): Option<seq<byte>> {
    if s == [] then Some([])
    else if s[0] == PERCENT then
      if |s| < 3 || AnyHexValue(s[1]).None? || AnyHexValue(s[2]).None? then None
      else Prefixed([(AnyHexValue(s[1]).value * 16 + AnyHexValue(s[2]).value) % 256], StrictDecoded(s[3..]))
    else Prefixed([if s[0] == PLUS then SPACE else s[0]], StrictDecoded(s[1..]))
  }

  function Prefixed(a: seq<byte>, r: Option<seq<byte>>): Option<seq<byte>> {
    if r.None? then None else Some(a + r.value)
  }

  /** Every '%' that a decoder meets starts an escape. */
  predicate WellEscaped(s: seq<byte>) {
    s == [] || (if s[0] == PERCENT then Escape(s) && WellEscaped(s[3..]) else WellEscaped(s[1..]))
  }

  // ---------------------------------------------------------------- the round trips

  lemma DecodeOnePlain(c: byte, rest: seq<byte>)
    requires c != PERCENT
    ensures var b: byte := if c == PLUS then SPACE else c;
      && LenientDecoded([c] + rest) == [b] + LenientDecoded(rest)
      && StrictDecoded([c] + rest) == Prefixed([b], StrictDecoded(rest))
    ensures WellEscaped([c] + rest) == WellEscaped(rest)
  {
    assert ([c] + rest)[1..] == rest;
  }

  lemma DecodeOneEscape(c: byte, rest: seq<byte>)
    ensures var e: seq<byte> := [PERCENT, HexChar(c / 16), HexChar(c % 16)];
      && LenientDecoded(e + rest) == [c] + LenientDecoded(rest)
      && StrictDecoded(e + rest) == Prefixed([c], StrictDecoded(rest))
      && WellEscaped(e + rest) == WellEscaped(rest)
  {
    var e: seq<byte> := [PERCENT, HexChar(c / 16), HexChar(c % 16)];
    assert (e + rest)[3..] == rest;
    assert c / 16 * 16 + c % 16 == c;
  }

  lemma DecodeOneByte(keep: byte -> bool, c: byte, rest: seq<byte>)
    requires !keep(PERCENT) && !keep(PLUS)
    ensures LenientDecoded(EncodedByte(keep, c) + rest) == [c] + LenientDecoded(rest)
    ensures StrictDecoded(EncodedByte(keep, c) + rest) == Prefixed([c], StrictDecoded(rest))
    ensures WellEscaped(EncodedByte(keep, c) + rest) == WellEscaped(rest)
  {
    hide LenientDecoded, StrictDecoded, WellEscaped, HexChar;
    if keep(c) {
      DecodeOnePlain(c, rest);
    } else if c == SPACE {
      DecodeOnePlain(PLUS, rest);
    } else {
      DecodeOneEscape(c, rest);
    }
  }

  /** Either decoder undoes any encoder that escapes '%' and '+'; the strict one never asserts. */
  lemma {:induction false} RoundTrip(keep: byte -> bool, s: seq<byte>)
    requires !keep(PERCENT) && !keep(PLUS)
    ensures LenientDecoded(Encoded(keep, s)) == s
    ensures StrictDecoded(Encoded(keep, s)) == Some(s)
    ensures WellEscaped(Encoded(keep, s))
  {
    if s == [] {
    } else {
      DecodeOneByte(keep, s[0], Encoded(keep, s[1..]));
      RoundTrip(keep, s[1..]);
      assert [s[0]] + s[1..] == s;
    }
  }

  lemma {:induction false} StrictNoLonger(s: seq<byte>)
    requires StrictDecoded(s).Some?
    ensures |StrictDecoded(s).value| <= |LenientDecoded(s)|
    ensures !WellEscaped(s) ==> |StrictDecoded(s).value| < |LenientDecoded(s)|
  {
    if s == [] {
    } else if s[0] == PERCENT && !Escape(s) {
      StrictNoLonger(s[3..]);
      assert s[1..][1..] == s[2..] && s[2..][1..] == s[3..];
      assert LenientDecoded(s) == [PERCENT] + LenientDecoded(s[1..]);
      assert LenientDecoded(s[1..]) == [s[1]] + LenientDecoded(s[2..]);
      assert LenientDecoded(s[2..]) == [s[2]] + LenientDecoded(s[3..]);
    } else {
      StrictNoLonger(if s[0] == PERCENT then s[3..] else s[1..]);
    }
  }

  lemma {:induction false} WellEscapedAgrees(s: seq<byte>)
    requires WellEscaped(s)
    ensures StrictDecoded(s) == Some(LenientDecoded(s))
  {
    if s == [] {
    } else {
      WellEscapedAgrees(if s[0] == PERCENT then s[3..] else s[1..]);
    }
  }

  /** On any input the two decoders give the same bytes exactly when every '%' starts an escape. */
  lemma DecodersAgreeIff(s: seq<byte>)
    ensures StrictDecoded(s) == Some(LenientDecoded(s)) <==> WellEscaped(s)
  {
    if WellEscaped(s) { WellEscapedAgrees(s); }
    else if StrictDecoded(s).Some? { StrictNoLonger(s); }
  }

  /** Bytes that may stand in a query string as they are. */
  predicate UrlSafe(c: byte) { KeptByUri(c) || c == PERCENT || c == PLUS }

  lemma {:induction false} EncodedIsSafe(keep: byte -> bool, s: seq<byte>)
    requires forall c :: keep(c) ==> UrlSafe(c)
    ensures forall i | 0 <= i < |Encoded(keep, s)| :: UrlSafe(Encoded(keep, s)[i])
  {
    if s == [] {
    } else {
      EncodedIsSafe(keep, s[1..]);
    }
  }

  // ---------------------------------------------------------------- the four functions

  lemma EncodedFrom(keep: byte -> bool, s: seq<byte>, i: nat, done: seq<byte>)
    requires i < |s|
    ensures done + EncodedByte(keep, s[i]) + Encoded(keep, s[i + 1..]) == done + Encoded(keep, s[i..])
  {
    assert s[i..][1..] == s[i + 1..];
    hide EncodedByte;
    var a, b := EncodedByte(keep, s[i]), Encoded(keep, s[i + 1..]);
    assert done + a + b == done + (a + b);
  }

  lemma LenientFrom(s: seq<byte>, i: nat, done: seq<byte>)
    requires i < |s|
    ensures done + LenientDecoded(s[i..]) ==
      if s[i] == PLUS then done + [SPACE] + LenientDecoded(s[i + 1..])
      else if s[i] == PERCENT && i + 2 < |s| && HexDigit(s[i + 1]) && HexDigit(s[i + 2]) then
        done + [HexValue(s[i + 1]) * 16 + HexValue(s[i + 2])] + LenientDecoded(s[i + 3..])
      else done + [s[i]] + LenientDecoded(s[i + 1..])
  {
    assert s[i..][1..] == s[i + 1..];
    assert i + 2 < |s| ==> s[i..][3..] == s[i + 3..];
  }

  lemma StrictFrom(s: seq<byte>, i: nat, done: seq<byte>)
    requires i < |s|
    ensures Prefixed(done, StrictDecoded(s[i..])) ==
      if s[i] == PERCENT then
        if i + 2 >= |s| || AnyHexValue(s[i + 1]).None? || AnyHexValue(s[i + 2]).None? then None
        else
          var b: byte := (AnyHexValue(s[i + 1]).value * 16 + AnyHexValue(s[i + 2]).value) % 256;
          Prefixed(done + [b], StrictDecoded(s[i + 3..]))
      else Prefixed(done + [if s[i] == PLUS then SPACE else s[i]], StrictDecoded(s[i + 1..]))
  {
    assert s[i..][1..] == s[i + 1..];
    assert i + 2 < |s| ==> s[i..][3..] == s[i + 3..];
    if i + 2 < |s| && s[i] == PERCENT && AnyHexValue(s[i + 1]).Some? && AnyHexValue(s[i + 2]).Some? {
      var b: byte := (AnyHexValue(s[i + 1]).value * 16 + AnyHexValue(s[i + 2]).value) % 256;
      PrefixedTwice(done, [b], StrictDecoded(s[i + 3..]));
    } else if s[i] != PERCENT {
      PrefixedTwice(done, [if s[i] == PLUS then SPACE else s[i]], StrictDecoded(s[i + 1..]));
    }
  }

  lemma PrefixedTwice(a: seq<byte>, b: seq<byte>, r: Option<seq<byte>>)
    ensures Prefixed(a, Prefixed(b, r)) == Prefixed(a + b, r)
  {
    if r.Some? { assert a + (b + r.value) == a + b + r.value; }
  }

  class UrlCode {

    /** Its one caller passes hexadecimal digits. */
    static method PhpHtoi(s: seq<byte>) returns (value: int)
      requires |s| >= 2
      ensures value == CharValue(s[0]) * 16 + CharValue(s[1])
      ensures HexDigit(s[0]) && HexDigit(s[1]) ==> value == HexValue(s[0]) * 16 + HexValue(s[1])
    {
      var c: int := s[0];
      if Upper(c) { c := c + 32; }
      value := (if 0x30 <= c <= 0x39 then c - 0x30 else c - 0x61 + 10) * 16;
      c := s[1];
      if Upper(c) { c := c + 32; }
      value := value + (if 0x30 <= c <= 0x39 then c - 0x30 else c - 0x61 + 10);
    }

    static method Encode(src: seq<byte>) returns (dst: seq<byte>)
      ensures dst == Encoded(KeptByForm, src)
    {
      hide Encoded;
      dst := [];
      EncodedEnds(KeptByForm, src);
      for i := 0 to |src|
        invariant dst + Encoded(KeptByForm, src[i..]) == Encoded(KeptByForm, src)
      {
        EncodedFrom(KeptByForm, src, i, dst);
        var c := src[i];
        if c == SPACE {
          dst := dst + [PLUS];
        } else if || (c < 0x30 && c != 0x2D && c != 0x2E)
                  || (c < 0x41 && c > 0x39)
                  || (c > 0x5A && c < 0x61 && c != 0x5F)
                  || c > 0x7A {
          dst := dst + [PERCENT, HexChar(c / 16), HexChar(c % 16)];
        } else {
          dst := dst + [c];
        }
      }
    }

    /** None when the length, kept in an int, comes out negative: then the source reads past the end. */
    static method Decode(src: seq<byte>) returns (dst: Option<seq<byte>>)
      ensures dst == IntDecoded(src)
    {
      if |src| % UINT_LIMIT >= INT_LIMIT { return None; }
      var len: nat, data: nat := |src| % UINT_LIMIT, 0;
      ghost var s := src[..len];
      var out: seq<byte> := [];
      assert s[data..] == s;
      while len != 0
        invariant data + len == |s|
        invariant out + LenientDecoded(s[data..]) == LenientDecoded(s)
      {
        LenientFrom(s, data, out);
        hide LenientDecoded;
        len := len - 1;
        if src[data] == PLUS {
          out := out + [SPACE];
        } else if src[data] == PERCENT && len >= 2 && HexDigit(src[data + 1]) && HexDigit(src[data + 2]) {
          var b := PhpHtoi(src[data + 1..]);
          out := out + [b];
          data := data + 2;
          len := len - 2;
        } else {
          out := out + [src[data]];
        }
        data := data + 1;
      }
      assert s[data..] == [] && out + [] == out;
      dst := Some(out);
    }
  }

  /** What the lenient decoder makes of a string whose length it keeps in an int of 32 bits. */
  function IntDecoded(src: seq<byte>): Option<seq<byte>> {
    var len := |src| % UINT_LIMIT;
    if len < INT_LIMIT then Some(LenientDecoded(src[..len])) else None
  }

  lemma {:induction false} LenientNoLonger(s: seq<byte>)
    ensures |LenientDecoded(s)| <= |s|
  {
    if s == [] {
    } else {
      LenientNoLonger(if Escape(s) then s[3..] else s[1..]);
    }
  }

  lemma {:induction false} EncodedAtMostThrice(keep: byte -> bool, s: seq<byte>)
    ensures |Encoded(keep, s)| <= 3 * |s|
  {
    if s == [] {
    } else {
      EncodedAtMostThrice(keep, s[1..]);
    }
  }

  /** A length that has wrapped is less than a third of what it was. */
  lemma WrappedLength(encoded: nat, plain: nat)
    requires INT_LIMIT <= encoded <= 3 * plain && encoded % UINT_LIMIT < INT_LIMIT
    ensures encoded % UINT_LIMIT < plain
  {
    var len := encoded % UINT_LIMIT;
    assert encoded >= UINT_LIMIT + len;
  }

  lemma ShortLength(len: nat)
    requires len < INT_LIMIT
    ensures len % UINT_LIMIT == len
  {}

  lemma IntDecodedShort(e: seq<byte>)
    requires |e| < INT_LIMIT
    ensures IntDecoded(e) == Some(LenientDecoded(e))
  {
    ShortLength(|e|);
    var len := |e| % UINT_LIMIT;
    assert e[..len] == e;
    hide LenientDecoded;
    assert IntDecoded(e) == Some(LenientDecoded(e[..len]));
  }

  lemma IntDecodedLong(e: seq<byte>, plain: nat)
    requires INT_LIMIT <= |e| <= 3 * plain
    ensures IntDecoded(e).Some? ==> |IntDecoded(e).value| < plain
  {
    var len := |e| % UINT_LIMIT;
    hide LenientDecoded;
    if len < INT_LIMIT {
      LenientNoLonger(e[..len]);
      WrappedLength(|e|, plain);
    }
  }

  /** The encoded text comes back exactly when its length fits the int. */
  lemma {:induction false} IntRoundTripIff(s: seq<byte>)
    ensures IntDecoded(Encoded(KeptByForm, s)) == Some(s) <==> |Encoded(KeptByForm, s)| < INT_LIMIT
  {
    var e := Encoded(KeptByForm, s);
    RoundTrip(KeptByForm, s);
    EncodedAtMostThrice(KeptByForm, s);
    hide Encoded, LenientDecoded, StrictDecoded, WellEscaped, IntDecoded;
    if |e| < INT_LIMIT {
      IntDecodedShort(e);
    } else {
      IntDecodedLong(e, |s|);
    }
  }

  lemma EncodedEnds(keep: byte -> bool, s: seq<byte>)
    ensures s[0..] == s && [] + Encoded(keep, s) == Encoded(keep, s)
    ensures Encoded(keep, s[|s|..]) == []
  {}

  method FromHex(x: byte) returns (y: Option<nat>)
    ensures y == AnyHexValue(x)
  {
    if Upper(x) { y := Some(x - 0x41 + 10); }
    else if Lower(x) { y := Some(x - 0x61 + 10); }
    else if Digit(x) { y := Some(x - 0x30); }
    else { y := None; }
  }

  method UriEncode(str: seq<byte>) returns (text: seq<byte>)
    ensures text == Encoded(KeptByUri, str)
  {
    hide Encoded;
    text := [];
    EncodedEnds(KeptByUri, str);
    for i := 0 to |str|
      invariant text + Encoded(KeptByUri, str[i..]) == Encoded(KeptByUri, str)
    {
      EncodedFrom(KeptByUri, str, i, text);
      var c := str[i];
      if Alnum(c) || c == 0x2D || c == 0x5F || c == 0x2E || c == 0x7E {
        text := text + [c];
      } else if c == SPACE {
        text := text + [PLUS];
      } else {
        text := text + [PERCENT, HexChar(c / 16), HexChar(c % 16)];
      }
    }
  }

  /** None when an assert fails. */
  method UriDecode(str: seq<byte>) returns (text: Option<seq<byte>>)
    ensures text == StrictDecoded(str)
  {
    var out: seq<byte> := [];
    var i: nat := 0;
    assert str[i..] == str;
    assert Prefixed([], StrictDecoded(str)) == StrictDecoded(str) by {
      if StrictDecoded(str).Some? { assert [] + StrictDecoded(str).value == StrictDecoded(str).value; }
    }
    while i < |str|
      invariant i <= |str|
      invariant Prefixed(out, StrictDecoded(str[i..])) == StrictDecoded(str)
    {
      StrictFrom(str, i, out);
      hide StrictDecoded;
      if str[i] == PLUS {
        out := out + [SPACE];
      } else if str[i] == PERCENT {
        if i + 2 >= |str| { return None; }
        i := i + 1;
        var high := FromHex(str[i]);
        if high.None? { return None; }
        i := i + 1;
        var low := FromHex(str[i]);
        if low.None? { return None; }
        out := out + [(high.value * 16 + low.value) % 256];
      } else {
        out := out + [str[i]];
      }
      i := i + 1;
    }
    assert out + [] == out;
    text := Some(out);
  }

  /** For every byte string, each decoder applied to each encoder's output gives the string back, and the
      output can stand in a query. */
  lemma {:induction false} EveryPairRoundTrips(s: seq<byte>)
    ensures LenientDecoded(Encoded(KeptByForm, s)) == s && LenientDecoded(Encoded(KeptByUri, s)) == s
    ensures StrictDecoded(Encoded(KeptByForm, s)) == Some(s) && StrictDecoded(Encoded(KeptByUri, s)) == Some(s)
    ensures forall i | 0 <= i < |Encoded(KeptByForm, s)| :: UrlSafe(Encoded(KeptByForm, s)[i])
    ensures forall i | 0 <= i < |Encoded(KeptByUri, s)| :: UrlSafe(Encoded(KeptByUri, s)[i])
  {
    RoundTrip(KeptByForm, s);
    RoundTrip(KeptByUri, s);
    EncodedIsSafe(KeptByForm, s);
    EncodedIsSafe(KeptByUri, s);
  }
}
