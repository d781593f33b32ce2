/** encodeURIComponent and decodeURIComponent of ECMA-262: every code point outside the
    unreserved set is written as the percent-encoded bytes of its UTF-8 form. Dafny's
    `char` is a Unicode scalar value, so the lone-surrogate error of encodeURIComponent
    cannot arise here. */
module UriComponent {
  import opened JsValues

  /** The characters encodeURIComponent leaves alone: letters, digits and -_.!~*'() */
  predicate IsUnreserved(c: char) {
    || ('A' <= c <= 'Z') || ('a' <= c <= 'z') || ('0' <= c <= '9')
    || c == '-' || c == '_' || c == '.' || c == '!' || c == '~' || c == '*'
    || c == '\'' || c == '(' || c == ')'
  }

  function HexDigit(d: nat): char
    requires d < 16
  {
    if d < 10 then ('0' as int + d) as char else ('A' as int + d - 10) as char
  }

  function HexValue(c: char): Option<nat> {
    if '0' <= c <= '9' then Some(c as int - '0' as int)
    else if 'A' <= c <= 'F' then Some(c as int - 'A' as int + 10)
    else if 'a' <= c <= 'f' then Some(c as int - 'a' as int + 10)
    else None
  }

  /** The UTF-8 bytes of a scalar value. */
  function Utf8(c: char): seq<nat> {
    var cp := c as int;
    if cp < 0x80 then [cp]
    else if cp < 0x800 then [0xC0 + cp / 64, 0x80 + cp % 64]
    else if cp < 0x10000 then [0xE0 + cp / 4096, 0x80 + cp / 64 % 64, 0x80 + cp % 64]
    else [0xF0 + cp / 262144, 0x80 + cp / 4096 % 64, 0x80 + cp / 64 % 64, 0x80 + cp % 64]
  }

  function PercentEncode(bytes: seq<nat>): string
    requires forall i :: 0 <= i < |bytes| ==> bytes[i] < 256
  {
    if bytes == [] then ""
    else ['%', HexDigit(bytes[0] / 16), HexDigit(bytes[0] % 16)] + PercentEncode(bytes[1..])
  }

  function EncodeChar(c: char): string {
    if IsUnreserved(c) then [c] else PercentEncode(Utf8(c))
  }

  function EncodeURIComponent(s: string): string {
    if s == [] then "" else EncodeChar(s[0]) + EncodeURIComponent(s[1..])
  }

  // ----- decoding -----

  /** The byte written as `%XY` at the start of `s`. */
  function LeadingByte(s: string): Option<nat> {
    if |s| >= 3 && s[0] == '%' && HexValue(s[1]).Some? && HexValue(s[2]).Some?
    then Some(HexValue(s[1]).value * 16 + HexValue(s[2]).value)
    else None
  }

  /** The `n` percent-encoded bytes at the start of `s`. */
  function LeadingBytes(s: string, n: nat): (r: Option<seq<nat>>)
    ensures r.Some? ==> |r.value| == n && 3 * n <= |s|
  {
    if n == 0 then Some([])
    else match LeadingByte(s)
      case None => None
      case Some(b) =>
        match LeadingBytes(s[3..], n - 1)
        case None => None
        case Some(bs) => Some([b] + bs)
  }

  /** How many bytes a UTF-8 sequence with this leading byte has; 0 if it cannot lead. */
  function SequenceLength(b: nat): nat {
    if b < 0x80 then 1
    else if 0xC0 <= b < 0xE0 then 2
    else if 0xE0 <= b < 0xF0 then 3
    else if 0xF0 <= b < 0xF8 then 4
    else 0
  }

  predicate IsContinuation(b: nat) { 0x80 <= b < 0xC0 }

  predicate IsScalar(cp: int) { 0 <= cp < 0xD800 || 0xE000 <= cp < 0x110000 }

  /** The one code point a well-formed UTF-8 sequence encodes; overlong forms,
      surrogates and values past U+10FFFF are refused. */
  function DecodeUtf8(bs: seq<nat>): Option<char> {
    if |bs| == 1 && bs[0] < 0x80 then Some(bs[0] as char)
    else if |bs| == 2 && 0xC0 <= bs[0] < 0xE0 && IsContinuation(bs[1]) then
      var cp := (bs[0] - 0xC0) * 64 + (bs[1] - 0x80);
      if cp >= 0x80 then Some(cp as char) else None
    else if |bs| == 3 && 0xE0 <= bs[0] < 0xF0 && IsContinuation(bs[1]) && IsContinuation(bs[2]) then
      var cp := (bs[0] - 0xE0) * 4096 + (bs[1] - 0x80) * 64 + (bs[2] - 0x80);
      if cp >= 0x800 && IsScalar(cp) then Some(cp as char) else None
    else if |bs| == 4 && 0xF0 <= bs[0] < 0xF8 && IsContinuation(bs[1]) && IsContinuation(bs[2])
         && IsContinuation(bs[3]) then
      var cp := (bs[0] - 0xF0) * 262144 + (bs[1] - 0x80) * 4096 + (bs[2] - 0x80) * 64 + (bs[3] - 0x80);
      if 0x10000 <= cp < 0x110000 then Some(cp as char) else None
    else None
  }

  /** decodeURIComponent; None stands for the URIError it throws on a malformed escape. */
  function DecodeURIComponent(s: string): Option<string>
    decreases |s|
  {
    if s == [] then Some("")
    else if s[0] != '%' then
      match DecodeURIComponent(s[1..])
      case None => None
      case Some(t) => Some([s[0]] + t)
    else match LeadingByte(s)
      case None => None
      case Some(b) =>
        var n := SequenceLength(b);
        if n == 0 then None
        else match LeadingBytes(s, n)
          case None => None
          case Some(bs) =>
            match DecodeUtf8(bs)
            case None => None
            case Some(c) =>
              match DecodeURIComponent(s[3 * n..])
              case None => None
              case Some(t) => Some([c] + t)
  }

  // ----- properties -----

  lemma HexRoundTrip(d: nat)
    requires d < 16
    ensures HexValue(HexDigit(d)) == Some(d)
  {
  }

  lemma Utf8Bytes(c: char)
    ensures forall i :: 0 <= i < |Utf8(c)| ==> Utf8(c)[i] < 256
    ensures 1 <= |Utf8(c)| <= 4
    ensures SequenceLength(Utf8(c)[0]) == |Utf8(c)|
  {
  }

  lemma {:induction false} PercentEncodeReads(bs: seq<nat>, rest: string)
    requires forall i :: 0 <= i < |bs| ==> bs[i] < 256
    ensures |PercentEncode(bs)| == 3 * |bs|
    ensures LeadingBytes(PercentEncode(bs) + rest, |bs|) == Some(bs)
  {
    if bs != [] {
      var b := bs[0];
      HexRoundTrip(b / 16);
      HexRoundTrip(b % 16);
      PercentEncodeReads(bs[1..], rest);
      var s := PercentEncode(bs) + rest;
      assert s[3..] == PercentEncode(bs[1..]) + rest;
      assert LeadingByte(s) == Some(b);
      assert LeadingBytes(s[3..], |bs| - 1) == Some(bs[1..]);
      assert [b] + bs[1..] == bs;
    }
  }

  lemma Utf8Decodes(c: char)
    ensures DecodeUtf8(Utf8(c)) == Some(c)
  {
    var cp := c as int;
    if cp < 0x80 {
    } else if cp < 0x800 {
      Utf8Decodes2(c);
    } else if cp < 0x10000 {
      Utf8Decodes3(c);
    } else {
      Utf8Decodes4(c);
    }
  }

  lemma Utf8Decodes2(c: char)
    requires 0x80 <= c as int < 0x800
    ensures DecodeUtf8(Utf8(c)) == Some(c)
  {
    var cp := c as int;
    assert (cp / 64) * 64 + cp % 64 == cp;
  }

  lemma Utf8Decodes3(c: char)
    requires 0x800 <= c as int < 0x10000
    ensures DecodeUtf8(Utf8(c)) == Some(c)
  {
    var cp := c as int;
    var b0, b1, b2 := cp / 4096, cp / 64 % 64, cp % 64;
    assert cp / 64 == b0 * 64 + b1;
    assert cp == b0 * 4096 + b1 * 64 + b2;
    assert Utf8(c) == [0xE0 + b0, 0x80 + b1, 0x80 + b2];
  }

  lemma Utf8Decodes4(c: char)
    requires 0x10000 <= c as int
    ensures DecodeUtf8(Utf8(c)) == Some(c)
  {
    var cp := c as int;
    var b0, b1, b2, b3 := cp / 262144, cp / 4096 % 64, cp / 64 % 64, cp % 64;
    assert cp / 64 == (cp / 4096) * 64 + b2;
    assert cp / 4096 == b0 * 64 + b1;
    assert cp == b0 * 262144 + b1 * 4096 + b2 * 64 + b3;
    assert Utf8(c) == [0xF0 + b0, 0x80 + b1, 0x80 + b2, 0x80 + b3];
  }

  lemma EncodeCharDecodes(c: char, rest: string)
    ensures DecodeURIComponent(EncodeChar(c) + rest) ==
      match DecodeURIComponent(rest)
      case None => None
      case Some(t) => Some([c] + t)
  {
    var s := EncodeChar(c) + rest;
    if IsUnreserved(c) {
      assert s[1..] == rest;
    } else {
      var bs := Utf8(c);
      Utf8Bytes(c);
      PercentEncodeReads(bs, rest);
      assert LeadingBytes(s, |bs|) == Some(bs);
      assert LeadingByte(s) == Some(bs[0]);
      Utf8Decodes(c);
      assert s[3 * |bs|..] == rest;
    }
  }

  /** decodeURIComponent undoes encodeURIComponent. */
  lemma {:induction false} DecodeEncode(s: string)
    ensures DecodeURIComponent(EncodeURIComponent(s)) == Some(s)
  {
    if s != [] {
      DecodeEncode(s[1..]);
      EncodeCharDecodes(s[0], EncodeURIComponent(s[1..]));
      assert [s[0]] + s[1..] == s;
    }
  }

  lemma {:induction false} PercentEncodeAlphabet(bs: seq<nat>)
    requires forall i :: 0 <= i < |bs| ==> bs[i] < 256
    ensures forall i :: 0 <= i < |PercentEncode(bs)| ==>
      PercentEncode(bs)[i] == '%' || ('0' <= PercentEncode(bs)[i] <= '9') || ('A' <= PercentEncode(bs)[i] <= 'F')
  {
    if bs != [] {
      PercentEncodeAlphabet(bs[1..]);
    }
  }

  /** The output consists of unreserved characters and the '%' of an escape, so it
      never holds a character that separates parts of a URI ('&', '=', '#', '?', ...). */
  lemma {:induction false} EncodedAlphabet(s: string)
    ensures forall i :: 0 <= i < |EncodeURIComponent(s)| ==>
      IsUnreserved(EncodeURIComponent(s)[i]) || EncodeURIComponent(s)[i] == '%'
  {
    if s != [] {
      EncodedAlphabet(s[1..]);
      Utf8Bytes(s[0]);
      PercentEncodeAlphabet(Utf8(s[0]));
      var e := EncodeURIComponent(s);
      var h := EncodeChar(s[0]);
      assert e == h + EncodeURIComponent(s[1..]);
      forall i | 0 <= i < |e| ensures IsUnreserved(e[i]) || e[i] == '%' {
        if i < |h| { assert e[i] == h[i]; } else { assert e[i] == EncodeURIComponent(s[1..])[i - |h|]; }
      }
    }
  }

  lemma {:induction false} EncodedLength(s: string)
    ensures |EncodeURIComponent(s)| >= |s|
    ensures |EncodeURIComponent(s)| == |s| <==> forall i :: 0 <= i < |s| ==> IsUnreserved(s[i])
  {
    if s != [] {
      EncodedLength(s[1..]);
      if !IsUnreserved(s[0]) {
        Utf8Bytes(s[0]);
        PercentEncodeReads(Utf8(s[0]), "");
      }
      assert forall i :: 1 <= i < |s| ==> s[i] == s[1..][i - 1];
    }
  }

  /** A string passes through unchanged exactly when it holds only unreserved
      characters. */
  lemma EncodeIdentity(s: string)
    ensures EncodeURIComponent(s) == s <==> forall i :: 0 <= i < |s| ==> IsUnreserved(s[i])
  {
    EncodedLength(s);
    if forall i :: 0 <= i < |s| ==> IsUnreserved(s[i]) {
      UnreservedUnchanged(s);
    }
  }

  lemma {:induction false} UnreservedUnchanged(s: string)
    requires forall i :: 0 <= i < |s| ==> IsUnreserved(s[i])
    ensures EncodeURIComponent(s) == s
  {
    if s != [] {
      UnreservedUnchanged(s[1..]);
      assert [s[0]] + s[1..] == s;
    }
  }
}
