/**
 * The browser's btoa, and the decoding it is undone by: base64 with the
 * standard alphabet and '=' padding over the Latin-1 code points of a string.
 */
module Base64 {
  import opened Wrappers

  predicate IsByte(b: int) { 0 <= b < 256 }

  predicate IsSextet(v: int) { 0 <= v < 64 }

  predicate IsBase64Char(c: char) {
    ('A' <= c <= 'Z') || ('a' <= c <= 'z') || ('0' <= c <= '9') || c == '+' || c == '/'
  }

  function CharValue(c: char): (v: int)
    requires IsBase64Char(c)
    ensures IsSextet(v)
  {
    if 'A' <= c <= 'Z' then c as int - 'A' as int
    else if 'a' <= c <= 'z' then c as int - 'a' as int + 26
    else if '0' <= c <= '9' then c as int - '0' as int + 52
    else if c == '+' then 62 else 63
  }

  /** The base64 alphabet: A-Z, a-z, 0-9, '+', '/'. */
  function Base64Char(v: int): (c: char)
    requires IsSextet(v)
    ensures IsBase64Char(c) && CharValue(c) == v
  {
    if v < 26 then ('A' as int + v) as char
    else if v < 52 then ('a' as int + v - 26) as char
    else if v < 62 then ('0' as int + v - 52) as char
    else if v == 62 then '+' else '/'
  }

  ghost predicate AllBytes(bytes: seq<int>) {
    forall i :: 0 <= i < |bytes| ==> IsByte(bytes[i])
  }

  ghost predicate AllSextets(v: seq<int>) {
    forall i :: 0 <= i < |v| ==> IsSextet(v[i])
  }

  /** Every three bytes become four 6-bit digits; a final one or two bytes become two or three. */
  function Sextets(bytes: seq<int>): (r: seq<int>)
    requires AllBytes(bytes)
    ensures AllSextets(r)
    ensures |r| >= |bytes|
    decreases |bytes|
  {
    if |bytes| == 0 then []
    else if |bytes| == 1 then [bytes[0] / 4, (bytes[0] % 4) * 16]
    else if |bytes| == 2 then [bytes[0] / 4, (bytes[0] % 4) * 16 + bytes[1] / 16, (bytes[1] % 16) * 4]
    else
      GroupDigits(bytes[0], bytes[1], bytes[2]) + Sextets(bytes[3..])
  }

  /** Every four digits become three bytes; a final two or three digits become one or two. */
  function Unsextets(v: seq<int>): (r: seq<int>)
    requires AllSextets(v)
    decreases |v|
  {
    if |v| < 2 then []
    else if |v| == 2 then [v[0] * 4 + v[1] / 16]
    else if |v| == 3 then [v[0] * 4 + v[1] / 16, (v[1] % 16) * 16 + v[2] / 4]
    else [v[0] * 4 + v[1] / 16, (v[1] % 16) * 16 + v[2] / 4, (v[2] % 4) * 64 + v[3]] + Unsextets(v[4..])
  }

  /** The bit arithmetic of one group undoes itself. */
  lemma GroupBits(b0: int, b1: int, b2: int)
    requires IsByte(b0) && IsByte(b1) && IsByte(b2)
    ensures (b0 / 4) * 4 + ((b0 % 4) * 16 + b1 / 16) / 16 == b0
    ensures (((b0 % 4) * 16 + b1 / 16) % 16) * 16 + ((b1 % 16) * 4 + b2 / 64) / 4 == b1
    ensures (((b1 % 16) * 4 + b2 / 64) % 4) * 64 + b2 % 64 == b2
  {
    var c1 := (b0 % 4) * 16 + b1 / 16;
    var c2 := (b1 % 16) * 4 + b2 / 64;
    assert c1 / 16 == b0 % 4 && c1 % 16 == b1 / 16;
    assert c2 / 4 == b1 % 16 && c2 % 4 == b2 / 64;
  }

  lemma {:induction false} SextetsRoundTrip(bytes: seq<int>)
    requires AllBytes(bytes)
    ensures Unsextets(Sextets(bytes)) == bytes
    decreases |bytes|
  {
    if |bytes| == 1 {
      GroupBits(bytes[0], 0, 0);
    } else if |bytes| == 2 {
      GroupBits(bytes[0], bytes[1], 0);
    } else if |bytes| > 2 {
      GroupRoundTrip(bytes[0], bytes[1], bytes[2], Sextets(bytes[3..]));
      SextetsRoundTrip(bytes[3..]);
      assert bytes == [bytes[0], bytes[1], bytes[2]] + bytes[3..];
    }
  }

  /** The four digits of three bytes. */
  function GroupDigits(b0: int, b1: int, b2: int): seq<int>
  {
    [b0 / 4, (b0 % 4) * 16 + b1 / 16, (b1 % 16) * 4 + b2 / 64, b2 % 64]
  }

  /** The four digits of three bytes, ahead of other digits, decode to those bytes ahead of the others' decoding. */
  lemma GroupRoundTrip(b0: int, b1: int, b2: int, rest: seq<int>)
    requires IsByte(b0) && IsByte(b1) && IsByte(b2) && AllSextets(rest)
    ensures AllSextets(GroupDigits(b0, b1, b2) + rest)
    ensures Unsextets(GroupDigits(b0, b1, b2) + rest) == [b0, b1, b2] + Unsextets(rest)
  {
    var v := GroupDigits(b0, b1, b2) + rest;
    assert v[4..] == rest;
    GroupBits(b0, b1, b2);
  }

  /** The digits of the sextets. */
  function Digits(v: seq<int>): (r: string)
    requires AllSextets(v)
    ensures |r| == |v|
    ensures forall i :: 0 <= i < |r| ==> IsBase64Char(r[i]) && CharValue(r[i]) == v[i]
  {
    seq(|v|, i requires 0 <= i < |v| => Base64Char(v[i]))
  }

  /** The sextets of base64 digits. */
  function Values(s: string): (r: seq<int>)
    requires forall i :: 0 <= i < |s| ==> IsBase64Char(s[i])
    ensures |r| == |s| && AllSextets(r)
    ensures forall i :: 0 <= i < |r| ==> r[i] == CharValue(s[i])
  {
    seq(|s|, i requires 0 <= i < |s| => CharValue(s[i]))
  }

  /** '=' characters completing the last group of four. */
  function Padding(n: nat): (r: string)
    ensures |r| <= 2
    ensures forall i :: 0 <= i < |r| ==> r[i] == '='
  {
    if n % 3 == 1 then "==" else if n % 3 == 2 then "=" else ""
  }

  /** Base64 of a byte string, padded. */
  function Encode(bytes: seq<int>): (r: string)
    requires AllBytes(bytes)
  {
    Digits(Sextets(bytes)) + Padding(|bytes|)
  }

  /** Up to two trailing '=' removed. */
  function StripPadding(s: string): (r: string)
    ensures |r| <= |s| && r == s[..|r|]
  {
    if |s| >= 2 && s[|s| - 2] == '=' && s[|s| - 1] == '=' then s[..|s| - 2]
    else if |s| >= 1 && s[|s| - 1] == '=' then s[..|s| - 1]
    else s
  }

  /** Base64 decoding: None when a character outside the alphabet remains once the padding is removed. */
  function Decode(s: string): (r: Option<seq<int>>)
    ensures r.Some? <==> forall i :: 0 <= i < |StripPadding(s)| ==> IsBase64Char(StripPadding(s)[i])
  {
    var body := StripPadding(s);
    if forall i :: 0 <= i < |body| ==> IsBase64Char(body[i]) then Some(Unsextets(Values(body))) else None
  }

  lemma StripEncoded(bytes: seq<int>)
    requires AllBytes(bytes)
    ensures StripPadding(Encode(bytes)) == Digits(Sextets(bytes))
  {
    var v := Sextets(bytes);
    if |v| > 0 {
      LastDigitNotPad(v);
    }
    StripAppended(Digits(v), Padding(|bytes|));
  }

  /** The last digit is never the padding character. */
  lemma LastDigitNotPad(v: seq<int>)
    requires AllSextets(v) && |v| > 0
    ensures Digits(v)[|v| - 1] != '='
  {
    assert IsBase64Char(Digits(v)[|v| - 1]);
  }

  /** At most two '=' after a string not ending in '=' are exactly what StripPadding removes. */
  lemma StripAppended(d: string, p: string)
    requires |d| > 0 ==> d[|d| - 1] != '='
    requires |p| <= 2 && forall i :: 0 <= i < |p| ==> p[i] == '='
    ensures StripPadding(d + p) == d
  {
    var s := d + p;
    if |p| == 2 {
      assert s[|s| - 2] == '=' && s[|s| - 1] == '=';
      assert s[..|s| - 2] == d;
    } else if |p| == 1 {
      assert s[|s| - 1] == '=';
      assert |d| > 0 ==> s[|s| - 2] == d[|d| - 1];
      assert s[..|s| - 1] == d;
    } else {
      assert s == d;
    }
  }

  /** Decoding what Encode produced gives back the bytes. */
  lemma EncodeDecode(bytes: seq<int>)
    requires AllBytes(bytes)
    ensures Decode(Encode(bytes)) == Some(bytes)
  {
    StripEncoded(bytes);
    var d := Digits(Sextets(bytes));
    assert Values(d) == Sextets(bytes);
    SextetsRoundTrip(bytes);
  }

  /** The Latin-1 code points of a string, or None when some character is above U+00FF. */
  function Latin1(s: string): (r: Option<seq<int>>)
    ensures r.Some? <==> forall i :: 0 <= i < |s| ==> s[i] as int < 256
    ensures r.Some? ==> |r.value| == |s| && forall i :: 0 <= i < |s| ==> r.value[i] == s[i] as int
  {
    if s == [] then Some([])
    else
      var rest := Latin1(s[1..]);
      if s[0] as int < 256 && rest.Some? then Some([s[0] as int] + rest.value) else None
  }

  /** btoa: base64 of the string's Latin-1 code points; None stands for the InvalidCharacterError it throws. */
  function Btoa(s: string): (r: Option<string>)
    ensures r.Some? <==> forall i :: 0 <= i < |s| ==> s[i] as int < 256
  {
    var bytes := Latin1(s);
    if bytes.Some? then Some(Encode(bytes.value)) else None
  }

  /** btoa is undone by decoding: the code points of the string come back. */
  lemma BtoaDecode(s: string)
    requires forall i :: 0 <= i < |s| ==> s[i] as int < 256
    ensures Btoa(s).Some? && Decode(Btoa(s).value) == Latin1(s)
  {
    EncodeDecode(Latin1(s).value);
  }
}
