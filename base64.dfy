/**
 * `atob`: the forgiving-base64 decode of the WHATWG Infra standard, over the
 * standard alphabet of section 4 of RFC 4648 (`+` and `/`, not the URL-safe
 * `-` and `_` of section 5).  `Btoa` is the standard padded encoding; it is
 * here as the partner the decoder is proved against.
 */
module Base64 {
  import opened Wrappers
  import Lists

  type Byte = b: int | 0 <= b < 256
  type Sextet = v: int | 0 <= v < 64

  /** The ASCII whitespace the decoder discards: tab, line feed, form feed, carriage return, space. */
  predicate IsAsciiWhitespace(c: char) {
    c == '\t' || c == '\n' || c as int == 12 || c == '\r' || c == ' '
  }

  /** The 64 characters of the standard alphabet. */
  predicate IsAlphabetChar(c: char) {
    'A' <= c <= 'Z' || 'a' <= c <= 'z' || '0' <= c <= '9' || c == '+' || c == '/'
  }

  function ValueOf(c: char): (v: Sextet)
    requires IsAlphabetChar(c)
  {
    if 'A' <= c <= 'Z' then c as int - 'A' as int
    else if 'a' <= c <= 'z' then c as int - 'a' as int + 26
    else if '0' <= c <= '9' then c as int - '0' as int + 52
    else if c == '+' then 62
    else 63
  }

  function CharOf(v: Sextet): (c: char)
    ensures IsAlphabetChar(c) && ValueOf(c) == v
  {
    if v < 26 then ('A' as int + v) as char
    else if v < 52 then ('a' as int + v - 26) as char
    else if v < 62 then ('0' as int + v - 52) as char
    else if v == 62 then '+'
    else '/'
  }

  /** The filter callback keeping every character that is not ASCII whitespace. */
  function NotWhitespace(): char -> bool {
    c => !IsAsciiWhitespace(c)
  }

  /** Step 1 of the decoder: remove all ASCII whitespace, keeping the other characters in order. */
  function StripWhitespace(s: string): (r: string)
    ensures forall c :: c in r <==> c in s && !IsAsciiWhitespace(c)
  {
    if s == [] then []
    else (if IsAsciiWhitespace(s[0]) then [] else [s[0]]) + StripWhitespace(s[1..])
  }

  /** Step 1 is the filter that drops ASCII whitespace: the other characters are all kept,
    * in their order. */
  lemma {:induction false} StripWhitespaceIsFilter(s: string)
    ensures StripWhitespace(s) == Lists.Filter(s, NotWhitespace())
  {
    if s != [] {
      StripWhitespaceIsFilter(s[1..]);
    }
  }

  /** Step 1 keeps exactly the positions that do not hold whitespace, in order. */
  lemma StripWhitespacePositions(s: string) returns (idx: seq<nat>)
    ensures Lists.SelectsFrom(StripWhitespace(s), s, idx)
    ensures forall i :: 0 <= i < |s| ==> (!IsAsciiWhitespace(s[i]) <==> i in idx)
  {
    StripWhitespaceIsFilter(s);
    idx := Lists.FilterPositions(s, NotWhitespace());
  }

  /** Step 2 (applied when the length is a multiple of 4): drop one or two trailing `=`.
    * Only `=` are removed, never more than two, and what remains ends in `=` only when
    * two were removed. */
  function StripPadding(s: string): (r: string)
    ensures |s| - 2 <= |r| <= |s| && r == s[..|r|]
    ensures forall i :: |r| <= i < |s| ==> s[i] == '='
    ensures |r| > |s| - 2 && |r| > 0 ==> r[|r| - 1] != '='
  {
    if |s| >= 2 && s[|s| - 2] == '=' && s[|s| - 1] == '=' then s[..|s| - 2]
    else if |s| >= 1 && s[|s| - 1] == '=' then s[..|s| - 1]
    else s
  }

  /** The padding step removes exactly the trailing `=`, up to two. */
  lemma StripPaddingCases(s: string)
    ensures |s| >= 2 && s[|s| - 2..] == "==" ==> StripPadding(s) == s[..|s| - 2]
    ensures |s| >= 1 && s[|s| - 1] == '=' && !(|s| >= 2 && s[|s| - 2] == '=') ==> StripPadding(s) == s[..|s| - 1]
    ensures |s| == 0 || s[|s| - 1] != '=' ==> StripPadding(s) == s
  {
  }

  /** Six bits per character, eight bits per byte; a trailing group of two or three
    * characters yields one or two bytes and its leftover low bits are discarded. */
  function DecodeSextets(v: seq<Sextet>): seq<Byte>
    requires |v| % 4 != 1
  {
    if |v| == 0 then []
    else
      var a, b, c, d: int := v[0], v[1], if |v| > 2 then v[2] else 0, if |v| > 3 then v[3] else 0;
      if |v| == 2 then [a * 4 + b / 16]
      else if |v| == 3 then [a * 4 + b / 16, (b % 16) * 16 + c / 4]
      else [a * 4 + b / 16, (b % 16) * 16 + c / 4, (c % 4) * 64 + d] + DecodeSextets(v[4..])
  }

  /** Steps 1 and 2 of the decoder: whitespace removed, then padding when the length is a multiple of 4. */
  function Normalize(s: string): string {
    var stripped := StripWhitespace(s);
    if |stripped| % 4 == 0 then StripPadding(stripped) else stripped
  }

  /** Steps 3 to 5: reject a length with remainder 1 or a character outside the alphabet, else decode. */
  function DecodeData(data: string): Option<seq<Byte>> {
    if |data| % 4 == 1 then None
    else if exists i :: 0 <= i < |data| && !IsAlphabetChar(data[i]) then None
    else Some(DecodeSextets(seq(|data|, i requires 0 <= i < |data| => ValueOf(data[i]))))
  }

  /** `atob(s)`: `None` where the browser throws `InvalidCharacterError`.  It fails exactly
    * when the normalized text leaves remainder 1 modulo 4 or holds a character outside
    * the alphabet, and otherwise yields three bytes per four characters. */
  function Atob(s: string): (r: Option<seq<Byte>>)
    ensures var data := Normalize(s);
      r.Some? <==> |data| % 4 != 1 && forall i :: 0 <= i < |data| ==> IsAlphabetChar(data[i])
    ensures var data := Normalize(s);
      r.Some? ==> |r.value| == 3 * (|data| / 4) + (if |data| % 4 == 0 then 0 else |data| % 4 - 1)
  {
    var data := Normalize(s);
    var r := DecodeData(data);
    if r.Some? then
      DecodeShorter(seq(|data|, i requires 0 <= i < |data| => ValueOf(data[i])));
      r
    else r
  }

  /** The sextets of the standard encoding, before the padding is added. */
  function EncodeSextets(b: seq<Byte>): (v: seq<Sextet>)
    ensures |v| == 4 * (|b| / 3) + (if |b| % 3 == 0 then 0 else |b| % 3 + 1)
  {
    if |b| == 0 then []
    else if |b| == 1 then [b[0] / 4, (b[0] % 4) * 16]
    else if |b| == 2 then [b[0] / 4, (b[0] % 4) * 16 + b[1] / 16, (b[1] % 16) * 4]
    else [b[0] / 4, (b[0] % 4) * 16 + b[1] / 16, (b[1] % 16) * 4 + b[2] / 64, b[2] % 64]
         + EncodeSextets(b[3..])
  }

  function Chars(v: seq<Sextet>): (s: string)
    ensures |s| == |v|
    ensures forall i :: 0 <= i < |v| ==> IsAlphabetChar(s[i]) && ValueOf(s[i]) == v[i]
  {
    seq(|v|, i requires 0 <= i < |v| => CharOf(v[i]))
  }

  /** Standard base64 with `=` padding to a multiple of four characters. */
  function Btoa(b: seq<Byte>): string {
    Chars(EncodeSextets(b)) + (if |b| % 3 == 1 then "==" else if |b| % 3 == 2 then "=" else "")
  }

  /** Decoding one full group undoes encoding it. */
  lemma {:induction false} DecodeEncode(b: seq<Byte>)
    ensures |EncodeSextets(b)| % 4 != 1
    ensures DecodeSextets(EncodeSextets(b)) == b
    decreases |b|
  {
    if |b| >= 3 {
      DecodeEncode(b[3..]);
      var v := EncodeSextets(b);
      assert v[4..] == EncodeSextets(b[3..]);
      assert b == b[..3] + b[3..];
    }
  }

  lemma {:induction false} StripWhitespaceKeeps(s: string)
    requires forall i :: 0 <= i < |s| ==> !IsAsciiWhitespace(s[i])
    ensures StripWhitespace(s) == s
  {
    if s != [] {
      StripWhitespaceKeeps(s[1..]);
    }
  }

  /** Every character of an encoding is in the alphabet or is padding. */
  lemma BtoaShape(b: seq<Byte>)
    ensures |Btoa(b)| % 4 == 0
    ensures forall i :: 0 <= i < |Btoa(b)| ==> !IsAsciiWhitespace(Btoa(b)[i])
  {
    var body := Chars(EncodeSextets(b));
    var n := |b|;
    assert |body| == 4 * (n / 3) + (if n % 3 == 0 then 0 else n % 3 + 1);
    forall i | 0 <= i < |Btoa(b)|
      ensures !IsAsciiWhitespace(Btoa(b)[i])
    {
      if i < |body| {
        assert Btoa(b)[i] == body[i];
        assert IsAlphabetChar(body[i]);
      }
    }
  }

  lemma StripPaddingOf(body: string, pad: string)
    requires pad == "" || pad == "=" || pad == "=="
    requires |body| > 0 ==> body[|body| - 1] != '='
    requires pad != "" ==> |body| > 0
    ensures StripPadding(body + pad) == body
  {
    var s := body + pad;
    if pad == "==" {
      assert s[..|s| - 2] == body;
    } else if pad == "=" {
      assert s[|s| - 2] == body[|body| - 1];
      assert s[..|s| - 1] == body;
    } else {
      assert s == body;
    }
  }

  lemma NormalizeEncoded(b: seq<Byte>)
    ensures Normalize(Btoa(b)) == Chars(EncodeSextets(b))
  {
    var body := Chars(EncodeSextets(b));
    var pad := if |b| % 3 == 1 then "==" else if |b| % 3 == 2 then "=" else "";
    var s := Btoa(b);
    assert s == body + pad;
    BtoaShape(b);
    StripWhitespaceKeeps(s);
    if |body| > 0 {
      assert IsAlphabetChar(body[|body| - 1]);
    }
    StripPaddingOf(body, pad);
  }

  lemma DecodeChars(v: seq<Sextet>)
    requires |v| % 4 != 1
    ensures DecodeData(Chars(v)) == Some(DecodeSextets(v))
  {
    var body := Chars(v);
    assert seq(|body|, i requires 0 <= i < |body| => ValueOf(body[i])) == v;
  }

  /** Round trip: `atob(btoa(b)) == b` for every byte string. */
  lemma BtoaRoundTrip(b: seq<Byte>)
    ensures Atob(Btoa(b)) == Some(b)
  {
    NormalizeEncoded(b);
    DecodeEncode(b);
    DecodeChars(EncodeSextets(b));
  }

  /** Decoding never yields more bytes than there were characters. */
  lemma {:induction false} DecodeShorter(v: seq<Sextet>)
    requires |v| % 4 != 1
    ensures |DecodeSextets(v)| == 3 * (|v| / 4) + (if |v| % 4 == 0 then 0 else |v| % 4 - 1)
  {
    if |v| >= 4 {
      DecodeShorter(v[4..]);
    }
  }

  /** A string holding a URL-safe character (`-` or `_`) that no padding or whitespace
    * removal can take away is rejected: the JWT alphabet is not accepted here. */
  lemma UrlSafeCharacterRejected(s: string, i: nat)
    requires i < |s| && (s[i] == '-' || s[i] == '_')
    ensures Atob(s) == None
  {
    var stripped := StripWhitespace(s);
    assert s[i] in s;
    assert s[i] in stripped;
    var k :| 0 <= k < |stripped| && stripped[k] == s[i];
    var data := Normalize(s);
    assert k < |data| && data[k] == s[i] by {
      if |stripped| % 4 == 0 {
        assert stripped[k] != '=';
      }
    }
    assert !IsAlphabetChar(data[k]);
  }

  /** Whitespace-free input whose length leaves remainder 1 modulo 4 is rejected. */
  lemma RemainderOneRejected(s: string)
    requires StripWhitespace(s) == s && |s| % 4 == 1
    ensures Atob(s) == None
  {
  }

}
