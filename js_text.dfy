/** The JavaScript string built-ins the storefront relies on, written out:
    `String.prototype.trim`, `String.prototype.toUpperCase` (ASCII letters only)
    and `encodeURIComponent`. */
module JsText {

  /** The characters `trim` removes: ECMAScript WhiteSpace (tab, vertical tab,
      form feed, space, no-break space, byte-order mark and the other space
      separators) and LineTerminator (LF, CR, line and paragraph separators). */
  predicate IsWhitespace(c: char) {
    || c == '\t' || c == '\U{000B}' || c == '\U{000C}' || c == ' '
    || c == '\U{00A0}' || c == '\U{FEFF}' || c == '\U{1680}'
    || ('\U{2000}' <= c <= '\U{200A}')
    || c == '\U{202F}' || c == '\U{205F}' || c == '\U{3000}'
    || c == '\n' || c == '\r' || c == '\U{2028}' || c == '\U{2029}'
  }

  /** Number of whitespace characters at the start of `s`. */
  function LeadingSpaces(s: string): (n: nat)
    ensures n <= |s|
    ensures forall k | 0 <= k < n :: IsWhitespace(s[k])
    ensures n < |s| ==> !IsWhitespace(s[n])
  {
    if |s| > 0 && IsWhitespace(s[0]) then 1 + LeadingSpaces(s[1..]) else 0
  }

  /** Number of whitespace characters at the end of `s`. */
  function TrailingSpaces(s: string): (n: nat)
    ensures n <= |s|
    ensures forall k | |s| - n <= k < |s| :: IsWhitespace(s[k])
    ensures n < |s| ==> !IsWhitespace(s[|s| - 1 - n])
  {
    if |s| > 0 && IsWhitespace(s[|s| - 1]) then 1 + TrailingSpaces(s[..|s| - 1]) else 0
  }

  /** `s.trim()`: the empty string exactly when `s` is all whitespace, and
      otherwise a string that starts and ends with a non-whitespace character. */
  function Trim(s: string): (r: string)
    ensures |r| <= |s|
    ensures r == "" <==> forall k | 0 <= k < |s| :: IsWhitespace(s[k])
    ensures r != "" ==> !IsWhitespace(r[0]) && !IsWhitespace(r[|r| - 1])
  {
    var lead := LeadingSpaces(s);
    if lead == |s| then "" else s[lead..|s| - TrailingSpaces(s)]
  }

  /** A string that neither starts nor ends with whitespace is its own trim. */
  lemma TrimUntrimmed(s: string)
    requires s != [] ==> !IsWhitespace(s[0]) && !IsWhitespace(s[|s| - 1])
    ensures Trim(s) == s
  {
    if s != [] {
      assert LeadingSpaces(s) == 0;
      assert TrailingSpaces(s) == 0;
    }
  }

  /** `trim` removes exactly the surrounding whitespace: a middle part that
      neither starts nor ends with whitespace, between two runs of whitespace,
      is what remains. */
  lemma TrimSurrounded(before: string, middle: string, after: string)
    requires forall k | 0 <= k < |before| :: IsWhitespace(before[k])
    requires forall k | 0 <= k < |after| :: IsWhitespace(after[k])
    requires middle != [] ==> !IsWhitespace(middle[0]) && !IsWhitespace(middle[|middle| - 1])
    ensures Trim(before + middle + after) == middle
  {
    var s := before + middle + after;
    if middle == [] {
      assert forall k | 0 <= k < |s| :: IsWhitespace(s[k]) by {
        forall k | 0 <= k < |s| ensures IsWhitespace(s[k]) {
          if k < |before| {
            assert s[k] == before[k];
          } else {
            assert s[k] == after[k - |before|];
          }
        }
      }
    } else {
      var lead := LeadingSpaces(s);
      var trail := TrailingSpaces(s);
      assert s[|before|] == middle[0];
      assert lead == |before|;
      assert s[|s| - 1 - |after|] == middle[|middle| - 1];
      assert trail == |after|;
      assert s[lead..|s| - trail] == middle;
    }
  }

  /** Trimming twice is trimming once. */
  lemma TrimIdempotent(s: string)
    ensures Trim(Trim(s)) == Trim(s)
  {
    TrimUntrimmed(Trim(s));
  }

  /** Upper-casing of one character, for the ASCII letters. */
  function UpperChar(c: char): (u: char)
    ensures 'a' <= c <= 'z' ==> u as int == c as int - 32
    ensures !('a' <= c <= 'z') ==> u == c
  {
    if 'a' <= c <= 'z' then (c as int - 32) as char else c
  }

  /** `s.toUpperCase()` restricted to ASCII letters: every character is mapped
      on its own, so the length is kept. */
  function ToUpperCase(s: string): (r: string)
    ensures |r| == |s|
    ensures forall k | 0 <= k < |s| :: r[k] == UpperChar(s[k])
  {
    if s == "" then "" else [UpperChar(s[0])] + ToUpperCase(s[1..])
  }

  /** Two strings that agree letter for letter up to ASCII case upper-case to
      the same string. */
  lemma {:induction false} ToUpperCaseIgnoresCase(s: string, t: string)
    requires |s| == |t|
    requires forall k | 0 <= k < |s| :: UpperChar(s[k]) == UpperChar(t[k])
    ensures ToUpperCase(s) == ToUpperCase(t)
  {
    if s != "" {
      ToUpperCaseIgnoresCase(s[1..], t[1..]);
    }
  }

  /** A string without lower-case ASCII letters upper-cases to itself. */
  lemma {:induction false} UpperCaseFixed(s: string)
    requires forall k | 0 <= k < |s| :: !('a' <= s[k] <= 'z')
    ensures ToUpperCase(s) == s
  {
    if s != "" {
      UpperCaseFixed(s[1..]);
    }
  }

  /** The characters `encodeURIComponent` leaves as they are. */
  predicate IsUnreserved(c: char) {
    || ('A' <= c <= 'Z') || ('a' <= c <= 'z') || ('0' <= c <= '9')
    || c == '-' || c == '_' || c == '.' || c == '!' || c == '~'
    || c == '*' || c == '\'' || c == '(' || c == ')'
  }

  /** An upper-case hexadecimal digit. */
  function HexDigit(d: nat): (c: char)
    requires d < 16
    ensures IsUnreserved(c)
    ensures d < 10 ==> c as int == '0' as int + d
    ensures d >= 10 ==> c as int == 'A' as int + d - 10
  {
    if d < 10 then ('0' as int + d) as char else ('A' as int + d - 10) as char
  }

  /** The UTF-8 encoding of one Unicode scalar value. */
  function Utf8(c: char): (bytes: seq<nat>)
    ensures 1 <= |bytes| <= 4
    ensures forall k | 0 <= k < |bytes| :: bytes[k] < 256
    ensures c as int < 0x80 <==> |bytes| == 1
    ensures |bytes| == 1 ==> bytes[0] == c as int
  {
    var cp := c as int;
    if cp < 0x80 then [cp]
    else if cp < 0x800 then [0xC0 + cp / 64, 0x80 + cp % 64]
    else if cp < 0x10000 then [0xE0 + cp / 4096, 0x80 + (cp / 64) % 64, 0x80 + cp % 64]
    else [0xF0 + cp / 262144, 0x80 + (cp / 4096) % 64, 0x80 + (cp / 64) % 64, 0x80 + cp % 64]
  }

  /** Each byte written as `%` and two upper-case hexadecimal digits. */
  function PercentEncoded(bytes: seq<nat>): (r: string)
    requires forall k | 0 <= k < |bytes| :: bytes[k] < 256
    ensures |r| == 3 * |bytes|
    ensures forall k | 0 <= k < |r| :: IsUnreserved(r[k]) || r[k] == '%'
    ensures bytes != [] ==> r[0] == '%'
  {
    if bytes == [] then ""
    else ['%', HexDigit(bytes[0] / 16), HexDigit(bytes[0] % 16)] + PercentEncoded(bytes[1..])
  }

  /** `encodeURIComponent(s)`: unreserved characters are copied, every other
      character is replaced by its percent-encoded UTF-8 bytes. The result holds
      only unreserved characters and `%`, so it can sit inside a query-string
      value without ending it, and a string of unreserved characters is kept as
      it is. */
  function EncodeUriComponent(s: string): (r: string)
    ensures |r| >= |s|
    ensures forall k | 0 <= k < |r| :: IsUnreserved(r[k]) || r[k] == '%'
    ensures (forall k | 0 <= k < |s| :: IsUnreserved(s[k])) ==> r == s
  {
    if s == "" then ""
    else
      var head := if IsUnreserved(s[0]) then [s[0]] else PercentEncoded(Utf8(s[0]));
      head + EncodeUriComponent(s[1..])
  }
}
