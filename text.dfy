/** The .NET string primitives the domain relies on: `char.IsWhiteSpace`,
    `string.IsNullOrWhiteSpace`, `string.Trim`, `ToUpperInvariant` and the
    decimal rendering of an `int` inside an interpolated string. */
module Text {

  /** `char.IsWhiteSpace`: the Unicode space, line and paragraph separators,
      the control characters U+0009 to U+000D, and U+0085. */
  predicate IsWhiteSpace(c: char) {
    || c == ' '
    || '\t' <= c <= '\r'
    || c == '\U{85}'
    || c == '\U{A0}'
    || c == '\U{1680}'
    || '\U{2000}' <= c <= '\U{200A}'
    || c == '\U{2028}'
    || c == '\U{2029}'
    || c == '\U{202F}'
    || c == '\U{205F}'
    || c == '\U{3000}'
  }

  /** `string.IsNullOrWhiteSpace`; a null string is represented by the empty one. */
  predicate IsNullOrWhiteSpace(s: string) {
    forall i | 0 <= i < |s| :: IsWhiteSpace(s[i])
  }

  /** A string with a non-blank part stays non-blank whatever is put around it. */
  lemma NotBlankConcat(a: string, b: string, c: string)
    ensures !IsNullOrWhiteSpace(b) ==> !IsNullOrWhiteSpace(a + b + c)
  {
    if !IsNullOrWhiteSpace(b) {
      var i :| 0 <= i < |b| && !IsWhiteSpace(b[i]);
      assert (a + b + c)[|a| + i] == b[i];
    }
  }

  /** `TrimStart()`: drops the leading white space, and nothing else. */
  function TrimStart(s: string): (r: string)
    ensures |r| <= |s| && r == s[|s| - |r|..]
    ensures forall i | 0 <= i < |s| - |r| :: IsWhiteSpace(s[i])
    ensures r != [] ==> !IsWhiteSpace(r[0])
  {
    if s != [] && IsWhiteSpace(s[0]) then TrimStart(s[1..]) else s
  }

  /** `TrimEnd()`: drops the trailing white space, and nothing else. */
  function TrimEnd(s: string): (r: string)
    ensures |r| <= |s| && r == s[..|r|]
    ensures forall i | |r| <= i < |s| :: IsWhiteSpace(s[i])
    ensures r != [] ==> !IsWhiteSpace(r[|r| - 1])
  {
    if s != [] && IsWhiteSpace(s[|s| - 1]) then TrimEnd(s[..|s| - 1]) else s
  }

  /** `r` is `s` without its first `k` characters and some characters at the
      end, and every character cut off is white space. */
  ghost predicate CutFrom(r: string, s: string, k: int) {
    && 0 <= k <= |s| - |r|
    && r == s[k..k + |r|]
    && (forall i | 0 <= i < k :: IsWhiteSpace(s[i]))
    && (forall i | k + |r| <= i < |s| :: IsWhiteSpace(s[i]))
  }

  /** `Trim()`: the middle part of `s` left after removing white space at both
      ends. It is empty exactly when `s` is blank. */
  function Trim(s: string): (r: string)
    ensures exists k :: CutFrom(r, s, k)
    ensures r == [] <==> IsNullOrWhiteSpace(s)
    ensures r != [] ==> !IsWhiteSpace(r[0]) && !IsWhiteSpace(r[|r| - 1])
  {
    var t := TrimStart(s);
    var r := TrimEnd(t);
    assert CutFrom(r, s, |s| - |t|);
    r
  }

  /** Trimming an already trimmed string changes nothing. */
  lemma TrimIdempotent(s: string)
    ensures Trim(Trim(s)) == Trim(s)
  {
  }

  /** The upper-case counterpart of an ASCII lower-case letter; every other character is kept. */
  function ToUpperChar(c: char): char {
    if 'a' <= c <= 'z' then (c as int - 'a' as int + 'A' as int) as char else c
  }

  /** `ToUpperInvariant()`, for the ASCII letters: same length, each character upper-cased. */
  function ToUpperInvariant(s: string): (r: string)
    ensures |r| == |s|
    ensures forall i | 0 <= i < |s| :: r[i] == ToUpperChar(s[i])
  {
    if s == [] then [] else [ToUpperChar(s[0])] + ToUpperInvariant(s[1..])
  }

  /** Upper-casing is idempotent. */
  lemma {:induction false} ToUpperIdempotent(s: string)
    ensures ToUpperInvariant(ToUpperInvariant(s)) == ToUpperInvariant(s)
  {
    if s != [] {
      ToUpperIdempotent(s[1..]);
    }
  }

  /** Upper-casing neither creates nor removes white space. */
  lemma ToUpperKeepsBlankness(s: string)
    ensures IsNullOrWhiteSpace(ToUpperInvariant(s)) <==> IsNullOrWhiteSpace(s)
  {
    var u := ToUpperInvariant(s);
    forall i | 0 <= i < |s| ensures IsWhiteSpace(u[i]) <==> IsWhiteSpace(s[i]) {
      assert u[i] == ToUpperChar(s[i]);
    }
  }

  /** `string.Length`: the count of UTF-16 code units, so a character above
      U+FFFF (a surrogate pair) counts twice. */
  function Utf16Length(s: string): (n: nat)
    ensures |s| <= n <= 2 * |s|
    ensures (forall i | 0 <= i < |s| :: s[i] as int <= 0xFFFF) ==> n == |s|
    ensures |s| == 1 ==> n == (if s[0] as int > 0xFFFF then 2 else 1)
  {
    if s == [] then 0
    else (if s[0] as int > 0xFFFF then 2 else 1) + Utf16Length(s[1..])
  }

  /** The `Length` of a concatenation is the sum of the parts' lengths, so a
      string's length is the sum, over its characters, of one unit for each
      character up to U+FFFF and two for each above. */
  lemma {:induction false} Utf16LengthConcat(a: string, b: string)
    ensures Utf16Length(a + b) == Utf16Length(a) + Utf16Length(b)
  {
    if a == [] {
      assert a + b == b;
    } else {
      assert (a + b)[0] == a[0] && (a + b)[1..] == a[1..] + b;
      Utf16LengthConcat(a[1..], b);
    }
  }

  /** Upper-casing keeps the `Length` of a string. */
  lemma {:induction false} ToUpperKeepsUtf16Length(s: string)
    ensures Utf16Length(ToUpperInvariant(s)) == Utf16Length(s)
  {
    if s != [] {
      ToUpperKeepsUtf16Length(s[1..]);
      assert ToUpperInvariant(s)[1..] == ToUpperInvariant(s[1..]);
    }
  }

  /** The digit character of a value below ten. */
  function Digit(d: nat): (c: char)
    requires d < 10
    ensures '0' <= c <= '9'
  {
    ('0' as int + d) as char
  }

  /** The value of a string of decimal digits. */
  function DecimalValue(s: string): int
    requires forall i | 0 <= i < |s| :: '0' <= s[i] <= '9'
  {
    if s == [] then 0 else DecimalValue(s[..|s| - 1]) * 10 + (s[|s| - 1] as int - '0' as int)
  }

  /** How `{n}` renders a non-negative `int`: the shortest decimal digit
      string whose value is `n`. */
  function NatToString(n: nat): (s: string)
    ensures s != [] && (|s| > 1 ==> s[0] != '0')
    ensures forall i | 0 <= i < |s| :: '0' <= s[i] <= '9'
    ensures DecimalValue(s) == n
  {
    if n < 10 then [Digit(n)] else NatToString(n / 10) + [Digit(n % 10)]
  }
}
