/**
 * The Python string behaviours the health monitor uses when it builds the OS
 * description `f"{os} {version}".strip()`: `str()` of a decoded JSON value
 * (which falls back to `repr()` inside lists and dicts) and `str.strip()`.
 */
module PyText {
  import opened Json
  import Decimal

  /** The characters for which Python's `str.isspace()` holds. */
  predicate IsSpace(c: char) {
    || c == ' ' || '\t' <= c <= '\r' || '\U{1C}' <= c <= '\U{1F}'
    || c == '\U{85}' || c == '\U{A0}' || c == '\U{1680}'
    || '\U{2000}' <= c <= '\U{200A}' || c == '\U{2028}' || c == '\U{2029}'
    || c == '\U{202F}' || c == '\U{205F}' || c == '\U{3000}'
  }

  predicate AllSpace(s: string) {
    forall i :: 0 <= i < |s| ==> IsSpace(s[i])
  }

  /** Python `s.lstrip()`: the suffix left after dropping leading whitespace. */
  function TrimLeft(s: string): (r: string)
    ensures |r| <= |s|
    ensures r == s[|s| - |r|..]
    ensures AllSpace(s[..|s| - |r|])
    ensures |r| == 0 || !IsSpace(r[0])
  {
    if |s| > 0 && IsSpace(s[0]) then TrimLeft(s[1..]) else s
  }

  /** Python `s.rstrip()`: the prefix left after dropping trailing whitespace. */
  function TrimRight(s: string): (r: string)
    ensures |r| <= |s|
    ensures r == s[..|r|]
    ensures AllSpace(s[|r|..])
    ensures |r| == 0 || !IsSpace(r[|r| - 1])
  {
    if |s| > 0 && IsSpace(s[|s| - 1]) then
      var t := s[..|s| - 1];
      var r := TrimRight(t);
      assert r == s[..|r|];
      assert s[|r|..] == t[|r|..] + [s[|s| - 1]];
      r
    else s
  }

  /**
   * Python `s.strip()`: the longest middle slice of `s` that neither starts nor
   * ends with whitespace, everything cut away on either side being whitespace.
   */
  function Strip(s: string): (r: string)
    ensures |r| <= |s|
    ensures Trimmed(r)
    ensures exists lead :: StripsTo(s, r, lead)
  {
    var left := TrimLeft(s);
    var r := TrimRight(left);
    StripSlices(s, left, r);
    r
  }

  /** `r` is the slice of `s` from `lead` on, with only whitespace cut away on either side. */
  predicate StripsTo(s: string, r: string, lead: int) {
    && 0 <= lead <= |s| - |r|
    && r == s[lead..lead + |r|]
    && AllSpace(s[..lead])
    && AllSpace(s[lead + |r|..])
  }

  lemma StripSlices(s: string, left: string, r: string)
    requires |left| <= |s| && left == s[|s| - |left|..] && AllSpace(s[..|s| - |left|])
    requires |r| <= |left| && r == left[..|r|] && AllSpace(left[|r|..])
    ensures StripsTo(s, r, |s| - |left|)
  {
    var lead := |s| - |left|;
    assert s[lead + |r|..] == left[|r|..];
  }

  /** Text that neither starts nor ends with whitespace. */
  predicate Trimmed(s: string) {
    |s| == 0 || (!IsSpace(s[0]) && !IsSpace(s[|s| - 1]))
  }

  /** Stripping leaves text without surrounding whitespace unchanged. */
  lemma StripTrimmed(s: string)
    requires Trimmed(s)
    ensures Strip(s) == s
  {
    if |s| > 0 {
      assert !IsSpace(s[0]) && !IsSpace(s[|s| - 1]);
    }
  }

  /** Stripping `s + " "` gives back `s` when `s` has no surrounding whitespace. */
  lemma StripTrailingBlank(s: string)
    requires Trimmed(s)
    ensures Strip(s + " ") == s
  {
    var t := s + " ";
    if |s| == 0 {
      assert TrimLeft(t) == TrimLeft(t[1..]) == "";
    } else {
      assert TrimLeft(t) == t;
      assert t[..|t| - 1] == s;
      assert TrimRight(t) == TrimRight(s) == s;
    }
  }

  function HexDigit(d: nat): char
    requires d < 16
  {
    "0123456789abcdef"[d]
  }

  /** How Python's `repr()` writes one character of a string quoted with `quote`. */
  function EscapeChar(c: char, quote: char): string {
    if c == '\\' || c == quote then ['\\', c]
    else if c == '\t' then "\\t"
    else if c == '\n' then "\\n"
    else if c == '\r' then "\\r"
    else if c < ' ' || c == '\U{7F}' then "\\x" + [HexDigit(c as int / 16), HexDigit(c as int % 16)]
    else [c]
  }

  function EscapeAll(s: string, quote: char): string {
    if |s| == 0 then "" else EscapeChar(s[0], quote) + EscapeAll(s[1..], quote)
  }

  /** Python `repr()` of a string: single quotes unless the text holds a single quote and no double quote. */
  function QuoteString(s: string): (r: string)
    ensures |r| >= 2 && r[0] == r[|r| - 1] && (r[0] == '\'' || r[0] == '"')
  {
    var quote := if '\'' in s && '"' !in s then '"' else '\'';
    [quote] + EscapeAll(s, quote) + [quote]
  }

  /** The strings of `parts` separated by ", ", as Python's `", ".join(parts)`. */
  function JoinComma(parts: seq<string>): string {
    if |parts| == 0 then ""
    else if |parts| == 1 then parts[0]
    else parts[0] + ", " + JoinComma(parts[1..])
  }

  /** Python `repr()` of a decoded JSON value. */
  function Repr(v: Json): (r: string)
    ensures |r| > 0
    ensures r[0] == '[' <==> v.List?
    ensures r[0] == '{' <==> v.Object?
    ensures r[0] == '\'' || r[0] == '"' <==> v.Str?
    decreases v
  {
    match v
    case Null => "None"
    case Bool(b) => if b then "True" else "False"
    case Int(i) => Decimal.IntToString(i)
    case Str(s) => QuoteString(s)
    case List(items) =>
      "[" + JoinComma(seq(|items|, k requires 0 <= k < |items| => Repr(items[k]))) + "]"
    case Object(fields) =>
      "{" + JoinComma(seq(|fields|, k requires 0 <= k < |fields| =>
                            QuoteString(fields[k].key) + ": " + Repr(fields[k].value))) + "}"
  }

  /** Python `str()` of a decoded JSON value, as an f-string interpolates it. */
  function ToStr(v: Json): (r: string)
    ensures v.Str? ==> r == v.s
    ensures v.Null? ==> r == "None"
    ensures v.Bool? ==> r == (if v.b then "True" else "False")
    ensures v.Int? ==> r == Decimal.IntToString(v.i)
    ensures v.List? ==> |r| > 0 && r[0] == '[' && r == Repr(v)
    ensures v.Object? ==> |r| > 0 && r[0] == '{' && r == Repr(v)
  {
    if v.Str? then v.s else Repr(v)
  }
}
