/** The few JavaScript string built-ins the form relies on, over ASCII:
    the `\d` class, `toUpperCase`/`toLowerCase` and `trim`. */
module Chars {

  /** The regular-expression class `\d` (ASCII digits only). */
  predicate IsDigit(c: char) { '0' <= c <= '9' }

  predicate IsAsciiUpper(c: char) { 'A' <= c <= 'Z' }

  predicate IsAsciiLower(c: char) { 'a' <= c <= 'z' }

  /** `toUpperCase` on one character; letters outside ASCII are left as they are. */
  function ToUpper(c: char): (u: char)
    ensures IsAsciiLower(c) ==> IsAsciiUpper(u) && u as int == c as int - 32
    ensures !IsAsciiLower(c) ==> u == c
  {
    if IsAsciiLower(c) then (c as int - 32) as char else c
  }

  /** `toLowerCase` on one character; letters outside ASCII are left as they are. */
  function ToLower(c: char): (l: char)
    ensures IsAsciiUpper(c) ==> IsAsciiLower(l) && l as int == c as int + 32
    ensures !IsAsciiUpper(c) ==> l == c
  {
    if IsAsciiUpper(c) then (c as int + 32) as char else c
  }

  /** Case changes compose: the last one applied decides. */
  lemma CaseLaws(c: char)
    ensures ToUpper(ToUpper(c)) == ToUpper(c) && ToLower(ToLower(c)) == ToLower(c)
    ensures ToUpper(ToLower(c)) == ToUpper(c) && ToLower(ToUpper(c)) == ToLower(c)
    ensures ToUpper(c) == ' ' <==> c == ' '
    ensures ToLower(c) == ' ' <==> c == ' '
  {
  }

  function Upper(s: string): (u: string)
    ensures |u| == |s| && forall i :: 0 <= i < |s| ==> u[i] == ToUpper(s[i])
  {
    seq(|s|, i requires 0 <= i < |s| => ToUpper(s[i]))
  }

  function Lower(s: string): (l: string)
    ensures |l| == |s| && forall i :: 0 <= i < |s| ==> l[i] == ToLower(s[i])
  {
    seq(|s|, i requires 0 <= i < |s| => ToLower(s[i]))
  }

  /** The characters `String.prototype.trim` removes: the ECMAScript
      WhiteSpace (tab, vertical tab, form feed, space, no-break space,
      byte-order mark and the space separators of Unicode category Zs)
      and LineTerminator (line feed, carriage return, U+2028, U+2029). */
  predicate IsWhitespace(c: char) {
    c == '\t' || c == '\n' || c == '\U{0B}' || c == '\U{0C}' || c == '\r' || c == ' '
    || c == '\U{A0}' || c == '\U{1680}' || ('\U{2000}' <= c <= '\U{200A}')
    || c == '\U{2028}' || c == '\U{2029}' || c == '\U{202F}' || c == '\U{205F}'
    || c == '\U{3000}' || c == '\U{FEFF}'
  }

  /** Drops the leading whitespace: what is left is a suffix of `s` that does
      not start with whitespace, and everything dropped was whitespace. */
  function TrimStart(s: string): (r: string)
    ensures |r| <= |s| && r == s[|s| - |r|..]
    ensures forall i :: 0 <= i < |s| - |r| ==> IsWhitespace(s[i])
    ensures r == [] || !IsWhitespace(r[0])
  {
    if s != [] && IsWhitespace(s[0]) then TrimStart(s[1..]) else s
  }

  /** Drops the trailing whitespace: what is left is a prefix of `s` that does
      not end with whitespace, and everything dropped was whitespace. */
  function TrimEnd(s: string): (r: string)
    ensures |r| <= |s| && r == s[..|r|]
    ensures forall i :: |r| <= i < |s| ==> IsWhitespace(s[i])
    ensures r == [] || !IsWhitespace(r[|r| - 1])
  {
    if s != [] && IsWhitespace(s[|s| - 1]) then TrimEnd(s[..|s| - 1]) else s
  }

  /** How many whitespace characters `trim` drops at the start of `s`. */
  function LeadingBlanks(s: string): (n: nat)
    ensures n <= |s|
  {
    |s| - |TrimStart(s)|
  }

  /** `String.prototype.trim`: no longer than `s`, and neither starting nor
      ending with whitespace; `TrimIsSlice` says which part of `s` it is. */
  function Trim(s: string): (r: string)
    ensures |r| <= |s|
    ensures r != [] ==> !IsWhitespace(r[0]) && !IsWhitespace(r[|r| - 1])
  {
    TrimEnd(TrimStart(s))
  }

  /** What `trim` keeps is the slice of `s` that starts after its leading
      whitespace, and every character outside that slice is whitespace. */
  lemma TrimIsSlice(s: string)
    ensures LeadingBlanks(s) + |Trim(s)| <= |s|
    ensures Trim(s) == s[LeadingBlanks(s)..LeadingBlanks(s) + |Trim(s)|]
    ensures forall i :: 0 <= i < |s| && (i < LeadingBlanks(s) || LeadingBlanks(s) + |Trim(s)| <= i) ==>
      IsWhitespace(s[i])
  {
    var t := TrimStart(s);
    PrefixOfSuffix(s, t, TrimEnd(t));
    BlankTail(s, t, TrimEnd(t));
  }

  /** A prefix of a suffix of `s` is a slice of `s`. */
  lemma PrefixOfSuffix(s: string, t: string, r: string)
    requires |t| <= |s| && t == s[|s| - |t|..] && |r| <= |t| && r == t[..|r|]
    ensures r == s[|s| - |t|..|s| - |t| + |r|]
  {
  }

  /** Whitespace past a prefix of a suffix of `s` is whitespace of `s`. */
  lemma BlankTail(s: string, t: string, r: string)
    requires |t| <= |s| && t == s[|s| - |t|..] && |r| <= |t|
    requires forall i :: |r| <= i < |t| ==> IsWhitespace(t[i])
    ensures forall i :: |s| - |t| + |r| <= i < |s| ==> IsWhitespace(s[i])
  {
    forall i | |s| - |t| + |r| <= i < |s| ensures IsWhitespace(s[i]) {
      assert s[i] == t[i - (|s| - |t|)];
    }
  }

  /** `!value.trim()` holds exactly when the value is all whitespace. */
  lemma TrimEmptyIffBlank(s: string)
    ensures Trim(s) == [] <==> forall i :: 0 <= i < |s| ==> IsWhitespace(s[i])
  {
    var r := Trim(s);
    TrimIsSlice(s);
    if r != [] {
      assert r[0] == s[LeadingBlanks(s)];
    }
  }
}
