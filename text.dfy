/**
 * String helpers standing in for the JavaScript built-ins the core relies on:
 * `String.prototype.startsWith`, `trim`, `toLowerCase` and the regular-expression
 * classes `\s`, `\S` and `\d`.
 */
module Text {

  /** JavaScript's WhiteSpace and LineTerminator code points: what `trim` strips and `\s` matches. */
  predicate IsSpace(c: char) {
    || c == ' ' || c == '\t' || c == '\n' || c == '\r'
    || c == '\U{000B}' || c == '\U{000C}' || c == '\U{00A0}' || c == '\U{1680}'
    || ('\U{2000}' <= c <= '\U{200A}')
    || c == '\U{2028}' || c == '\U{2029}' || c == '\U{202F}' || c == '\U{205F}'
    || c == '\U{3000}' || c == '\U{FEFF}'
  }

  /** `\d` in a JavaScript regular expression without the `u` flag: ASCII digits only. */
  predicate IsDigit(c: char) { '0' <= c <= '9' }

  predicate IsAsciiLetter(c: char) { 'a' <= c <= 'z' || 'A' <= c <= 'Z' }

  predicate IsUpper(c: char) { 'A' <= c <= 'Z' }

  predicate StartsWith(s: string, prefix: string) {
    |prefix| <= |s| && s[..|prefix|] == prefix
  }

  function TrimStart(s: string): (r: string)
    ensures |r| <= |s| && r == s[|s| - |r|..]
    ensures r == [] || !IsSpace(r[0])
  {
    if s != [] && IsSpace(s[0]) then TrimStart(s[1..]) else s
  }

  function TrimEnd(s: string): (r: string)
    ensures |r| <= |s| && r == s[..|r|]
    ensures r == [] || !IsSpace(r[|r| - 1])
  {
    if s != [] && IsSpace(s[|s| - 1]) then TrimEnd(s[..|s| - 1]) else s
  }

  /** `String.prototype.trim`: the result is a slice of `s` that neither starts nor ends with white space. */
  function Trim(s: string): (r: string)
    ensures |r| <= |s|
    ensures r == [] || (!IsSpace(r[0]) && !IsSpace(r[|r| - 1]))
  {
    var t := TrimStart(s);
    var r := TrimEnd(t);
    assert r != [] ==> r[0] == t[0];
    r
  }

  lemma {:induction false} TrimStartOfNoSpace(s: string)
    requires s == [] || !IsSpace(s[0])
    ensures TrimStart(s) == s
  {
  }

  lemma {:induction false} TrimEndOfNoSpace(s: string)
    requires s == [] || !IsSpace(s[|s| - 1])
    ensures TrimEnd(s) == s
  {
  }

  /** Trimming twice is trimming once. */
  lemma TrimIdempotent(s: string)
    ensures Trim(Trim(s)) == Trim(s)
  {
    var t := TrimStart(s);
    var r := TrimEnd(t);
    if r != [] {
      assert r[0] == t[0];
      TrimStartOfNoSpace(r);
    }
    TrimEndOfNoSpace(r);
  }

  /** What `trimStart` removes is white space, every character of it. */
  lemma {:induction false} TrimStartRemovesOnlySpace(s: string)
    ensures forall k :: 0 <= k < |s| - |TrimStart(s)| ==> IsSpace(s[k])
  {
    if s != [] && IsSpace(s[0]) {
      TrimStartRemovesOnlySpace(s[1..]);
      forall k | 1 <= k < |s| - |TrimStart(s)| ensures IsSpace(s[k]) {
        assert s[k] == s[1..][k - 1];
      }
    }
  }

  /** What `trimEnd` removes is white space, every character of it. */
  lemma {:induction false} TrimEndRemovesOnlySpace(s: string)
    ensures forall k :: |TrimEnd(s)| <= k < |s| ==> IsSpace(s[k])
  {
    if s != [] && IsSpace(s[|s| - 1]) {
      TrimEndRemovesOnlySpace(s[..|s| - 1]);
      forall k | |TrimEnd(s)| <= k < |s| - 1 ensures IsSpace(s[k]) {
        assert s[k] == s[..|s| - 1][k];
      }
    }
  }

  /** `trim` keeps one contiguous slice of its input, starting where `trimStart` stopped. */
  lemma TrimIsSlice(s: string)
    ensures var i := |s| - |TrimStart(s)|;
      i + |Trim(s)| <= |s| && Trim(s) == s[i..i + |Trim(s)|]
  {
    var t := TrimStart(s);
    var i := |s| - |t|;
    var r := TrimEnd(t);
    assert Trim(s) == r;
    assert t == s[i..] && r == t[..|r|];
    assert s[i..][..|r|] == s[i..i + |r|];
  }

  /** `trim` drops only white space on either side of the slice it keeps; with `Trim`'s own
      postcondition this pins the result down. */
  lemma TrimRemovesOnlySpace(s: string)
    ensures var i := |s| - |TrimStart(s)|;
            var r := Trim(s);
      && i + |r| <= |s| && r == s[i..i + |r|]
      && (forall k :: 0 <= k < i ==> IsSpace(s[k]))
      && (forall k :: i + |r| <= k < |s| ==> IsSpace(s[k]))
  {
    var t := TrimStart(s);
    var i := |s| - |t|;
    var r := TrimEnd(t);
    TrimIsSlice(s);
    TrimStartRemovesOnlySpace(s);
    TrimEndRemovesOnlySpace(t);
    forall k | i + |r| <= k < |s| ensures IsSpace(s[k]) {
      assert s[k] == t[k - i];
    }
  }

  /** `String.prototype.length`: UTF-16 code units, two for a character outside the Basic
      Multilingual Plane. Mongoose's `minlength` and `maxlength` count these. */
  function Utf16Length(s: string): (n: nat)
    ensures |s| <= n <= 2 * |s|
  {
    if s == [] then 0 else (if s[0] as int >= 0x1_0000 then 2 else 1) + Utf16Length(s[1..])
  }

  /** The variation selectors U+FE0E and U+FE0F, which the validation library's `isLength` ignores. */
  predicate IsVariationSelector(c: char) { c == '\U{FE0E}' || c == '\U{FE0F}' }

  /** The length `isLength` measures: one per character (a surrogate pair is one), variation selectors
      not counted. */
  function ValidatorLength(s: string): (n: nat)
    ensures n <= |s|
  {
    if s == [] then 0 else (if IsVariationSelector(s[0]) then 0 else 1) + ValidatorLength(s[1..])
  }

  /** Text inside the Basic Multilingual Plane and without variation selectors. */
  predicate Plain(s: string) {
    forall k :: 0 <= k < |s| ==> s[k] as int < 0x1_0000 && !IsVariationSelector(s[k])
  }

  /** On plain text the two library lengths and the character count all agree. */
  lemma {:induction false} PlainLengths(s: string)
    requires Plain(s)
    ensures Utf16Length(s) == |s| && ValidatorLength(s) == |s|
  {
    if s != [] {
      assert Plain(s[1..]) by {
        forall k | 0 <= k < |s| - 1 ensures s[1..][k] as int < 0x1_0000 && !IsVariationSelector(s[1..][k]) {
          assert s[1..][k] == s[k + 1];
        }
      }
      PlainLengths(s[1..]);
    }
  }

  function LowerChar(c: char): (d: char)
    ensures !IsUpper(d)
    ensures IsSpace(d) <==> IsSpace(c)
  {
    if IsUpper(c) then (c as int + 32) as char else c
  }

  /** `String.prototype.toLowerCase`, restricted to the ASCII letters. */
  function ToLower(s: string): (r: string)
    ensures |r| == |s|
    ensures forall k :: 0 <= k < |s| ==> r[k] == LowerChar(s[k])
  {
    seq(|s|, k requires 0 <= k < |s| => LowerChar(s[k]))
  }

  /** Lower-casing twice is lower-casing once. */
  lemma ToLowerIdempotent(s: string)
    ensures ToLower(ToLower(s)) == ToLower(s)
  {
    var r := ToLower(s);
    assert forall k :: 0 <= k < |r| ==> !IsUpper(r[k]);
  }

  /** Lower-casing keeps the ends of a trimmed string free of white space, so trimming it again
      changes nothing. */
  lemma TrimOfLoweredTrim(s: string)
    ensures Trim(ToLower(Trim(s))) == ToLower(Trim(s))
  {
    var t := Trim(s);
    var e := ToLower(t);
    if e != [] {
      assert !IsSpace(e[0]) by { assert e[0] == LowerChar(t[0]); }
      assert !IsSpace(e[|e| - 1]) by { assert e[|e| - 1] == LowerChar(t[|t| - 1]); }
    }
    TrimStartOfNoSpace(e);
    TrimEndOfNoSpace(e);
  }
}
