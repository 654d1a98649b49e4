/** Character classes, one-character regular-expression tests and the string setters
    (`trim`, `lowercase`) that the schemas apply. */
module Text {
  import opened Common

  predicate IsAsciiLower(c: char) { 'a' <= c <= 'z' }
  predicate IsAsciiUpper(c: char) { 'A' <= c <= 'Z' }
  predicate IsAsciiDigit(c: char) { '0' <= c <= '9' }
  predicate IsAsciiLetter(c: char) { IsAsciiLower(c) || IsAsciiUpper(c) }
  /** The complement of `[a-zA-Z0-9]`. */
  predicate IsSpecial(c: char) { !IsAsciiLetter(c) && !IsAsciiDigit(c) }

  /** `/[x]/.test(s)` for a one-character class `x`: some character of `s` is in the class. */
  function Any(s: string, p: char -> bool): (b: bool)
    ensures b <==> exists i :: 0 <= i < |s| && p(s[i])
  {
    if s == [] then false
    else if p(s[0]) then true
    else
      var rest := Any(s[1..], p);
      assert forall i :: 1 <= i < |s| ==> s[i] == s[1..][i - 1];
      rest
  }

  /** `/^[x]*$/.test(s)`: every character of `s` is in the class. */
  function All(s: string, p: char -> bool): (b: bool)
    ensures b <==> forall i :: 0 <= i < |s| ==> p(s[i])
  {
    if s == [] then true
    else if !p(s[0]) then false
    else
      var rest := All(s[1..], p);
      assert forall i :: 1 <= i < |s| ==> s[i] == s[1..][i - 1];
      rest
  }

  /** JavaScript truthiness of an optional string: present and not empty. */
  predicate Truthy(o: Option<string>) { o.Some? && o.value != "" }

  /** The characters `String.prototype.trim` removes: WhiteSpace and LineTerminator of ECMAScript. */
  predicate IsJsWhitespace(c: char)
  {
    c == '\t' || c == '\n' || c == '\U{000B}' || c == '\U{000C}' || c == '\r' || c == ' '
    || c == '\U{00A0}' || c == '\U{1680}' || ('\U{2000}' <= c <= '\U{200A}')
    || c == '\U{2028}' || c == '\U{2029}' || c == '\U{202F}' || c == '\U{205F}'
    || c == '\U{3000}' || c == '\U{FEFF}'
  }

  /** `s` with its leading whitespace removed. */
  function TrimStart(s: string): (r: string)
    ensures |r| <= |s| && r == s[|s| - |r|..]
    ensures r == [] || !IsJsWhitespace(r[0])
    ensures forall i :: 0 <= i < |s| - |r| ==> IsJsWhitespace(s[i])
  {
    if s == [] || !IsJsWhitespace(s[0]) then s
    else
      var r := TrimStart(s[1..]);
      assert forall i :: 1 <= i < |s| ==> s[i] == s[1..][i - 1];
      r
  }

  /** `s` with its trailing whitespace removed. */
  function TrimEnd(s: string): (r: string)
    ensures |r| <= |s| && r == s[..|r|]
    ensures r == [] || !IsJsWhitespace(r[|r| - 1])
    ensures forall i :: |r| <= i < |s| ==> IsJsWhitespace(s[i])
  {
    if s == [] || !IsJsWhitespace(s[|s| - 1]) then s
    else TrimEnd(s[..|s| - 1])
  }

  /** Neither starts nor ends with whitespace. */
  predicate Trimmed(t: string)
  {
    t == [] || (!IsJsWhitespace(t[0]) && !IsJsWhitespace(t[|t| - 1]))
  }

  /** `r` is the infix of `s` at offset `k`, and everything of `s` outside it is whitespace. */
  predicate StrippedAt(s: string, k: int, r: string)
  {
    && 0 <= k && k + |r| <= |s| && r == s[k..k + |r|]
    && (forall i :: 0 <= i < k ==> IsJsWhitespace(s[i]))
    && (forall i :: k + |r| <= i < |s| ==> IsJsWhitespace(s[i]))
  }

  /** `String.prototype.trim`, the schemas' `trim: true` setter: an infix of `s` that neither
      starts nor ends with whitespace, empty exactly when `s` is all whitespace. */
  function Trim(s: string): (r: string)
    ensures |r| <= |s|
    ensures Trimmed(r)
    ensures r == [] <==> forall i :: 0 <= i < |s| ==> IsJsWhitespace(s[i])
    ensures exists k :: StrippedAt(s, k, r)
  {
    var a := TrimStart(s);
    var r := TrimEnd(a);
    var k := |s| - |a|;
    assert r != [] ==> r[0] == a[0];
    assert forall i :: k <= i < |s| ==> s[i] == a[i - k];
    assert r == a[..|r|] && a == s[k..];
    assert r == s[k..k + |r|];
    assert StrippedAt(s, k, r);
    r
  }

  /** A value that neither starts nor ends with whitespace is left alone by the setter. */
  lemma TrimOfTrimmed(t: string)
    requires Trimmed(t)
    ensures Trim(t) == t
  {
    if t != [] {
      assert TrimStart(t) == t;
      assert TrimEnd(t) == t;
    }
  }

  /** Trimming twice is trimming once: a trimmed value is a fixed point of the setter. */
  lemma TrimIdempotent(s: string)
    ensures Trim(Trim(s)) == Trim(s)
  {
    TrimOfTrimmed(Trim(s));
  }

  /** `toLowerCase` on one character, restricted to the ASCII letters. */
  function LowerChar(c: char): char
  {
    if IsAsciiUpper(c) then (c as int + 32) as char else c
  }

  /** The `lowercase: true` setter on ASCII text. */
  function Lower(s: string): (r: string)
    ensures |r| == |s|
    ensures forall i :: 0 <= i < |s| ==> !IsAsciiUpper(r[i])
    ensures forall i :: 0 <= i < |s| ==>
      (IsAsciiUpper(s[i]) ==> r[i] == (s[i] as int + 32) as char) && (!IsAsciiUpper(s[i]) ==> r[i] == s[i])
  {
    seq(|s|, i requires 0 <= i < |s| => LowerChar(s[i]))
  }

  /** What the `lowercase` and `trim` setters of a username or email make of a value. */
  function Normalize(s: string): string
  {
    Lower(Trim(s))
  }

  /** Lower-casing is idempotent. */
  lemma LowerIdempotent(t: string)
    ensures Lower(Lower(t)) == Lower(t)
  {
    var l := Lower(t);
    forall i | 0 <= i < |l| ensures Lower(l)[i] == l[i] {
      assert !IsAsciiUpper(l[i]);
    }
  }

  /** Lower-casing neither creates nor removes whitespace at the ends of a value. */
  lemma LowerKeepsTrimmed(t: string)
    requires Trimmed(t)
    ensures Trimmed(Lower(t))
  {
    var l := Lower(t);
    if l != [] {
      assert l[0] == LowerChar(t[0]);
      assert l[|l| - 1] == LowerChar(t[|t| - 1]);
    }
  }

  /** A stored (already normalised) username or email is found again when it is used as a
      query value, because the query value passes through the same setters. */
  lemma NormalizeIdempotent(s: string)
    ensures Normalize(Normalize(s)) == Normalize(s)
  {
    var t := Trim(s);
    var l := Lower(t);
    assert Normalize(s) == l;
    LowerKeepsTrimmed(t);
    TrimOfTrimmed(l);
    assert Normalize(l) == Lower(l);
    LowerIdempotent(t);
  }
}
