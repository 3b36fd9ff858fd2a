/** The string operations the duplicate check is built from: JavaScript's
    String.prototype.trim and toLowerCase, and their composition Normalize. */
module Text {

  /** The characters trim removes: ECMAScript WhiteSpace (tab, vertical tab,
      form feed, space, no-break space, byte order mark and the Unicode Zs
      category) and LineTerminator (line feed, carriage return, line and
      paragraph separators). */
  predicate IsWhitespace(c: char) {
    c == '\t' || c == '\n' || c == '\U{000B}' || c == '\U{000C}' || c == '\r'
    || c == ' ' || c == '\U{00A0}' || c == '\U{1680}'
    || ('\U{2000}' <= c <= '\U{200A}')
    || c == '\U{2028}' || c == '\U{2029}' || c == '\U{202F}' || c == '\U{205F}'
    || c == '\U{3000}' || c == '\U{FEFF}'
  }

  predicate AllWhitespace(s: string) {
    forall i :: 0 <= i < |s| ==> IsWhitespace(s[i])
  }

  /** Drops the leading whitespace (characterised by TrimStartSpec). */
  function TrimStart(s: string): (r: string)
    ensures |r| <= |s|
  {
    if s != [] && IsWhitespace(s[0]) then TrimStart(s[1..]) else s
  }

  /** Drops the trailing whitespace (characterised by TrimEndSpec). */
  function TrimEnd(s: string): (r: string)
    ensures |r| <= |s|
  {
    if s != [] && IsWhitespace(s[|s| - 1]) then TrimEnd(s[..|s| - 1]) else s
  }

  /** String.prototype.trim. */
  function Trim(s: string): string {
    TrimEnd(TrimStart(s))
  }

  /** toLowerCase on one character, restricted to the ASCII letters. */
  function LowerChar(c: char): char {
    if 'A' <= c <= 'Z' then (c as int + 32) as char else c
  }

  /** String.prototype.toLowerCase, character by character (characterised
      by LowerSpec). */
  function Lower(s: string): (r: string)
    ensures |r| == |s|
  {
    if s == [] then [] else [LowerChar(s[0])] + Lower(s[1..])
  }

  /** The key the duplicate check compares: `text.trim().toLowerCase()`. */
  function Normalize(s: string): string {
    Lower(Trim(s))
  }

  /** TrimStart gives the suffix of `s` that starts at its first
      non-whitespace character: everything dropped is whitespace. */
  lemma {:induction false} TrimStartSpec(s: string)
    ensures TrimStart(s) == s[|s| - |TrimStart(s)|..]
    ensures AllWhitespace(s[..|s| - |TrimStart(s)|])
    ensures TrimStart(s) != [] ==> !IsWhitespace(TrimStart(s)[0])
  {
    if s != [] && IsWhitespace(s[0]) {
      TrimStartSpec(s[1..]);
      var k := |s| - |TrimStart(s)|;
      assert s[..k] == [s[0]] + s[1..][..k - 1];
    }
  }

  /** TrimEnd gives the prefix of `s` that ends at its last non-whitespace
      character: everything dropped is whitespace. */
  lemma {:induction false} TrimEndSpec(s: string)
    ensures TrimEnd(s) == s[..|TrimEnd(s)|]
    ensures AllWhitespace(s[|TrimEnd(s)|..])
    ensures TrimEnd(s) != [] ==> !IsWhitespace(TrimEnd(s)[|TrimEnd(s)| - 1])
  {
    if s != [] && IsWhitespace(s[|s| - 1]) {
      var n := |s| - 1;
      TrimEndSpec(s[..n]);
      var k := |TrimEnd(s)|;
      assert s[k..] == s[..n][k..] + [s[n]];
    }
  }

  /** Lower-casing maps every character by the ASCII case fold. */
  lemma {:induction false} LowerSpec(s: string)
    ensures forall i :: 0 <= i < |s| ==> Lower(s)[i] == LowerChar(s[i])
  {
    if s != [] {
      LowerSpec(s[1..]);
      assert forall i :: 1 <= i < |s| ==> Lower(s)[i] == Lower(s[1..])[i - 1];
    }
  }

  /** A string trims to the empty string exactly when it is all whitespace;
      this is what the disabled add and update buttons test. */
  lemma TrimEmptyIff(s: string)
    ensures Trim(s) == [] <==> AllWhitespace(s)
  {
    TrimStartSpec(s);
    TrimEndSpec(TrimStart(s));
  }

  /** A text whose first and last characters are not whitespace trims to
      itself, so its key is just its lower-cased form. */
  lemma TrimOfTrimmed(s: string)
    requires s != [] && !IsWhitespace(s[0]) && !IsWhitespace(s[|s| - 1])
    ensures Trim(s) == s && Normalize(s) == Lower(s)
  {
  }

  lemma {:induction false} TrimStartOfPadded(p: string, y: string)
    requires AllWhitespace(p)
    ensures TrimStart(p + y) == TrimStart(y)
    decreases |p|
  {
    if p != [] {
      assert (p + y)[1..] == p[1..] + y;
      TrimStartOfPadded(p[1..], y);
    } else {
      assert p + y == y;
    }
  }

  lemma {:induction false} TrimEndOfPadded(y: string, q: string)
    requires AllWhitespace(q)
    ensures TrimEnd(y + q) == TrimEnd(y)
    decreases |q|
  {
    if q != [] {
      assert (y + q)[..|y + q| - 1] == y + q[..|q| - 1];
      TrimEndOfPadded(y, q[..|q| - 1]);
    } else {
      assert y + q == y;
    }
  }

  lemma {:induction false} TrimStartOfAppend(s: string, q: string)
    requires !AllWhitespace(s)
    ensures TrimStart(s + q) == TrimStart(s) + q
    decreases |s|
  {
    assert (s + q)[0] == s[0];
    if IsWhitespace(s[0]) {
      assert !AllWhitespace(s[1..]) by {
        var i :| 0 <= i < |s| && !IsWhitespace(s[i]);
        assert s[1..][i - 1] == s[i];
      }
      assert (s + q)[1..] == s[1..] + q;
      TrimStartOfAppend(s[1..], q);
    }
  }

  /** Whitespace around a string does not change what it trims to. */
  lemma TrimIgnoresPadding(p: string, s: string, q: string)
    requires AllWhitespace(p) && AllWhitespace(q)
    ensures Trim(p + s + q) == Trim(s)
  {
    assert p + s + q == p + (s + q);
    TrimStartOfPadded(p, s + q);
    if AllWhitespace(s) {
      assert AllWhitespace(s + q) by {
        forall i | 0 <= i < |s + q| ensures IsWhitespace((s + q)[i]) {
          if i < |s| { assert (s + q)[i] == s[i]; } else { assert (s + q)[i] == q[i - |s|]; }
        }
      }
      TrimEmptyIff(s + q);
      TrimEmptyIff(s);
    } else {
      TrimStartOfAppend(s, q);
      TrimEndOfPadded(TrimStart(s), q);
    }
  }

  /** The duplicate key ignores leading and trailing whitespace. */
  lemma NormalizeIgnoresPadding(p: string, s: string, q: string)
    requires AllWhitespace(p) && AllWhitespace(q)
    ensures Normalize(p + s + q) == Normalize(s)
  {
    TrimIgnoresPadding(p, s, q);
  }

  lemma LowerKeepsWhitespace(c: char)
    ensures IsWhitespace(LowerChar(c)) == IsWhitespace(c)
  {
  }

  lemma {:induction false} TrimStartLower(s: string)
    ensures TrimStart(Lower(s)) == Lower(TrimStart(s))
    decreases |s|
  {
    if s != [] {
      LowerKeepsWhitespace(s[0]);
      assert Lower(s)[1..] == Lower(s[1..]);
      TrimStartLower(s[1..]);
    }
  }

  lemma {:induction false} TrimEndLower(s: string)
    ensures TrimEnd(Lower(s)) == Lower(TrimEnd(s))
    decreases |s|
  {
    if s != [] {
      var n := |s| - 1;
      LowerKeepsWhitespace(s[n]);
      LowerSpec(s);
      LowerSpec(s[..n]);
      assert Lower(s)[..n] == Lower(s[..n]);
      TrimEndLower(s[..n]);
    }
  }

  /** Trimming and lower-casing commute. */
  lemma TrimLowerCommute(s: string)
    ensures Trim(Lower(s)) == Lower(Trim(s))
  {
    TrimStartLower(s);
    TrimEndLower(TrimStart(s));
  }

  /** The duplicate key ignores case: strings that lower-case alike have
      the same key. */
  lemma NormalizeIgnoresCase(a: string, b: string)
    requires Lower(a) == Lower(b)
    ensures Normalize(a) == Normalize(b)
  {
    TrimLowerCommute(a);
    TrimLowerCommute(b);
  }
}
