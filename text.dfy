/** The JavaScript string operations the services rely on: truthiness of an
    optional string, `String.prototype.trim` and `String.prototype.toLowerCase`. */
module Text {
  import opened Wrappers

  /** JavaScript truthiness of a value that is a string or `undefined`:
      only a present, non-empty string is truthy. */
  predicate Truthy(s: Option<string>)
  {
    s.Some? && s.value != []
  }

  /** The ECMAScript WhiteSpace and LineTerminator code points, which `trim` removes. */
  const WhiteSpaceChars: set<char> := {
    '\t', '\n', '\U{B}', '\U{C}', '\r', ' ', '\U{A0}', '\U{1680}',
    '\U{2000}', '\U{2001}', '\U{2002}', '\U{2003}', '\U{2004}', '\U{2005}',
    '\U{2006}', '\U{2007}', '\U{2008}', '\U{2009}', '\U{200A}',
    '\U{2028}', '\U{2029}', '\U{202F}', '\U{205F}', '\U{3000}', '\U{FEFF}'
  }

  predicate IsWhiteSpace(c: char)
  {
    c in WhiteSpaceChars
  }

  /** `s` without its leading white space: a suffix of `s` that starts with a
      non-white-space character, preceded in `s` only by white space. */
  function TrimStart(s: string): (t: string)
    ensures |t| <= |s| && t == s[|s| - |t|..]
    ensures forall i :: 0 <= i < |s| - |t| ==> IsWhiteSpace(s[i])
    ensures t != [] ==> !IsWhiteSpace(t[0])
    decreases |s|
  {
    if s != [] && IsWhiteSpace(s[0]) then TrimStart(s[1..]) else s
  }

  /** `s` without its trailing white space: a prefix of `s` that ends with a
      non-white-space character, followed in `s` only by white space. */
  function TrimEnd(s: string): (t: string)
    ensures |t| <= |s| && t == s[..|t|]
    ensures forall i :: |t| <= i < |s| ==> IsWhiteSpace(s[i])
    ensures t != [] ==> !IsWhiteSpace(t[|t| - 1])
    decreases |s|
  {
    if s != [] && IsWhiteSpace(s[|s| - 1]) then TrimEnd(s[..|s| - 1]) else s
  }

  /** `s[i..j]` is what remains of `s` after removing some white space from
      its start and some from its end. */
  predicate WhiteSpaceAround(s: string, i: int, j: int)
  {
    0 <= i <= j <= |s|
    && (forall k :: 0 <= k < i ==> IsWhiteSpace(s[k]))
    && (forall k :: j <= k < |s| ==> IsWhiteSpace(s[k]))
  }

  /** `s.trim()`: the infix of `s` left after removing white space from both
      ends; empty exactly when `s` is all white space, and otherwise neither
      starting nor ending with white space. */
  function Trim(s: string): (t: string)
    ensures exists i, j :: WhiteSpaceAround(s, i, j) && t == s[i..j]
    ensures t == [] <==> forall i :: 0 <= i < |s| ==> IsWhiteSpace(s[i])
    ensures t != [] ==> !IsWhiteSpace(t[0]) && !IsWhiteSpace(t[|t| - 1])
    ensures |t| <= |s|
  {
    TrimBothEnds(s);
    TrimIsInfix(s);
    TrimEnd(TrimStart(s))
  }

  lemma TrimIsInfix(s: string)
    ensures var t := TrimEnd(TrimStart(s));
      exists i, j :: WhiteSpaceAround(s, i, j) && t == s[i..j]
  {
    var u := TrimStart(s);
    var i := |s| - |u|;
    var j := i + |TrimEnd(u)|;
    PrefixOfSuffix(s, u, TrimEnd(u));
    TrimInfixTail(s);
    assert WhiteSpaceAround(s, i, j);
  }

  /** A prefix of a suffix is an infix. */
  lemma PrefixOfSuffix(s: string, u: string, t: string)
    requires |u| <= |s| && u == s[|s| - |u|..]
    requires |t| <= |u| && t == u[..|t|]
    ensures t == s[|s| - |u|..|s| - |u| + |t|]
  {
  }

  lemma TrimInfixTail(s: string)
    ensures var u := TrimStart(s); var j := |s| - |u| + |TrimEnd(u)|;
      forall k :: j <= k < |s| ==> IsWhiteSpace(s[k])
  {
    var u := TrimStart(s);
    var t := TrimEnd(u);
    var i := |s| - |u|;
    var j := i + |t|;
    forall k | j <= k < |s|
      ensures IsWhiteSpace(s[k])
    {
      assert s[k] == u[k - i];
    }
  }

  lemma TrimBothEnds(s: string)
    ensures var t := TrimEnd(TrimStart(s));
      && (t == [] <==> forall i :: 0 <= i < |s| ==> IsWhiteSpace(s[i]))
      && (t != [] ==> !IsWhiteSpace(t[0]) && !IsWhiteSpace(t[|t| - 1]))
      && |t| <= |s|
  {
    var u := TrimStart(s);
    var t := TrimEnd(u);
    if u != [] {
      KeepsFirst(u);
      assert s[|s| - |u|] == u[0];
      assert !IsWhiteSpace(s[|s| - |u|]);
      assert t != [];
    } else {
      assert |s| - |u| == |s|;
      assert t == [];
    }
  }

  lemma KeepsFirst(u: string)
    requires u != [] && !IsWhiteSpace(u[0])
    ensures TrimEnd(u) != [] && TrimEnd(u)[0] == u[0]
  {
  }

  /** Trimming twice trims nothing more. */
  lemma TrimIdempotent(s: string)
    ensures Trim(Trim(s)) == Trim(s)
  {
    var t := Trim(s);
    if t != [] {
      assert TrimStart(t) == t;
      assert TrimEnd(t) == t;
    }
  }

  /** `toLowerCase` on one character; only the ASCII letters are modelled. */
  function LowerChar(c: char): (d: char)
    ensures 'A' <= c <= 'Z' ==> 'a' <= d <= 'z' && d as int - c as int == 32
    ensures !('A' <= c <= 'Z') ==> d == c
  {
    if 'A' <= c <= 'Z' then (c as int + 32) as char else c
  }

  /** `s.toLowerCase()`: the same length, every character lowered; a string
      without capitals is its own lower case. */
  function ToLower(s: string): (t: string)
    ensures |t| == |s| && forall i :: 0 <= i < |s| ==> t[i] == LowerChar(s[i])
    ensures (forall i :: 0 <= i < |s| ==> !('A' <= s[i] <= 'Z')) ==> t == s
  {
    seq(|s|, i requires 0 <= i < |s| => LowerChar(s[i]))
  }

  /** Lowering is idempotent. */
  lemma ToLowerIdempotent(s: string)
    ensures ToLower(ToLower(s)) == ToLower(s)
  {
  }
}
