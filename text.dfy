/** The string operations the backend relies on: `trim`, `toLowerCase` and
    `toUpperCase`, and the cache key built from them. Case conversion is
    modelled on the ASCII letters; `trim` removes exactly the ECMAScript
    WhiteSpace and LineTerminator characters. */
module Text {
  import opened Common

  /** A character `String.prototype.trim` removes from either end. */
  predicate IsSpace(c: char) {
    || c == ' ' || c == '\t' || c == '\n' || c == '\r'
    || c == '\U{000B}' || c == '\U{000C}' || c == '\U{00A0}' || c == '\U{1680}'
    || ('\U{2000}' <= c <= '\U{200A}')
    || c == '\U{2028}' || c == '\U{2029}' || c == '\U{202F}' || c == '\U{205F}'
    || c == '\U{3000}' || c == '\U{FEFF}'
  }

  predicate AllSpace(s: string) {
    forall i :: 0 <= i < |s| ==> IsSpace(s[i])
  }

  /** Neither end of `s` is a space: nothing left for `trim` to remove. */
  predicate Trimmed(s: string) {
    s == [] || (!IsSpace(s[0]) && !IsSpace(s[|s| - 1]))
  }

  predicate IsUpperLetter(c: char) { 'A' <= c <= 'Z' }

  predicate IsLowerLetter(c: char) { 'a' <= c <= 'z' }

  function LowerChar(c: char): char {
    if IsUpperLetter(c) then (c as int + 32) as char else c
  }

  function UpperChar(c: char): char {
    if IsLowerLetter(c) then (c as int - 32) as char else c
  }

  /** `toLowerCase`, character by character. */
  function Lower(s: string): (r: string)
    ensures |r| == |s|
    ensures forall i :: 0 <= i < |s| ==> r[i] == LowerChar(s[i])
  {
    seq(|s|, i requires 0 <= i < |s| => LowerChar(s[i]))
  }

  /** `toUpperCase`, character by character. */
  function Upper(s: string): (r: string)
    ensures |r| == |s|
    ensures forall i :: 0 <= i < |s| ==> r[i] == UpperChar(s[i])
  {
    seq(|s|, i requires 0 <= i < |s| => UpperChar(s[i]))
  }

  /** `trimStart`: drops leading spaces. */
  function TrimStart(s: string): (r: string)
    ensures |r| <= |s|
  {
    if s != [] && IsSpace(s[0]) then TrimStart(s[1..]) else s
  }

  /** `trimEnd`: drops trailing spaces. */
  function TrimEnd(s: string): (r: string)
    ensures |r| <= |s|
  {
    if s != [] && IsSpace(s[|s| - 1]) then TrimEnd(s[..|s| - 1]) else s
  }

  /** `trimStart` returns the longest suffix that does not begin with a
      space: what it drops is all spaces. */
  lemma {:induction false} TrimStartSpec(s: string)
    ensures var r := TrimStart(s);
      && r == s[|s| - |r|..]
      && AllSpace(s[..|s| - |r|])
      && (r == [] || !IsSpace(r[0]))
  {
    if s != [] && IsSpace(s[0]) {
      var r := TrimStart(s[1..]);
      TrimStartSpec(s[1..]);
      var n := |s| - |r|;
      assert s[1..][|s[1..]| - |r|..] == s[n..];
      forall i | 0 <= i < n ensures IsSpace(s[..n][i]) {
        if i > 0 {
          assert s[..n][i] == s[1..][..n - 1][i - 1];
        }
      }
    }
  }

  /** `trimEnd` returns the longest prefix that does not end with a space:
      what it drops is all spaces. */
  lemma {:induction false} TrimEndSpec(s: string)
    ensures var r := TrimEnd(s);
      && r == s[..|r|]
      && AllSpace(s[|r|..])
      && (r == [] || !IsSpace(r[|r| - 1]))
  {
    if s != [] && IsSpace(s[|s| - 1]) {
      var s' := s[..|s| - 1];
      var r := TrimEnd(s');
      TrimEndSpec(s');
      assert s'[..|r|] == s[..|r|];
      forall i | |r| <= i < |s| ensures IsSpace(s[i]) {
        if i < |s| - 1 {
          assert s'[|r|..][i - |r|] == s[i];
        }
      }
    }
  }

  /** `String.prototype.trim`. */
  function Trim(s: string): (r: string)
    ensures |r| <= |s|
  {
    TrimStart(TrimEnd(s))
  }

  /** The embedding cache key: `text.trim().toLowerCase()`. */
  function Key(text: string): (r: string)
    ensures |r| <= |text|
  {
    Lower(Trim(text))
  }

  /** `Trim` cuts `s` into leading spaces, a trimmed middle and trailing spaces. */
  lemma TrimParts(s: string) returns (pre: string, post: string)
    ensures AllSpace(pre) && AllSpace(post) && Trimmed(Trim(s))
    ensures s == pre + Trim(s) + post
  {
    var e := TrimEnd(s);
    var t := TrimStart(e);
    TrimEndSpec(s);
    TrimStartSpec(e);
    pre, post := e[..|e| - |t|], s[|e|..];
    SplitAt(e, |e| - |t|);
    SplitAt(s, |e|);
    assert Trimmed(t) by {
      if t != [] {
        assert t[|t| - 1] == e[|e| - 1];
      }
    }
  }

  lemma {:induction false} TrimEndSpaces(x: string, b: string)
    requires AllSpace(b)
    ensures TrimEnd(x + b) == TrimEnd(x)
    decreases |b|
  {
    if b != [] {
      var b' := b[..|b| - 1];
      assert (x + b)[..|x + b| - 1] == x + b';
      TrimEndSpaces(x, b');
    } else {
      assert x + b == x;
    }
  }

  lemma {:induction false} TrimStartSpaces(a: string, x: string)
    requires AllSpace(a)
    ensures TrimStart(a + x) == TrimStart(x)
    decreases |a|
  {
    if a != [] {
      assert (a + x)[1..] == a[1..] + x;
      TrimStartSpaces(a[1..], x);
    } else {
      assert a + x == x;
    }
  }

  /** Whatever spaces surround a trimmed string, `Trim` returns that string. */
  lemma TrimUnique(pre: string, m: string, post: string)
    requires AllSpace(pre) && AllSpace(post) && Trimmed(m)
    ensures Trim(pre + m + post) == m
  {
    TrimEndSpaces(pre + m, post);
    if m == [] {
      assert pre + m == [] + pre;
      TrimEndSpaces([], pre);
    } else {
      assert TrimEnd(pre + m) == pre + m;
      TrimStartSpaces(pre, m);
    }
  }

  lemma LowerAppend(a: string, b: string)
    ensures Lower(a + b) == Lower(a) + Lower(b)
  {
  }

  lemma LowerKeepsSpaces(s: string)
    ensures AllSpace(Lower(s)) == AllSpace(s)
    ensures Trimmed(Lower(s)) == Trimmed(s)
  {
    assert forall c :: IsSpace(LowerChar(c)) == IsSpace(c);
  }

  /** Lower-casing and trimming commute. */
  lemma TrimLower(s: string)
    ensures Trim(Lower(s)) == Lower(Trim(s))
  {
    var pre, post := TrimParts(s);
    var m := Trim(s);
    LowerAppend(pre + m, post);
    LowerAppend(pre, m);
    LowerKeepsSpaces(pre);
    LowerKeepsSpaces(m);
    LowerKeepsSpaces(post);
    TrimUnique(Lower(pre), Lower(m), Lower(post));
  }

  /** Two texts whose lower-case forms agree share one cache key. */
  lemma KeyIgnoresCase(a: string, b: string)
    requires Lower(a) == Lower(b)
    ensures Key(a) == Key(b)
  {
    TrimLower(a);
    TrimLower(b);
  }

  lemma AllSpaceAppend(a: string, b: string)
    requires AllSpace(a) && AllSpace(b)
    ensures AllSpace(a + b)
  {
  }

  lemma Regroup(a: string, b: string, c: string, d: string, e: string)
    ensures a + (b + c + d) + e == (a + b) + c + (d + e)
  {
  }

  /** Spaces around a text do not change its trimmed form. */
  lemma TrimIgnoresSurroundingSpace(pre: string, s: string, post: string)
    requires AllSpace(pre) && AllSpace(post)
    ensures Trim(pre + s + post) == Trim(s)
  {
    var p, q := TrimParts(s);
    var m := Trim(s);
    AllSpaceAppend(pre, p);
    AllSpaceAppend(q, post);
    Regroup(pre, p, m, q, post);
    TrimUnique(pre + p, m, q + post);
  }

  /** Spaces around a text do not change its cache key. */
  lemma KeyIgnoresSurroundingSpace(pre: string, s: string, post: string)
    requires AllSpace(pre) && AllSpace(post)
    ensures Key(pre + s + post) == Key(s)
  {
    TrimIgnoresSurroundingSpace(pre, s, post);
  }

  /** Texts that differ only in letter case and in surrounding spaces share one
      cache key, so the second of them hits the entry the first created. */
  lemma SameKey(pre: string, a: string, post: string, b: string)
    requires AllSpace(pre) && AllSpace(post)
    requires Lower(a) == Lower(b)
    ensures Key(pre + a + post) == Key(b)
  {
    KeyIgnoresSurroundingSpace(pre, a, post);
    KeyIgnoresCase(a, b);
  }

  /** Trimming twice is trimming once. */
  lemma TrimIdempotent(s: string)
    ensures Trim(Trim(s)) == Trim(s)
  {
    var m := Trim(s);
    var p, q := TrimParts(s);
    TrimUnique([], m, []);
    assert [] + m + [] == m;
  }

  lemma LowerIdempotent(s: string)
    ensures Lower(Lower(s)) == Lower(s)
  {
    assert forall i :: 0 <= i < |s| ==> Lower(Lower(s))[i] == Lower(s)[i];
  }

  /** A key is its own key: normalising twice changes nothing. */
  lemma KeyIdempotent(s: string)
    ensures Key(Key(s)) == Key(s)
  {
    var m := Trim(s);
    TrimLower(m);
    TrimIdempotent(s);
    LowerIdempotent(m);
  }

  /** An upper-cased string contains no lower-case ASCII letter. */
  lemma UpperHasNoLowerLetter(s: string)
    ensures forall i :: 0 <= i < |Upper(s)| ==> !IsLowerLetter(Upper(s)[i])
  {
  }

  /** Upper-casing twice is upper-casing once. */
  lemma UpperIdempotent(s: string)
    ensures Upper(Upper(s)) == Upper(s)
  {
    assert forall i :: 0 <= i < |s| ==> Upper(Upper(s))[i] == Upper(s)[i];
  }
}
