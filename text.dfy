/**
 * The two JavaScript string operations the chat classifier relies on:
 * `String.prototype.toLowerCase` (ASCII letters only, see README) and
 * `String.prototype.trim` (the full ECMAScript white-space and line-terminator set).
 */
module Text {

  /** ECMAScript WhiteSpace and LineTerminator code points: what `trim` removes. */
  predicate IsWhitespace(c: char) {
    || c == '\t' || c == '\n' || c == '\U{000B}' || c == '\U{000C}' || c == '\r'
    || c == ' ' || c == '\U{00A0}' || c == '\U{1680}'
    || ('\U{2000}' <= c <= '\U{200A}')
    || c == '\U{2028}' || c == '\U{2029}' || c == '\U{202F}' || c == '\U{205F}'
    || c == '\U{3000}' || c == '\U{FEFF}'
  }

  function LowerChar(c: char): (r: char)
    ensures 'A' <= c <= 'Z' ==> 'a' <= r <= 'z' && r as int == c as int + 32
    ensures !('A' <= c <= 'Z') ==> r == c
  {
    if 'A' <= c <= 'Z' then (c as int + 32) as char else c
  }

  /**
   * Lower-casing folds exactly the ASCII letters: no capital comes out, a second pass
   * changes nothing, and two characters agree after it only when they are equal or the
   * two cases of one letter.
   */
  lemma LowerCharFolds(x: char, y: char)
    ensures !('A' <= LowerChar(x) <= 'Z')
    ensures LowerChar(LowerChar(x)) == LowerChar(x)
    ensures LowerChar(x) == LowerChar(y) <==>
      x == y || ('A' <= x <= 'Z' && y as int == x as int + 32) || ('A' <= y <= 'Z' && x as int == y as int + 32)
  {
  }

  function ToLower(s: string): (r: string)
    ensures |r| == |s|
  {
    if s == [] then [] else [LowerChar(s[0])] + ToLower(s[1..])
  }

  /** Drops leading white space. */
  function TrimStart(s: string): (r: string)
    ensures |r| <= |s| && r == s[|s| - |r|..]
    ensures r == [] || !IsWhitespace(r[0])
  {
    if |s| > 0 && IsWhitespace(s[0]) then TrimStart(s[1..]) else s
  }

  /** Drops trailing white space. */
  function TrimEnd(s: string): (r: string)
    ensures |r| <= |s| && r == s[..|r|]
    ensures r == [] || !IsWhitespace(r[|r| - 1])
  {
    if |s| > 0 && IsWhitespace(s[|s| - 1]) then TrimEnd(s[..|s| - 1]) else s
  }

  function Trim(s: string): string {
    TrimEnd(TrimStart(s))
  }

  /** `text.toLowerCase().trim()`, the normal form chat lines and commands are compared in. */
  function Normalize(s: string): string {
    Trim(ToLower(s))
  }

  /** `toLowerCase` works character by character. */
  lemma {:induction false} ToLowerAt(s: string, i: nat)
    requires i < |s|
    ensures ToLower(s)[i] == LowerChar(s[i])
  {
    if i > 0 {
      ToLowerAt(s[1..], i - 1);
    }
  }

  /** What `TrimStart` drops is white space. */
  lemma {:induction false} TrimStartDrops(s: string)
    ensures forall i :: 0 <= i < |s| - |TrimStart(s)| ==> IsWhitespace(s[i])
  {
    if |s| > 0 && IsWhitespace(s[0]) {
      TrimStartDrops(s[1..]);
      forall i | 0 <= i < |s| - |TrimStart(s)| ensures IsWhitespace(s[i]) {
        if i > 0 {
          assert s[i] == s[1..][i - 1];
        }
      }
    }
  }

  /** What `TrimEnd` drops is white space. */
  lemma {:induction false} TrimEndDrops(s: string)
    ensures forall i :: |TrimEnd(s)| <= i < |s| ==> IsWhitespace(s[i])
  {
    if |s| > 0 && IsWhitespace(s[|s| - 1]) {
      var p := s[..|s| - 1];
      TrimEndDrops(p);
      forall i | |TrimEnd(s)| <= i < |s| ensures IsWhitespace(s[i]) {
        if i < |s| - 1 {
          assert s[i] == p[i];
        }
      }
    }
  }

  lemma TrimSlice(s: string)
    ensures var a, r := |s| - |TrimStart(s)|, Trim(s); a + |r| <= |s| && r == s[a..a + |r|]
  {
    var t := TrimStart(s);
    var a := |s| - |t|;
    var r := TrimEnd(t);
    assert t == s[a..] && r == t[..|r|];
    assert s[a..a + |r|] == t[..|r|];
  }

  lemma TrimDropsTrailingWhitespace(s: string)
    ensures var a, r := |s| - |TrimStart(s)|, Trim(s); forall k :: a + |r| <= k < |s| ==> IsWhitespace(s[k])
  {
    var t := TrimStart(s);
    var a := |s| - |t|;
    var r := TrimEnd(t);
    TrimEndDrops(t);
    assert t == s[a..];
    forall k | a + |r| <= k < |s| ensures IsWhitespace(s[k]) {
      assert k - a < |t| && s[k] == t[k - a];
      assert IsWhitespace(t[k - a]);
    }
  }

  /** Trimming keeps a contiguous slice of the input and removes only white space around it. */
  lemma TrimIsSlice(s: string)
    ensures var a, r := |s| - |TrimStart(s)|, Trim(s);
      && a + |r| <= |s| && r == s[a..a + |r|]
      && (forall k :: 0 <= k < a ==> IsWhitespace(s[k]))
      && (forall k :: a + |r| <= k < |s| ==> IsWhitespace(s[k]))
      && (r == [] || (!IsWhitespace(r[0]) && !IsWhitespace(r[|r| - 1])))
  {
    TrimSlice(s);
    TrimDropsTrailingWhitespace(s);
    TrimStartDrops(s);
    var t := TrimStart(s);
    var r := TrimEnd(t);
    assert r != [] ==> r[0] == t[0];
  }

  lemma TrimIdempotent(s: string)
    ensures Trim(Trim(s)) == Trim(s)
  {
    var t := TrimStart(s);
    var r := TrimEnd(t);
    assert r != [] ==> r[0] == t[0];
    assert TrimStart(r) == r;
  }

  predicate AllLower(s: string) {
    forall i :: 0 <= i < |s| ==> LowerChar(s[i]) == s[i]
  }

  lemma ToLowerIsLower(s: string)
    ensures AllLower(ToLower(s))
  {
    forall i | 0 <= i < |s| ensures LowerChar(ToLower(s)[i]) == ToLower(s)[i] {
      ToLowerAt(s, i);
    }
  }

  lemma TrimKeepsLower(s: string)
    requires AllLower(s)
    ensures AllLower(Trim(s))
  {
    var t := TrimStart(s);
    var a := |s| - |t|;
    forall i | 0 <= i < |t| ensures LowerChar(t[i]) == t[i] {
      assert t[i] == s[a + i];
    }
    var r := TrimEnd(t);
    forall i | 0 <= i < |r| ensures LowerChar(r[i]) == r[i] {
      assert r[i] == t[i];
    }
  }

  lemma {:induction false} ToLowerOfLower(s: string)
    requires AllLower(s)
    ensures ToLower(s) == s
  {
    if s != [] {
      assert LowerChar(s[0]) == s[0];
      ToLowerOfLower(s[1..]);
    }
  }

  /** Normalizing twice is normalizing once: the classifier's second `toLowerCase().trim()` changes nothing. */
  lemma NormalizeIdempotent(s: string)
    ensures Normalize(Normalize(s)) == Normalize(s)
  {
    var l := ToLower(s);
    ToLowerIsLower(s);
    TrimKeepsLower(l);
    ToLowerOfLower(Trim(l));
    TrimIdempotent(l);
  }

  /** A normalized string holds no ASCII capital letter. */
  lemma NormalizeHasNoCapitals(s: string)
    ensures forall i :: 0 <= i < |Normalize(s)| ==> !('A' <= Normalize(s)[i] <= 'Z')
  {
    var l := ToLower(s);
    ToLowerIsLower(s);
    TrimKeepsLower(l);
  }
}
