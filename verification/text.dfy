/** The string primitives the audit route relies on: literal global
    replacement, deletion of a character class, and `String.prototype.trim`.
    Strings are sequences of Unicode scalar values; every character class used
    here lies in the Basic Multilingual Plane, where a scalar value and a
    UTF-16 code unit coincide. */
module Text {

  /** Deletes every non-overlapping occurrence of the literal `pat`, scanning
      left to right: `s.replace(/pat/g, "")`. */
  function RemoveAll(s: string, pat: string): (r: string)
    requires |pat| > 0
    ensures |r| <= |s|
    decreases |s|
  {
    if |s| == 0 then ""
    else if pat <= s then RemoveAll(s[|pat|..], pat)
    else [s[0]] + RemoveAll(s[1..], pat)
  }

  /** The class `[\u0000-\u001F\u007F-\u009F]`: C0 controls, DEL and C1 controls. */
  predicate IsControl(c: char) {
    c <= '\U{1F}' || ('\U{7F}' <= c <= '\U{9F}')
  }

  predicate NoControl(s: string) {
    forall i | 0 <= i < |s| :: !IsControl(s[i])
  }

  /** `s.replace(/[\u0000-\u001F\u007F-\u009F]/g, "")`. */
  function StripControl(s: string): (r: string)
    ensures NoControl(r)
    ensures |r| <= |s|
  {
    if |s| == 0 then ""
    else (if IsControl(s[0]) then "" else [s[0]]) + StripControl(s[1..])
  }

  /** Deleting the class from a concatenation deletes it from each part. */
  lemma {:induction false} StripControlAppend(a: string, b: string)
    ensures StripControl(a + b) == StripControl(a) + StripControl(b)
    decreases |a|
  {
    if |a| == 0 {
      assert a + b == b;
    } else {
      assert (a + b)[1..] == a[1..] + b;
      StripControlAppend(a[1..], b);
    }
  }

  /** A string is left unchanged exactly when it holds no character of the class. */
  lemma {:induction false} StripControlFixpoint(s: string)
    ensures StripControl(s) == s <==> NoControl(s)
    decreases |s|
  {
    if |s| > 0 {
      StripControlFixpoint(s[1..]);
      if NoControl(s) {
        assert NoControl(s[1..]) by {
          forall i | 0 <= i < |s[1..]| ensures !IsControl(s[1..][i]) {
            assert s[1..][i] == s[i + 1];
          }
        }
      }
      if StripControl(s) == s {
        assert |StripControl(s[1..])| <= |s| - 1;
        assert !IsControl(s[0]);
      }
    }
  }

  /** `StripControl` is the filter of kept characters: it is determined by its
      action on single characters and its distribution over concatenation. Any
      function with those two properties agrees with it everywhere. */
  lemma {:induction false} StripControlIsFilter(f: string -> string, s: string)
    requires forall c: char :: f([c]) == (if IsControl(c) then "" else [c])
    requires forall a: string, b: string :: f(a + b) == f(a) + f(b)
    ensures f(s) == StripControl(s)
    decreases |s|
  {
    if |s| == 0 {
      var e := f("");
      assert "" + "" == "";
      assert e == e + e;
      assert |e| == 0;
    } else {
      assert s == [s[0]] + s[1..];
      assert f(s) == f([s[0]]) + f(s[1..]);
      StripControlIsFilter(f, s[1..]);
    }
  }

  /** ECMAScript WhiteSpace and LineTerminator: what `trim` removes. */
  predicate IsJsWhitespace(c: char) {
    || c == '\t' || c == '\n' || c == '\U{B}' || c == '\U{C}' || c == '\r'
    || c == ' ' || c == '\U{A0}' || c == '\U{1680}'
    || ('\U{2000}' <= c <= '\U{200A}')
    || c == '\U{2028}' || c == '\U{2029}' || c == '\U{202F}' || c == '\U{205F}'
    || c == '\U{3000}' || c == '\U{FEFF}'
  }

  predicate AllWhitespace(s: string) {
    forall i | 0 <= i < |s| :: IsJsWhitespace(s[i])
  }

  /** The first index at or after `i` that does not hold whitespace. */
  function SkipWhitespace(s: string, i: nat): (j: nat)
    requires i <= |s|
    ensures i <= j <= |s|
    ensures forall k | i <= k < j :: IsJsWhitespace(s[k])
    ensures j < |s| ==> !IsJsWhitespace(s[j])
    decreases |s| - i
  {
    if i < |s| && IsJsWhitespace(s[i]) then SkipWhitespace(s, i + 1) else i
  }

  /** The least index `k`, not below `lo`, such that `s[k..j]` is all whitespace. */
  function SkipWhitespaceBack(s: string, lo: nat, j: nat): (k: nat)
    requires lo <= j <= |s|
    ensures lo <= k <= j
    ensures forall m | k <= m < j :: IsJsWhitespace(s[m])
    ensures lo < k ==> !IsJsWhitespace(s[k - 1])
  {
    if lo < j && IsJsWhitespace(s[j - 1]) then SkipWhitespaceBack(s, lo, j - 1) else j
  }

  /** `s.trim()`: whitespace removed from both ends and nowhere else. */
  function Trim(s: string): (r: string)
    ensures |r| <= |s|
    ensures |r| > 0 ==> !IsJsWhitespace(r[0]) && !IsJsWhitespace(r[|r| - 1])
  {
    var a := SkipWhitespace(s, 0);
    s[a..SkipWhitespaceBack(s, a, |s|)]
  }

  /** The trimmed string is the infix of `s` left after cutting a whitespace
      prefix and a whitespace suffix, and it neither starts nor ends with
      whitespace. */
  lemma TrimIsInfix(s: string)
    ensures var a := SkipWhitespace(s, 0); var r := Trim(s);
      && a + |r| <= |s|
      && r == s[a..a + |r|]
      && (forall k | 0 <= k < a :: IsJsWhitespace(s[k]))
      && (forall k | a + |r| <= k < |s| :: IsJsWhitespace(s[k]))
      && (|r| > 0 ==> !IsJsWhitespace(r[0]) && !IsJsWhitespace(r[|r| - 1]))
  {
  }

  /** `s.trim()` is empty exactly when `s` is made only of whitespace. */
  lemma TrimEmptyIff(s: string)
    ensures Trim(s) == "" <==> AllWhitespace(s)
  {
    TrimIsInfix(s);
  }
}
