/** The cleaning and extraction the analyze route applies to the model's
    reply (app/api/analyze/route.ts:62-68): delete every "```json", then every
    "```", then every control character, trim, and take the greedy match of
    `\{[\s\S]*\}`. */
module ResponseCleaner {
  import opened JsValues
  import opened Text

  const JsonFence := "```json"
  const Fence := "```"

  /** The two fence deletions, in source order: no "```" is left. */
  function StripFences(raw: string): (r: string)
    ensures FenceFree(r)
    ensures |r| <= |raw|
  {
    FenceRemovalIsFenceFree(RemoveAll(raw, JsonFence));
    RemoveAll(RemoveAll(raw, JsonFence), Fence)
  }

  /** The whole cleaning chain that produces `cleanJsonString`: no control
      character is left, and the result neither starts nor ends with
      whitespace. */
  function Clean(raw: string): (r: string)
    ensures NoControl(r)
    ensures |r| <= |raw|
    ensures |r| > 0 ==> !IsJsWhitespace(r[0]) && !IsJsWhitespace(r[|r| - 1])
  {
    var x := StripControl(StripFences(raw));
    TrimIsInfix(x);
    Trim(x)
  }

  /** Three backticks in a row start at index `i`. */
  predicate FenceAt(s: string, i: int)
    requires 0 <= i && i + 3 <= |s|
  {
    s[i] == '`' && s[i + 1] == '`' && s[i + 2] == '`'
  }

  predicate FenceFree(s: string) {
    forall i | 0 <= i && i + 3 <= |s| :: !FenceAt(s, i)
  }

  /** The number of backticks `s` starts with. */
  function LeadingTicks(s: string): (n: nat)
    ensures n <= |s|
  {
    if |s| > 0 && s[0] == '`' then 1 + LeadingTicks(s[1..]) else 0
  }

  /** Deleting "```" leaves a leading run of backticks of its length modulo 3:
      the scan eats the run three at a time. */
  lemma {:induction false} LeadingTicksAfterFenceRemoval(s: string)
    ensures LeadingTicks(RemoveAll(s, Fence)) == LeadingTicks(s) % 3
    decreases |s|
  {
    if |s| > 0 {
      RemoveAllStep(s);
      if Fence <= s {
        LeadingTicksOfFence(s);
        LeadingTicksAfterFenceRemoval(s[3..]);
      } else {
        var rest := RemoveAll(s[1..], Fence);
        LeadingTicksCons(s[0], rest);
        if s[0] == '`' {
          LeadingTicksAfterFenceRemoval(s[1..]);
          ShortTickRun(s);
        }
      }
    }
  }

  /** One step of the "```" deletion scan. */
  lemma RemoveAllStep(s: string)
    requires |s| > 0
    ensures Fence <= s ==> RemoveAll(s, Fence) == RemoveAll(s[3..], Fence)
    ensures !(Fence <= s) ==> RemoveAll(s, Fence) == [s[0]] + RemoveAll(s[1..], Fence)
  {
  }

  /** A leading fence contributes three backticks to the leading run. */
  lemma LeadingTicksOfFence(s: string)
    requires Fence <= s
    ensures LeadingTicks(s) == 3 + LeadingTicks(s[3..])
  {
    assert s[0] == '`' && s[1..][0] == '`' && s[1..][1..][0] == '`' by {
      assert s[..3] == Fence;
    }
    assert LeadingTicks(s) == 1 + LeadingTicks(s[1..]);
    assert LeadingTicks(s[1..]) == 1 + LeadingTicks(s[1..][1..]);
    assert LeadingTicks(s[1..][1..]) == 1 + LeadingTicks(s[1..][1..][1..]);
    assert s[1..][1..][1..] == s[3..];
  }

  /** The leading run of a string with one character in front. */
  lemma LeadingTicksCons(c: char, rest: string)
    ensures LeadingTicks([c] + rest) == if c == '`' then 1 + LeadingTicks(rest) else 0
  {
    assert ([c] + rest)[1..] == rest;
  }

  /** A backtick that does not start a fence is followed by at most one more. */
  lemma ShortTickRun(s: string)
    requires |s| > 0 && s[0] == '`' && !(Fence <= s)
    ensures LeadingTicks(s[1..]) < 2
  {
    if |s| >= 3 && s[1] == '`' {
      assert s[2] != '`' by { assert s[..3] != Fence; }
      assert s[1..][1..][0] == s[2];
    }
  }

  /** No three backticks in a row survive the deletion of "```". */
  lemma {:induction false} FenceRemovalIsFenceFree(s: string)
    ensures FenceFree(RemoveAll(s, Fence))
    decreases |s|
  {
    if |s| > 0 {
      if Fence <= s {
        FenceRemovalIsFenceFree(s[3..]);
      } else {
        var rest := RemoveAll(s[1..], Fence);
        FenceRemovalIsFenceFree(s[1..]);
        var r := [s[0]] + rest;
        assert RemoveAll(s, Fence) == r;
        if s[0] == '`' && |rest| >= 2 {
          LeadingTicksAfterFenceRemoval(s[1..]);
          ShortTickRun(s);
          assert !(rest[0] == '`' && rest[1] == '`') by {
            if rest[0] == '`' {
              assert LeadingTicks(rest) == 1 + LeadingTicks(rest[1..]);
            }
          }
        }
        forall i | 0 <= i && i + 3 <= |r| ensures !FenceAt(r, i) {
          if i > 0 {
            assert FenceAt(r, i) == FenceAt(rest, i - 1);
          }
        }
      }
    }
  }

  /** Right after the two fence deletions no "```" remains. */
  lemma StripFencesIsFenceFree(raw: string)
    ensures FenceFree(StripFences(raw))
  {
    FenceRemovalIsFenceFree(RemoveAll(raw, JsonFence));
  }

  /** The later control-character deletion can join backticks into a new
      fence: "``\n`" has none, and the cleaned string is "```". */
  lemma ControlStripCanRejoinFence()
    ensures FenceFree(StripFences("``\n`"))
    ensures Clean("``\n`") == "```"
    ensures !FenceFree(Clean("``\n`"))
  {
    StripFencesIsFenceFree("``\n`");
    assert !(JsonFence <= "``\n`");
    assert !(Fence <= "``\n`");
    assert RemoveAll("``\n`", JsonFence) == "``\n`" by {
      assert !(JsonFence <= "`\n`");
      assert !(JsonFence <= "\n`");
      assert !(JsonFence <= "`");
    }
    assert RemoveAll("``\n`", Fence) == "``\n`" by {
      assert !(Fence <= "`\n`");
      assert !(Fence <= "\n`");
      assert !(Fence <= "`");
    }
    assert StripControl("``\n`") == "```";
    assert Trim("```") == "```";
    assert FenceAt("```", 0);
  }

  /** The index of the first `c` in `s`. */
  function IndexOf(s: string, c: char): (r: Option<nat>)
    ensures r.Some? ==> r.value < |s| && s[r.value] == c
    ensures r.Some? ==> forall k | 0 <= k < r.value :: s[k] != c
    ensures r.None? ==> forall k | 0 <= k < |s| :: s[k] != c
  {
    if |s| == 0 then None
    else if s[0] == c then Some(0)
    else match IndexOf(s[1..], c)
      case None => None
      case Some(k) => Some(k + 1)
  }

  /** The index of the last `c` in `s`. */
  function LastIndexOf(s: string, c: char): (r: Option<nat>)
    ensures r.Some? ==> r.value < |s| && s[r.value] == c
    ensures r.Some? ==> forall k | r.value < k < |s| :: s[k] != c
    ensures r.None? ==> forall k | 0 <= k < |s| :: s[k] != c
  {
    if |s| == 0 then None
    else if s[|s| - 1] == c then Some(|s| - 1)
    else LastIndexOf(s[..|s| - 1], c)
  }

  /** `s[i..j]` is a match of `\{[\s\S]*\}`. */
  predicate IsBlockMatch(s: string, i: int, j: int) {
    0 <= i && i + 2 <= j <= |s| && s[i] == '{' && s[j - 1] == '}'
  }

  /** The match a backtracking engine returns for `\{[\s\S]*\}`: the match with
      the leftmost start and, at that start, the longest extent. */
  predicate IsLeftmostLongest(s: string, i: int, j: int) {
    && IsBlockMatch(s, i, j)
    && (forall i' | 0 <= i' < i :: s[i'] != '{')
    && (forall k | j <= k < |s| :: s[k] != '}')
  }

  /** `cleanJsonString.match(/\{[\s\S]*\}/)`: from the first `{` through the
      last `}`, or no match when no `}` follows the first `{`. */
  function MatchBlock(s: string): (r: Option<string>)
    ensures r.Some? ==> |r.value| >= 2 && r.value[0] == '{' && r.value[|r.value| - 1] == '}'
  {
    match (IndexOf(s, '{'), LastIndexOf(s, '}'))
    case (Some(i), Some(j)) => if i < j then Some(s[i..j + 1]) else None
    case _ => None
  }

  /** The match exists exactly when some `}` follows some `{`, and then it is
      the leftmost-longest match, so it opens with `{` and closes with `}`. */
  lemma MatchBlockIsRegexMatch(s: string)
    ensures MatchBlock(s).Some? <==> exists i, j :: IsBlockMatch(s, i, j)
    ensures MatchBlock(s).Some? ==>
      exists i, j :: IsLeftmostLongest(s, i, j) && MatchBlock(s).value == s[i..j]
    ensures MatchBlock(s).Some? ==>
      var b := MatchBlock(s).value; |b| >= 2 && b[0] == '{' && b[|b| - 1] == '}'
  {
    var first := IndexOf(s, '{');
    var last := LastIndexOf(s, '}');
    if MatchBlock(s).Some? {
      assert IsLeftmostLongest(s, first.value, last.value + 1);
    }
    if exists i, j :: IsBlockMatch(s, i, j) {
      var i, j :| IsBlockMatch(s, i, j);
      assert first.Some? && first.value <= i;
      assert last.Some? && last.value >= j - 1;
    }
  }

  /** The leftmost-longest match is unique. */
  lemma LeftmostLongestUnique(s: string, i: int, j: int, i': int, j': int)
    requires IsLeftmostLongest(s, i, j) && IsLeftmostLongest(s, i', j')
    ensures i == i' && j == j'
  {
  }

  predicate BraceFree(s: string) {
    forall k | 0 <= k < |s| :: s[k] != '{' && s[k] != '}'
  }

  /** A leftmost-longest match of `s` stays one once brace-free text is put
      around `s`. */
  lemma ShiftLeftmostLongest(p: string, s: string, q: string, i: int, j: int)
    requires BraceFree(p) && BraceFree(q)
    requires IsLeftmostLongest(s, i, j)
    ensures IsLeftmostLongest(p + s + q, |p| + i, |p| + j)
  {
    var w := p + s + q;
    assert w[|p| + i] == s[i];
    assert w[|p| + j - 1] == s[j - 1];
    forall k | 0 <= k < |p| + i ensures w[k] != '{' {
      if k >= |p| { assert w[k] == s[k - |p|]; }
    }
    forall k | |p| + j <= k < |w| ensures w[k] != '}' {
      if k < |p| + |s| { assert w[k] == s[k - |p|]; }
    }
  }

  /** Every match in `s` surrounded by brace-free text lies inside `s`. */
  lemma UnshiftBlockMatch(p: string, s: string, q: string, i: int, j: int)
    requires BraceFree(p) && BraceFree(q)
    requires IsBlockMatch(p + s + q, i, j)
    ensures IsBlockMatch(s, i - |p|, j - |p|)
  {
    var w := p + s + q;
    assert |p| <= i;
    assert j <= |p| + |s|;
    assert w[i] == s[i - |p|];
    assert w[j - 1] == s[j - 1 - |p|];
  }

  /** The leftmost-longest match is what `MatchBlock` returns. */
  lemma MatchBlockOfLeftmostLongest(s: string, i: int, j: int)
    requires IsLeftmostLongest(s, i, j)
    ensures MatchBlock(s) == Some(s[i..j])
  {
    var first := IndexOf(s, '{');
    var last := LastIndexOf(s, '}');
    assert first == Some(i);
    assert last == Some(j - 1);
  }

  /** The infix of `p + s + q` that lies over `s`. */
  lemma InfixSlice(p: string, s: string, q: string, i: int, j: int)
    requires 0 <= i <= j <= |s|
    ensures (p + s + q)[|p| + i..|p| + j] == s[i..j]
  {
    var w := p + s + q;
    assert |w[|p| + i..|p| + j]| == j - i;
    forall k | 0 <= k < j - i ensures w[|p| + i..|p| + j][k] == s[i..j][k] {
      assert w[|p| + i + k] == s[i + k];
    }
  }

  /** When `s` has no match, brace-free text around it adds none. */
  lemma NoMatchStaysNoMatch(p: string, s: string, q: string)
    requires BraceFree(p) && BraceFree(q)
    requires MatchBlock(s).None?
    ensures MatchBlock(p + s + q).None?
  {
    MatchBlockIsRegexMatch(s);
    MatchBlockIsRegexMatch(p + s + q);
    if MatchBlock(p + s + q).Some? {
      var i, j :| IsBlockMatch(p + s + q, i, j);
      UnshiftBlockMatch(p, s, q, i, j);
    }
  }

  /** The match runs from the first `{` to just past the last `}`. */
  lemma MatchBlockBounds(s: string)
    requires MatchBlock(s).Some?
    ensures var i := IndexOf(s, '{').value; var j := LastIndexOf(s, '}').value + 1;
      IsLeftmostLongest(s, i, j) && MatchBlock(s).value == s[i..j]
  {
    MatchBlockIsRegexMatch(s);
  }

  /** A leftmost-longest match of `s` is still the match once brace-free text
      surrounds `s`. */
  lemma MatchStaysMatch(p: string, s: string, q: string, i: int, j: int)
    requires BraceFree(p) && BraceFree(q)
    requires IsLeftmostLongest(s, i, j)
    ensures MatchBlock(p + s + q) == Some(s[i..j])
  {
    ShiftLeftmostLongest(p, s, q, i, j);
    MatchBlockOfLeftmostLongest(p + s + q, |p| + i, |p| + j);
    InfixSlice(p, s, q, i, j);
  }

  /** Characters other than braces before and after the block do not change
      the match. */
  lemma MatchBlockIgnoresBraceFreeEnds(p: string, s: string, q: string)
    requires BraceFree(p) && BraceFree(q)
    ensures MatchBlock(p + s + q) == MatchBlock(s)
  {
    if MatchBlock(s).Some? {
      MatchBlockBounds(s);
      MatchStaysMatch(p, s, q, IndexOf(s, '{').value, LastIndexOf(s, '}').value + 1);
    } else {
      NoMatchStaysNoMatch(p, s, q);
    }
  }

  /** Trimming never changes which block is extracted. */
  lemma TrimKeepsBlock(s: string)
    ensures MatchBlock(Trim(s)) == MatchBlock(s)
  {
    TrimIsInfix(s);
    var a := SkipWhitespace(s, 0);
    var r := Trim(s);
    assert s == s[..a] + r + s[a + |r|..];
    MatchBlockIgnoresBraceFreeEnds(s[..a], r, s[a + |r|..]);
  }

  /** Extracting from an extracted block returns it unchanged. */
  lemma MatchBlockIdempotent(s: string)
    requires MatchBlock(s).Some?
    ensures MatchBlock(MatchBlock(s).value) == MatchBlock(s)
  {
    MatchBlockIsRegexMatch(s);
    var b := MatchBlock(s).value;
    MatchBlockIsRegexMatch(b);
    assert IsBlockMatch(b, 0, |b|);
    var i, j :| IsLeftmostLongest(b, i, j) && MatchBlock(b).value == b[i..j];
    assert IsLeftmostLongest(b, 0, |b|);
    LeftmostLongestUnique(b, i, j, 0, |b|);
    assert b[0..|b|] == b;
  }

  /** How a backtracking regex engine runs `\{[\s\S]*\}`: try each start in
      turn; at a `{`, let `[\s\S]*` swallow the rest and give characters back
      until a `}` closes the match. Returns the bounds of the match. */
  method SearchBlock(s: string) returns (found: bool, i: nat, j: nat)
    ensures found <==> exists i', j' :: IsBlockMatch(s, i', j')
    ensures found ==> IsLeftmostLongest(s, i, j) && MatchBlock(s) == Some(s[i..j])
  {
    i := 0;
    while i < |s|
      invariant i <= |s|
      invariant forall i', j' | 0 <= i' < i :: !IsBlockMatch(s, i', j')
    {
      if s[i] == '{' {
        j := |s|;
        while i + 1 < j && s[j - 1] != '}'
          invariant i + 1 <= j <= |s|
          invariant forall k | j <= k < |s| :: s[k] != '}'
        {
          j := j - 1;
        }
        if i + 1 < j {
          found := true;
          forall i' | 0 <= i' < i ensures s[i'] != '{' {
            assert !IsBlockMatch(s, i', j);
          }
          MatchBlockIsRegexMatch(s);
          var i2, j2 :| IsLeftmostLongest(s, i2, j2) && MatchBlock(s).value == s[i2..j2];
          LeftmostLongestUnique(s, i2, j2, i, j);
          return;
        }
      }
      i := i + 1;
    }
    found, i, j := false, 0, 0;
  }
}
