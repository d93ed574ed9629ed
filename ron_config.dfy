/**
 Stripping a file extension from an asset file name. The name is rewritten
 by replacing the first match of the regular expression `\.[^.]+$` with the
 empty string: a dot followed by one or more characters that are not dots,
 running to the end of the text (`$` without the multi-line flag matches only
 at the end of the whole text).
 */
module RonConfig {
  import opened Wrappers

  /** Index of the last '.' in `s`, or None when `s` has no dot. */
  function LastDot(s: string): (r: Option<nat>)
    ensures r.None? <==> '.' !in s
    ensures r.Some? ==> r.value < |s| && s[r.value] == '.'
    ensures r.Some? ==> forall k :: r.value < k < |s| ==> s[k] != '.'
  {
    if |s| == 0 then None
    else if s[|s| - 1] == '.' then Some(|s| - 1)
    else
      var r := LastDot(s[..|s| - 1]);
      assert s == s[..|s| - 1] + [s[|s| - 1]];
      r
  }

  /**
   `s[i..j]` is a match of `\.[^.]+$` in `s`: a dot at `i`, at least one
   further character, no dot among those characters, and the match ends at
   the end of the text.
   */
  predicate ExtensionMatch(s: string, i: nat, j: nat)
  {
    && i < j == |s|
    && s[i] == '.'
    && j - i >= 2
    && forall k :: i < k < j ==> s[k] != '.'
  }

  /** The file name without its final extension. */
  function TrimExtension(s: string): (r: string)
    ensures r <= s
    ensures |r| < |s| ==> ExtensionMatch(s, |r|, |s|)
    ensures |r| == |s| ==> forall i: nat, j: nat :: !ExtensionMatch(s, i, j)
  {
    match LastDot(s)
    case Some(i) => if i < |s| - 1 then s[..i] else s
    case None => s
  }

  /** A match of the pattern can only begin at the last dot of the text. */
  lemma MatchStartsAtLastDot(s: string, i: nat, j: nat)
    requires ExtensionMatch(s, i, j)
    ensures LastDot(s) == Some(i) && j == |s|
  {
    var d := LastDot(s);
    assert s[i] == '.';
    assert d.Some?;
  }

  /**
   TrimExtension is the regular-expression replacement: with no match the
   text is returned unchanged, and otherwise exactly the (unique) match is
   cut out of the text.
   */
  lemma TrimIsRegexReplace(s: string)
    ensures (forall i: nat, j: nat :: !ExtensionMatch(s, i, j)) ==> TrimExtension(s) == s
    ensures forall i: nat, j: nat :: ExtensionMatch(s, i, j) ==> TrimExtension(s) == s[..i] + s[j..]
  {
    forall i: nat, j: nat | ExtensionMatch(s, i, j)
      ensures TrimExtension(s) == s[..i] + s[j..]
    {
      MatchStartsAtLastDot(s, i, j);
      assert s[j..] == [];
    }
  }

  /** A name without any dot is left unchanged. */
  lemma NoDotUnchanged(s: string)
    requires '.' !in s
    ensures TrimExtension(s) == s
  {
    assert LastDot(s) == None;
  }

  /** A name ending in a dot is left unchanged: `[^.]+` needs at least one character. */
  lemma TrailingDotUnchanged(s: string)
    requires |s| > 0 && s[|s| - 1] == '.'
    ensures TrimExtension(s) == s
    ensures forall i: nat, j: nat :: !ExtensionMatch(s, i, j)
  {
    assert LastDot(s) == Some(|s| - 1);
  }

  /** Otherwise the name is cut just before its last dot. */
  lemma CutBeforeLastDot(s: string, i: nat)
    requires i < |s| - 1 && s[i] == '.'
    requires forall k :: i < k < |s| ==> s[k] != '.'
    ensures TrimExtension(s) == s[..i]
  {
    MatchStartsAtLastDot(s, i, |s|);
  }

  /**
   The part removed, if any, is one dot followed by one or more characters
   that are not dots.
   */
  lemma RemovedSuffix(s: string)
    ensures var r := TrimExtension(s);
      |r| < |s| ==>
        && s == r + s[|r|..]
        && s[|r|] == '.'
        && |s| - |r| >= 2
        && forall k :: |r| < k < |s| ==> s[k] != '.'
  {
    var r := TrimExtension(s);
    if |r| < |s| {
      assert ExtensionMatch(s, |r|, |s|);
    }
  }

  /** A name whose only dot is its first character trims to the empty string. */
  lemma LeadingDotOnly(s: string)
    requires |s| >= 2 && s[0] == '.' && '.' !in s[1..]
    ensures TrimExtension(s) == ""
  {
    forall k | 0 < k < |s| ensures s[k] != '.' {
      assert s[k] == s[1..][k - 1];
    }
    CutBeforeLastDot(s, 0);
  }

  lemma HeroPng()
    ensures TrimExtension("hero.png") == "hero"
  {
    CutBeforeLastDot("hero.png", 4);
  }

  lemma DotPngOnly()
    ensures TrimExtension(".png") == ""
  {
    LeadingDotOnly(".png");
  }

  /**
   Only the final extension is removed, so trimming twice may remove more
   than trimming once: TrimExtension is not idempotent.
   */
  lemma OnlyLastExtension()
    ensures TrimExtension("a.tar.gz") == "a.tar"
    ensures TrimExtension(TrimExtension("a.tar.gz")) == "a"
  {
    CutBeforeLastDot("a.tar.gz", 5);
    assert "a.tar.gz"[..5] == "a.tar";
    CutBeforeLastDot("a.tar", 1);
  }
}
