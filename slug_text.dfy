/** The regular-expression steps shared by the Python and TypeScript slug
    functions: `re.sub(r"[^a-z0-9]+", "-", s)` / `s.replace(/[^a-z0-9]+/g, "-")`,
    the collapse of hyphen runs, and stripping hyphens at the ends. */
module SlugText {
  import opened Text

  /** Characters a slug may contain: `[a-z0-9-]`. */
  predicate InAlphabet(s: string) {
    forall i :: 0 <= i < |s| ==> IsSlugChar(s[i]) || s[i] == '-'
  }

  predicate NoDoubleHyphen(s: string) {
    forall i :: 0 <= i < |s| - 1 ==> !(s[i] == '-' && s[i + 1] == '-')
  }

  predicate NoEdgeHyphen(s: string) {
    s == [] || (s[0] != '-' && s[|s| - 1] != '-')
  }

  /** The shape both slug functions promise (the Python one also never returns ""). */
  predicate SlugShaped(s: string) {
    InAlphabet(s) && NoDoubleHyphen(s) && NoEdgeHyphen(s)
  }

  /** Drops the leading characters outside `[a-z0-9]`: the rest of a run. */
  function DropRun(s: string): (r: string)
    ensures |r| <= |s| && r == s[|s| - |r|..]
    ensures r == [] || IsSlugChar(r[0])
    ensures s != [] && IsSlugChar(s[0]) ==> r == s
  {
    if s != [] && !IsSlugChar(s[0]) then DropRun(s[1..]) else s
  }

  /** Every maximal run of characters outside `[a-z0-9]` becomes one `-`. */
  function ReplaceRuns(s: string): (r: string)
    ensures InAlphabet(r) && NoDoubleHyphen(r)
    ensures s == [] <==> r == []
    ensures s != [] && IsSlugChar(s[0]) ==> r[0] == s[0]
    ensures s != [] && !IsSlugChar(s[0]) ==> r[0] == '-'
    decreases |s|
  {
    if s == [] then []
    else if IsSlugChar(s[0]) then [s[0]] + ReplaceRuns(s[1..])
    else "-" + ReplaceRuns(DropRun(s[1..]))
  }

  /** A string already in the alphabet with single hyphens is a fixed point. */
  lemma {:induction false} ReplaceRunsFixed(s: string)
    requires InAlphabet(s) && NoDoubleHyphen(s)
    ensures ReplaceRuns(s) == s
    decreases |s|
  {
    if s != [] {
      ReplaceRunsFixed(s[1..]);
      if !IsSlugChar(s[0]) {
        assert s[0] == '-';
        assert s[1..] == [] || IsSlugChar(s[1]);
      }
    }
  }

  /** `re.sub(r"-{2,}", "-", s)`. */
  function CollapseHyphens(s: string): (r: string)
    ensures NoDoubleHyphen(s) ==> r == s
  {
    if |s| >= 2 && s[0] == '-' && s[1] == '-' then CollapseHyphens(s[1..])
    else if s == [] then []
    else [s[0]] + CollapseHyphens(s[1..])
  }

  /** Python `s.strip("-")`: every hyphen at either end. */
  function StripHyphens(s: string): (r: string)
    ensures NoEdgeHyphen(r)
    ensures NoEdgeHyphen(s) ==> r == s
    ensures InAlphabet(s) && NoDoubleHyphen(s) ==> InAlphabet(r) && NoDoubleHyphen(r)
    decreases |s|
  {
    if s != [] && s[0] == '-' then StripHyphens(s[1..])
    else if s != [] && s[|s| - 1] == '-' then StripHyphens(s[..|s| - 1])
    else s
  }

  /** JavaScript `s.replace(/(^-|-$)/g, "")`: at most one hyphen at each end. */
  function StripOneHyphenEachEnd(s: string): (r: string)
  {
    var t := if s != [] && s[0] == '-' then s[1..] else s;
    if t != [] && t[|t| - 1] == '-' then t[..|t| - 1] else t
  }

  /** On text without doubled hyphens, one hyphen per end is all there is. */
  lemma OneHyphenEachEndSuffices(s: string)
    requires InAlphabet(s) && NoDoubleHyphen(s)
    ensures StripOneHyphenEachEnd(s) == StripHyphens(s)
    ensures SlugShaped(StripOneHyphenEachEnd(s))
  {
    var t := if s != [] && s[0] == '-' then s[1..] else s;
    if s != [] && s[0] == '-' {
      assert t == [] || t[0] != '-';
    }
    assert InAlphabet(t) && NoDoubleHyphen(t);
    assert StripHyphens(s) == StripHyphens(t);
    if t != [] && t[|t| - 1] == '-' {
      var u := t[..|t| - 1];
      assert u == [] || u[|u| - 1] != '-';
      assert u == [] || u[0] != '-';
      assert StripHyphens(t) == StripHyphens(u);
    }
  }
}
