/** Branch-aware versions: `1.0.0` built on branch `feature/x` becomes
    `1.0.0-x`. The branch is shortened and sanitised into a suffix made of
    lower-case letters, digits, `.`, `_` and single inner hyphens. */
module BranchVersion {
  import opened Text
  import opened JavaText

  /** The prefixes shortened away, tried in this order. */
  const BranchPrefixes: seq<string> := ["feature/", "bugfix/", "hotfix/", "release/", "develop/"]

  const MaxSuffixLength := 30

  /** Removes the first of `prefixes` that the branch starts with. */
  function StripBranchPrefix(branch: string, prefixes: seq<string>): (r: string)
    ensures |r| <= |branch| && r == branch[|branch| - |r|..]
    ensures (forall k :: 0 <= k < |prefixes| ==> !StartsWith(branch, prefixes[k])) ==> r == branch
  {
    if prefixes == [] then branch
    else if StartsWith(branch, prefixes[0]) then branch[|prefixes[0]|..]
    else StripBranchPrefix(branch, prefixes[1..])
  }

  /** A branch behind one of the prefixes loses that prefix and nothing
      more, even when what follows is another prefix. */
  lemma FirstPrefixStripped(k: nat, rest: string)
    requires k < |BranchPrefixes|
    ensures StripBranchPrefix(BranchPrefixes[k] + rest, BranchPrefixes) == rest
  {
    var b := BranchPrefixes[k] + rest;
    DropPrefix(BranchPrefixes[k], rest);
    forall j | 0 <= j < k ensures !StartsWith(b, BranchPrefixes[j]) {
      assert b[0] == BranchPrefixes[k][0];
    }
    if k > 0 { assert StripBranchPrefix(b, BranchPrefixes) == StripBranchPrefix(b, BranchPrefixes[1..]); }
    if k > 1 { assert StripBranchPrefix(b, BranchPrefixes[1..]) == StripBranchPrefix(b, BranchPrefixes[2..]); }
    if k > 2 { assert StripBranchPrefix(b, BranchPrefixes[2..]) == StripBranchPrefix(b, BranchPrefixes[3..]); }
    if k > 3 { assert StripBranchPrefix(b, BranchPrefixes[3..]) == StripBranchPrefix(b, BranchPrefixes[4..]); }
  }

  predicate VersionChars(s: string) {
    forall i :: 0 <= i < |s| ==> IsVersionChar(s[i])
  }

  /** The output alphabet: `[a-z0-9._-]`. */
  predicate SuffixChars(s: string) {
    forall i :: 0 <= i < |s| ==> IsLower(s[i]) || IsDigit(s[i]) || s[i] == '.' || s[i] == '_' || s[i] == '-'
  }

  predicate NoDoubleHyphen(s: string) {
    forall i :: 0 <= i < |s| - 1 ==> !(s[i] == '-' && s[i + 1] == '-')
  }

  /** What a sanitised branch looks like. */
  predicate IsSuffix(s: string) {
    0 < |s| <= MaxSuffixLength && SuffixChars(s) && s[0] != '-' && s[|s| - 1] != '-' && NoDoubleHyphen(s)
  }

  /** `replaceAll("[^a-zA-Z0-9._-]", "-")`. */
  function ReplaceInvalid(s: string): (r: string)
    ensures |r| == |s| && VersionChars(r)
    ensures forall i :: 0 <= i < |s| ==> r[i] == (if IsVersionChar(s[i]) then s[i] else '-')
  {
    if s == "" then "" else [if IsVersionChar(s[0]) then s[0] else '-'] + ReplaceInvalid(s[1..])
  }

  /** `replaceAll("-+", "-")`: every run of hyphens becomes one; the ends
      stay. */
  function CollapseHyphens(s: string): (r: string)
    ensures |r| <= |s|
    ensures s != "" ==> r != "" && r[0] == s[0] && r[|r| - 1] == s[|s| - 1]
  {
    if |s| <= 1 then s
    else if s[0] == '-' && s[1] == '-' then CollapseHyphens(s[1..])
    else [s[0]] + CollapseHyphens(s[1..])
  }

  /** No run of hyphens is left. */
  lemma {:induction false} CollapseNoDouble(s: string)
    ensures NoDoubleHyphen(CollapseHyphens(s))
    decreases |s|
  {
    if |s| > 1 {
      CollapseNoDouble(s[1..]);
    }
  }

  /** Only hyphens are removed. */
  lemma {:induction false} CollapseKeepsOthers(s: string)
    ensures RemoveChar(CollapseHyphens(s), '-') == RemoveChar(s, '-')
    decreases |s|
  {
    if |s| > 1 {
      CollapseKeepsOthers(s[1..]);
      var t := CollapseHyphens(s[1..]);
      assert ([s[0]] + t)[1..] == t;
    }
  }

  /** Nothing outside the version characters appears. */
  lemma {:induction false} CollapseVersionChars(s: string)
    requires VersionChars(s)
    ensures VersionChars(CollapseHyphens(s))
    decreases |s|
  {
    if |s| > 1 {
      CollapseVersionChars(s[1..]);
    }
  }

  /** A text without runs of hyphens is left as it is. */
  lemma {:induction false} CollapseSingle(s: string)
    requires NoDoubleHyphen(s)
    ensures CollapseHyphens(s) == s
    decreases |s|
  {
    if |s| > 1 {
      CollapseSingle(s[1..]);
      assert s == [s[0]] + s[1..];
    }
  }

  /** Cuts to 30 characters, then drops one trailing hyphen (`-$`). */
  function Truncate(s: string): (r: string)
    ensures |r| <= |s| && |r| <= MaxSuffixLength && r == s[..|r|]
    ensures |s| <= MaxSuffixLength ==> r == s
    ensures s != "" && s[0] != '-' ==> r != "" && r[0] == s[0]
    ensures r != "" && |s| > MaxSuffixLength && NoDoubleHyphen(s) ==> r[|r| - 1] != '-'
    ensures VersionChars(s) ==> VersionChars(r)
    ensures NoDoubleHyphen(s) ==> NoDoubleHyphen(r)
  {
    if |s| <= MaxSuffixLength then s
    else if s[MaxSuffixLength - 1] == '-' then s[..MaxSuffixLength - 1]
    else s[..MaxSuffixLength]
  }

  /** `replaceAll("^-+", "")`. */
  function TrimLeadingHyphens(s: string): (r: string)
    ensures |r| <= |s| && r == s[|s| - |r|..]
    ensures r != "" ==> r[0] != '-'
    ensures VersionChars(s) ==> VersionChars(r)
  {
    if s != "" && s[0] == '-' then TrimLeadingHyphens(s[1..]) else s
  }

  /** `replaceAll("-+$", "")`. */
  function TrimTrailingHyphens(s: string): (r: string)
    ensures |r| <= |s| && r == s[..|r|]
    ensures r != "" ==> r[|r| - 1] != '-'
    ensures VersionChars(s) ==> VersionChars(r)
    ensures s != "" && s[0] != '-' ==> r != "" && r[0] == s[0]
  {
    if s != "" && s[|s| - 1] == '-' then TrimTrailingHyphens(s[..|s| - 1]) else s
  }

  /** A branch after the shaping passes, before lower-casing. */
  predicate Shaped(s: string) {
    0 < |s| <= MaxSuffixLength && VersionChars(s) && s[0] != '-' && s[|s| - 1] != '-' && NoDoubleHyphen(s)
  }

  /** Lower-casing a shaped text gives the output alphabet, with the
      hyphens where they were. */
  lemma LowerSuffix(s: string)
    requires Shaped(s)
    ensures IsSuffix(ToLower(s))
  {
    var r := ToLower(s);
    assert forall i :: 0 <= i < |s| ==> (r[i] == '-' <==> s[i] == '-');
  }

  lemma UnknownShaped()
    ensures Shaped("unknown") && IsSuffix("unknown")
  {
    var u := "unknown";
    assert forall i :: 0 <= i < |u| ==> IsLower(u[i]);
  }

  /** Trimming, collapsing and cutting text in the version alphabet leaves
      a shaped text or nothing. */
  lemma ShapeSteps(replaced: string)
    requires VersionChars(replaced)
    ensures var cut := Truncate(CollapseHyphens(TrimTrailingHyphens(TrimLeadingHyphens(replaced))));
      cut != "" ==> Shaped(cut)
  {
    var trimmed := TrimTrailingHyphens(TrimLeadingHyphens(replaced));
    var collapsed := CollapseHyphens(trimmed);
    var cut := Truncate(collapsed);
    CollapseNoDouble(trimmed);
    CollapseVersionChars(trimmed);
    assert VersionChars(collapsed) && NoDoubleHyphen(collapsed);
    assert collapsed != "" ==> collapsed[0] != '-' && collapsed[|collapsed| - 1] != '-';
  }

  /** The steps of `sanitizeBranchName` between the replacement of invalid
      characters and lower-casing: trim, collapse, cut, default. */
  function ShapeSuffix(replaced: string): (r: string)
    requires VersionChars(replaced)
    ensures Shaped(r)
  {
    var cut := Truncate(CollapseHyphens(TrimTrailingHyphens(TrimLeadingHyphens(replaced))));
    ShapeSteps(replaced);
    if cut == "" then UnknownShaped(); "unknown" else cut
  }

  /** The passes of `sanitizeBranchName` after the prefix is shortened. */
  function SanitizeShortened(shortened: string): (r: string)
    ensures IsSuffix(r)
  {
    var s := ShapeSuffix(ReplaceInvalid(shortened));
    LowerSuffix(s);
    ToLower(s)
  }

  /** `sanitizeBranchName`. */
  function SanitizeBranchName(branch: string): (r: string)
    ensures IsSuffix(r)
  {
    if branch == "" then UnknownShaped(); "unknown"
    else SanitizeShortened(StripBranchPrefix(branch, BranchPrefixes))
  }

  /** No branch prefix starts a text without slashes. */
  lemma NoBranchPrefix(s: string)
    requires !HasChar(s, '/')
    ensures forall k :: 0 <= k < |BranchPrefixes| ==> !StartsWith(s, BranchPrefixes[k])
  {
    forall k | 0 <= k < |BranchPrefixes| ensures !StartsWith(s, BranchPrefixes[k]) {
      var p := BranchPrefixes[k];
      assert p[|p| - 1] == '/';
      if |p| <= |s| {
        assert s[..|p|][|p| - 1] == s[|p| - 1];
      }
    }
  }

  /** The shaping steps leave a shaped text alone. */
  lemma ShapeKeepsSuffix(s: string)
    requires Shaped(s)
    ensures ShapeSuffix(s) == s
  {
    assert TrimLeadingHyphens(s) == s;
    assert TrimTrailingHyphens(s) == s;
    CollapseSingle(s);
  }

  /** A sanitised branch is its own sanitisation: no prefix to shorten,
      nothing to replace, trim, collapse, cut or lower. */
  lemma SanitizeSuffix(s: string)
    requires IsSuffix(s)
    ensures SanitizeBranchName(s) == s
  {
    assert !HasChar(s, '/');
    NoBranchPrefix(s);
    var stripped := StripBranchPrefix(s, BranchPrefixes);
    assert stripped == s;
    SuffixKeptByPasses(s);
    ShapeKeepsSuffix(s);
  }

  /** Replacing and lower-casing leave a sanitised branch alone. */
  lemma SuffixKeptByPasses(s: string)
    requires IsSuffix(s)
    ensures VersionChars(s) && ReplaceInvalid(s) == s && ToLower(s) == s
  {
    assert VersionChars(s);
    assert ReplaceInvalid(s) == s;
    LowerKeepsSuffix(s);
  }

  lemma LowerKeepsSuffix(s: string)
    requires SuffixChars(s)
    ensures ToLower(s) == s
  {
    assert forall i :: 0 <= i < |s| ==> !IsUpper(s[i]);
  }

  /** So sanitising twice is sanitising once. */
  lemma SanitizeIdempotent(branch: string)
    ensures SanitizeBranchName(SanitizeBranchName(branch)) == SanitizeBranchName(branch)
  {
    SanitizeSuffix(SanitizeBranchName(branch));
  }

  /** The suffix `getVersionWithBranch` appends: an empty branch counts as
      `main`. */
  function BranchSuffix(branch: string): (r: string)
    ensures IsSuffix(r)
  {
    SanitizeBranchName(if branch == "" then "main" else branch)
  }

  /** `getVersionWithBranch`: `base-suffix`, and IllegalArgumentException
      for an empty base. */
  function GetVersionWithBranch(baseVersion: string, branch: string): (r: Result<string>)
    ensures r.Err? <==> baseVersion == ""
    ensures r.Ok? ==> StartsWith(r.value, baseVersion + "-") && IsSuffix(r.value[|baseVersion| + 1..])
  {
    if baseVersion == "" then Err("Base version cannot be null or empty")
    else
      var version := baseVersion + "-" + BranchSuffix(branch);
      DropPrefix(baseVersion + "-", BranchSuffix(branch));
      Ok(version)
  }

  /** `extractBaseVersion`: the text before the last hyphen when that text
      is non-empty and holds a dot; otherwise the input. */
  function ExtractBaseVersion(versionWithBranch: string): (r: string)
    ensures r != versionWithBranch ==>
      Contains(r, ".") && StartsWith(versionWithBranch, r + "-") && !HasChar(versionWithBranch[|r| + 1..], '-')
  {
    if versionWithBranch == "" then versionWithBranch
    else match SplitLast(versionWithBranch, '-')
      case Some((possibleBase, tail)) =>
        if possibleBase != "" && Contains(possibleBase, ".") then
          DropPrefix(possibleBase + "-", tail);
          possibleBase
        else versionWithBranch
      case None => versionWithBranch
  }

  /** `extractBranch`: the text after the last hyphen under the same
      conditions, when it is non-empty; otherwise nothing (null). */
  function ExtractBranch(versionWithBranch: string): (r: Option<string>)
    ensures r.Some? ==> r.value != "" && !HasChar(r.value, '-')
    ensures r.Some? ==> versionWithBranch == ExtractBaseVersion(versionWithBranch) + "-" + r.value
  {
    if versionWithBranch == "" then None
    else match SplitLast(versionWithBranch, '-')
      case Some((possibleBase, tail)) =>
        if possibleBase != "" && tail != "" && Contains(possibleBase, ".") then Some(tail) else None
      case None => None
  }

  /** `hasBranchSuffix`. */
  predicate HasBranchSuffix(version: string) {
    ExtractBranch(version).Some?
  }

  /** The two extractors split a version at its last hyphen when the text
      before it holds a dot and the text after it is non-empty. */
  lemma ExtractLastSegment(head: string, tail: string)
    requires Contains(head, ".") && tail != "" && !HasChar(tail, '-')
    ensures ExtractBaseVersion(head + "-" + tail) == head
    ensures ExtractBranch(head + "-" + tail) == Some(tail)
    ensures HasBranchSuffix(head + "-" + tail)
  {
    SplitLastConcat(head, '-', tail);
    assert head != "";
  }

  /** Round trip for a plain base and a suffix without hyphens: both come
      back. */
  lemma BranchRoundTrip(baseVersion: string, branch: string)
    requires IsPlainVersion(baseVersion) && !HasChar(BranchSuffix(branch), '-')
    ensures GetVersionWithBranch(baseVersion, branch).Ok?
    ensures ExtractBaseVersion(GetVersionWithBranch(baseVersion, branch).value) == baseVersion
    ensures ExtractBranch(GetVersionWithBranch(baseVersion, branch).value) == Some(BranchSuffix(branch))
  {
    PlainVersionChars(baseVersion);
    ExtractLastSegment(baseVersion, BranchSuffix(branch));
  }

  /** With hyphens in the suffix only its last segment comes back as the
      branch, and the rest stays with the base. */
  lemma BranchLastSegment(baseVersion: string, branch: string, front: string, last: string)
    requires IsPlainVersion(baseVersion)
    requires BranchSuffix(branch) == front + "-" + last && !HasChar(last, '-')
    ensures GetVersionWithBranch(baseVersion, branch).Ok?
    ensures ExtractBaseVersion(GetVersionWithBranch(baseVersion, branch).value) == baseVersion + "-" + front
    ensures ExtractBranch(GetVersionWithBranch(baseVersion, branch).value) == Some(last)
  {
    var s := BranchSuffix(branch);
    SuffixLastSegment(baseVersion, s, front, last);
  }

  lemma SuffixLastSegment(baseVersion: string, s: string, front: string, last: string)
    requires IsPlainVersion(baseVersion)
    requires s == front + "-" + last && !HasChar(last, '-') && s[|s| - 1] != '-'
    ensures ExtractBaseVersion(baseVersion + "-" + s) == baseVersion + "-" + front
    ensures ExtractBranch(baseVersion + "-" + s) == Some(last)
  {
    PlainVersionChars(baseVersion);
    var head := baseVersion + "-" + front;
    assert head[..|baseVersion|] == baseVersion;
    ContainsInSlice(head, 0, |baseVersion|, ".");
    assert last != "";
    Regroup(baseVersion, front, last);
    ExtractLastSegment(head, last);
  }

  lemma Regroup(a: string, front: string, last: string)
    ensures a + "-" + (front + "-" + last) == (a + "-" + front) + "-" + last
  {
  }

  /** `isValidVersion`, the pattern `^\d+\.\d+\.\d+(-[a-zA-Z0-9._-]+)?$`.
      The version part holds no hyphen, so the first hyphen, if any, opens
      the suffix. */
  predicate IsValidVersion(version: string) {
    match SplitFirst(version, "-")
    case None => IsPlainVersion(version)
    case Some((head, tail)) => IsPlainVersion(head) && tail != "" && VersionChars(tail)
  }

  /** A plain version is valid, and so is a plain version with a suffix
      exactly when the suffix is a non-empty run of version characters. */
  lemma ValidVersionOfParts(p: string, t: string)
    requires IsPlainVersion(p)
    ensures IsValidVersion(p)
    ensures IsValidVersion(p + "-" + t) <==> t != "" && VersionChars(t)
  {
    PlainVersionChars(p);
    ContainsCharIffHasChar(p, '-');
    SplitFirstAtChar(p, '-', t);
  }

  /** Every version built on a plain base is valid. */
  lemma VersionWithBranchIsValid(baseVersion: string, branch: string)
    requires IsPlainVersion(baseVersion)
    ensures GetVersionWithBranch(baseVersion, branch).Ok?
    ensures IsValidVersion(GetVersionWithBranch(baseVersion, branch).value)
  {
    PlainVersionChars(baseVersion);
    var s := BranchSuffix(branch);
    ValidVersionOfParts(baseVersion, s);
  }
}
