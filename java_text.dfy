/** String operations of the Java services that the Python scripts do not
    share: `String.split` with and without a limit, the character classes
    of the services' regular expressions, and a result type for the calls
    that throw. */
module JavaText {
  import opened Text

  /** The value a Java method returns, or the message of the exception it
      throws. */
  datatype Result<T> = Ok(value: T) | Err(error: string)

  /** `p` occurs in `s`, and only once. */
  ghost predicate OccursOnce(s: string, p: string) {
    Contains(s, p) && forall i, j :: OccursAt(s, p, i) && OccursAt(s, p, j) ==> i == j
  }

  /** Java's `s.split(regex, -1)` for a literal separator: every part,
      trailing empty ones included (the same parts as Python's `split`). */
  function SplitKeep(s: string, sep: string): (parts: seq<string>)
    requires sep != []
    ensures |parts| >= 1
  {
    Split(s, sep)
  }

  function DropTrailingEmpty(parts: seq<string>): (r: seq<string>)
    ensures |r| <= |parts| && r == parts[..|r|]
    ensures r != [] ==> r[|r| - 1] != ""
    ensures forall i :: |r| <= i < |parts| ==> parts[i] == ""
  {
    if parts == [] then []
    else if parts[|parts| - 1] == "" then DropTrailingEmpty(parts[..|parts| - 1])
    else parts
  }

  /** Java's `s.split(regex)` for a literal separator: a text without the
      separator is its own single part; otherwise trailing empty parts are
      removed. */
  function SplitJava(s: string, sep: string): (parts: seq<string>)
    requires sep != []
  {
    if !Contains(s, sep) then [s] else DropTrailingEmpty(Split(s, sep))
  }

  /** Whatever `split` returns, a non-empty result begins with the text
      before the first separator, and an empty result happens only when that
      text is empty too. */
  lemma SplitJavaHead(s: string, sep: string)
    requires sep != []
    ensures SplitJava(s, sep) != [] ==> SplitJava(s, sep)[0] == BeforeFirst(s, sep)
    ensures SplitJava(s, sep) == [] ==> BeforeFirst(s, sep) == ""
  {
    if Contains(s, sep) {
      var parts := Split(s, sep);
      var r := DropTrailingEmpty(parts);
      if r != [] {
        assert r[0] == parts[0];
      } else {
        assert parts[0] == "";
      }
    } else {
      FindIffContains(s, sep);
    }
  }

  /** Joining parts free of `c` with a separator free of `c` gives a text
      free of `c`. */
  lemma {:induction false} JoinCharFree(parts: seq<string>, sep: string, c: char)
    requires !HasChar(sep, c)
    requires forall i :: 0 <= i < |parts| ==> !HasChar(parts[i], c)
    ensures !HasChar(Join(parts, sep), c)
    decreases |parts|
  {
    if |parts| > 1 {
      JoinCharFree(parts[1..], sep, c);
      HasCharConcat(parts[0], sep, c);
      HasCharConcat(parts[0] + sep, Join(parts[1..], sep), c);
    }
  }

  /** Replacing one separator character by another in joined parts that
      hold neither is joining with the other. */
  lemma {:induction false} ReplaceJoin(parts: seq<string>, a: char, b: char)
    requires forall i :: 0 <= i < |parts| ==> !HasChar(parts[i], a)
    ensures ReplaceChar(Join(parts, [a]), a, b) == Join(parts, [b])
    decreases |parts|
  {
    if |parts| == 1 {
      ReplaceCharAbsent(parts[0], a, b);
    } else if |parts| > 1 {
      ReplaceJoin(parts[1..], a, b);
      ReplaceCharAtFirst(parts[0], Join(parts[1..], [a]), a, b);
      ReplaceCharAbsent(parts[0], a, b);
    }
  }

  /** Removing a prefix of a concatenation. */
  lemma DropPrefix(p: string, s: string)
    ensures StartsWith(p + s, p) && (p + s)[|p|..] == s
  {
    assert (p + s)[..|p|] == p;
  }

  /** An occurrence found after a prefix is an occurrence in the whole text. */
  lemma OccursShift(a: string, b: string, p: string, j: int)
    requires OccursAt(b, p, j)
    ensures OccursAt(a + b, p, |a| + j)
  {
    assert (a + b)[|a| + j..|a| + j + |p|] == b[j..j + |p|];
  }

  /** The parts around the only occurrence of a separator. */
  lemma SplitOnce(a: string, sep: string, b: string)
    requires sep != [] && OccursOnce(a + sep + b, sep)
    ensures Split(a + sep + b, sep) == [a, b]
  {
    var s := a + sep + b;
    assert s[|a|..|a| + |sep|] == sep;
    assert OccursAt(s, sep, |a|);
    var f := Find(s, sep);
    FindIffContains(s, sep);
    assert OccursAt(s, sep, f.value);
    assert f == Some(|a|);
    assert s[..|a|] == a && s[|a| + |sep|..] == b;
    if Contains(b, sep) {
      var j :| 0 <= j <= |b| - |sep| && OccursAt(b, sep, j);
      OccursShift(a + sep, b, sep, j);
      assert false;
    }
    FindIffContains(b, sep);
  }

  /** A text free of the separator's first character cannot hold the start
      of an occurrence, not even one running past its end. */
  lemma FirstCharFreeHead(a: string, sep: string)
    requires sep != [] && !HasChar(a, sep[0])
    ensures FreeHead(a, sep)
  {
    var h := a + sep[..|sep| - 1];
    forall j | 0 <= j <= |h| - |sep| ensures !OccursAt(h, sep, j) {
      assert h[j] == a[j];
    }
  }

  /** A text free of the separator's first character splits right after
      itself. */
  lemma SplitAfterFree(a: string, sep: string, b: string)
    requires sep != [] && !HasChar(a, sep[0])
    ensures Split(a + sep + b, sep) == [a] + Split(b, sep)
  {
    FirstCharFreeHead(a, sep);
    FindConcat(a, sep, b);
    var s := a + sep + b;
    assert s[..|a|] == a && s[|a| + |sep|..] == b;
  }

  /** The character class `[a-zA-Z0-9._-]`. */
  predicate IsVersionChar(c: char) {
    IsAlnum(c) || c == '.' || c == '_' || c == '-'
  }

  /** `\d+` on a whole text: Java's `\d` is the ASCII digits. */
  predicate IsDigits(s: string) {
    |s| > 0 && forall i :: 0 <= i < |s| ==> IsDigit(s[i])
  }

  /** `\d+\.\d+\.\d+` on a whole text: three digit runs separated by dots. */
  predicate IsPlainVersion(s: string) {
    var parts := Split(s, ".");
    |parts| == 3 && IsDigits(parts[0]) && IsDigits(parts[1]) && IsDigits(parts[2])
  }

  /** A plain version is made of digits and dots, holds a dot and no
      hyphen. */
  lemma PlainVersionChars(s: string)
    requires IsPlainVersion(s)
    ensures s != "" && Contains(s, ".") && !HasChar(s, '-')
    ensures forall i :: 0 <= i < |s| ==> IsDigit(s[i]) || s[i] == '.'
  {
    var parts := Split(s, ".");
    FindIffContains(s, ".");
    JoinSplit(s, ".");
    assert Join(parts[2..], ".") == parts[2];
    assert Join(parts[1..], ".") == parts[1] + "." + parts[2];
    assert s == parts[0] + "." + (parts[1] + "." + parts[2]);
    forall i | 0 <= i < |s| ensures IsDigit(s[i]) || s[i] == '.' {
      if i < |parts[0]| {
        assert s[i] == parts[0][i];
      } else if i == |parts[0]| {
      } else if i < |parts[0]| + 1 + |parts[1]| {
        assert s[i] == parts[1][i - |parts[0]| - 1];
      } else if i == |parts[0]| + 1 + |parts[1]| {
      } else {
        assert s[i] == parts[2][i - |parts[0]| - |parts[1]| - 2];
      }
    }
  }

  /** Parts free of the separator's first character, joined, split back
      into the same parts. */
  lemma {:induction false} SplitJoinFree(parts: seq<string>, sep: string)
    requires parts != [] && sep != []
    requires forall k :: 0 <= k < |parts| ==> !HasChar(parts[k], sep[0])
    ensures Split(Join(parts, sep), sep) == parts
    decreases |parts|
  {
    if |parts| == 1 {
      var p := parts[0];
      FirstCharFreeHead(p, sep);
      var h := p + sep[..|sep| - 1];
      assert h[0..|p|] == p;
      ContainsInSlice(h, 0, |p|, sep);
      FindIffContains(p, sep);
    } else {
      SplitJoinFree(parts[1..], sep);
      SplitAfterFree(parts[0], sep, Join(parts[1..], sep));
      assert [parts[0]] + parts[1..] == parts;
    }
  }

  /** `[a-zA-Z0-9_]`. */
  predicate IsWordChar(c: char) {
    IsAlnum(c) || c == '_'
  }

  /** `^[a-zA-Z0-9_]+$`. */
  predicate IsWord(s: string) {
    |s| > 0 && forall i :: 0 <= i < |s| ==> IsWordChar(s[i])
  }

  /** A word holds no separator, dot, hyphen or blank. */
  lemma WordFree(s: string)
    requires IsWord(s)
    ensures !HasChar(s, '/') && !HasChar(s, '\\') && !HasChar(s, '.') && !HasChar(s, '-')
  {
  }
}
