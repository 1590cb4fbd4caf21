/** String helpers shared by every module: the Python and Java string
    operations the scripts and services rely on, each specified by what
    it finds or produces rather than by how it scans. */
module Text {

  datatype Option<T> = None | Some(value: T)

  predicate StartsWith(s: string, p: string) {
    |p| <= |s| && s[..|p|] == p
  }

  lemma StartsWithExtend(s: string, p: string, t: string)
    requires StartsWith(s, p)
    ensures StartsWith(s + t, p)
  {
    assert (s + t)[..|p|] == s[..|p|];
  }

  predicate EndsWith(s: string, p: string) {
    |p| <= |s| && s[|s| - |p|..] == p
  }

  /** `p` occurs in `s` starting at index `i`. */
  predicate OccursAt(s: string, p: string, i: int) {
    0 <= i && i + |p| <= |s| && s[i..i + |p|] == p
  }

  /** Python's `p in s`, Java's `s.contains(p)`. */
  predicate Contains(s: string, p: string) {
    exists i :: 0 <= i <= |s| - |p| && OccursAt(s, p, i)
  }

  /** Python's `s.find(p, from)` and Java's `s.indexOf(p, from)`:
      the first occurrence at or after `from`. */
  function FindFrom(s: string, p: string, from: nat): (r: Option<nat>)
    ensures r.Some? ==> from <= r.value && OccursAt(s, p, r.value)
    ensures r.Some? ==> forall j :: from <= j < r.value ==> !OccursAt(s, p, j)
    ensures r.None? ==> forall j :: from <= j ==> !OccursAt(s, p, j)
    decreases |s| - from
  {
    if from + |p| > |s| then None
    else if s[from..from + |p|] == p then Some(from)
    else FindFrom(s, p, from + 1)
  }

  function Find(s: string, p: string): Option<nat> {
    FindFrom(s, p, 0)
  }

  lemma FindIffContains(s: string, p: string)
    ensures Find(s, p).Some? <==> Contains(s, p)
  {
    if Find(s, p).Some? {
      assert OccursAt(s, p, Find(s, p).value);
    }
  }

  /** Java's `s.lastIndexOf(c)` for a single character. */
  function LastIndexOf(s: string, c: char): (r: Option<nat>)
    ensures r.Some? ==> r.value < |s| && s[r.value] == c
    ensures r.Some? ==> forall j :: r.value < j < |s| ==> s[j] != c
    ensures r.None? ==> forall j :: 0 <= j < |s| ==> s[j] != c
  {
    if |s| == 0 then None
    else if s[|s| - 1] == c then Some(|s| - 1)
    else LastIndexOf(s[..|s| - 1], c)
  }

  predicate HasChar(s: string, c: char) {
    exists i :: 0 <= i < |s| && s[i] == c
  }

  /** Python's `s.split(sep)`: every part, empty ones included. */
  function Split(s: string, sep: string): (parts: seq<string>)
    requires sep != []
    ensures |parts| >= 1
    decreases |s|
  {
    match Find(s, sep)
    case None => [s]
    case Some(i) => [s[..i]] + Split(s[i + |sep|..], sep)
  }

  function Join(parts: seq<string>, sep: string): string {
    if |parts| == 0 then ""
    else if |parts| == 1 then parts[0]
    else parts[0] + sep + Join(parts[1..], sep)
  }

  /** The text around the first occurrence `Find` reports. */
  lemma FindAt(s: string, p: string, i: nat)
    requires Find(s, p) == Some(i)
    ensures i + |p| <= |s| && s == s[..i] + p + s[i + |p|..]
  {
    assert OccursAt(s, p, i);
  }

  lemma JoinCons(x: string, parts: seq<string>, sep: string)
    requires parts != []
    ensures Join([x] + parts, sep) == x + sep + Join(parts, sep)
  {
    assert ([x] + parts)[1..] == parts;
  }

  /** Splitting and re-joining with the same separator gives back the text. */
  lemma {:induction false} JoinSplit(s: string, sep: string)
    requires sep != []
    ensures Join(Split(s, sep), sep) == s
    decreases |s|
  {
    match Find(s, sep)
    case None =>
    case Some(i) =>
      var rest := s[i + |sep|..];
      var parts := Split(rest, sep);
      JoinSplit(rest, sep);
      assert Split(s, sep) == [s[..i]] + parts;
      JoinCons(s[..i], parts, sep);
      FindAt(s, sep, i);
  }

  /** The parts of a split never contain the separator. */
  lemma {:induction false} SplitPartsFree(s: string, sep: string)
    requires sep != []
    ensures forall k :: 0 <= k < |Split(s, sep)| ==> !Contains(Split(s, sep)[k], sep)
    decreases |s|
  {
    match Find(s, sep)
    case None =>
      FindIffContains(s, sep);
    case Some(i) =>
      var rest := s[i + |sep|..];
      SplitPartsFree(rest, sep);
      PrefixBeforeFirst(s, sep, i);
  }

  /** No occurrence starts before `i`, so the prefix up to `i` has none. */
  lemma PrefixBeforeFirst(s: string, p: string, i: nat)
    requires p != [] && i <= |s|
    requires forall j :: 0 <= j < i ==> !OccursAt(s, p, j)
    ensures !Contains(s[..i], p)
  {
    forall j | 0 <= j <= i - |p|
      ensures !OccursAt(s[..i], p, j)
    {
      assert !OccursAt(s, p, j);
      assert s[..i][j..j + |p|] == s[j..j + |p|];
    }
  }

  /** The text before the first occurrence of `sep`, or all of `s`:
      element 0 of Python's `s.split(sep)`. */
  function BeforeFirst(s: string, sep: string): (r: string)
    requires sep != []
    ensures r == Split(s, sep)[0]
    ensures StartsWith(s, r)
  {
    match Find(s, sep)
    case None => s
    case Some(i) => s[..i]
  }

  /** Lines without a newline, joined by newlines, split back into the
      same lines. */
  lemma {:induction false} SplitJoinLines(lines: seq<string>)
    requires lines != []
    requires forall k :: 0 <= k < |lines| ==> !HasChar(lines[k], '\n')
    ensures Split(Join(lines, "\n"), "\n") == lines
  {
    if |lines| == 1 {
      ContainsCharIffHasChar(lines[0], '\n');
      FindIffContains(lines[0], "\n");
    } else {
      var rest := lines[1..];
      SplitJoinLines(rest);
      JoinCons(lines[0], rest, "\n");
      assert [lines[0]] + rest == lines;
      SplitAtChar(lines[0], '\n', Join(rest, "\n"));
    }
  }

  /** Text that is each line followed by a newline. */
  function Unlines(lines: seq<string>): string {
    if lines == [] then "" else lines[0] + "\n" + Unlines(lines[1..])
  }

  lemma SplitAtChar(a: string, c: char, b: string)
    requires !HasChar(a, c)
    ensures Split(a + [c] + b, [c]) == [a] + Split(b, [c])
  {
    var s := a + [c] + b;
    ContainsCharIffHasChar(a, c);
    assert a + [c][..0] == a;
    FindConcat(a, [c], b);
    assert s[..|a|] == a;
    assert s[|a| + 1..] == b;
  }

  /** Newline-terminated lines split back into the lines and a final
      empty part. */
  lemma {:induction false} SplitUnlines(lines: seq<string>)
    requires forall k :: 0 <= k < |lines| ==> !HasChar(lines[k], '\n')
    ensures Split(Unlines(lines), "\n") == lines + [""]
  {
    if lines == [] {
      assert Find("", "\n") == None by {
        FindIffContains("", "\n");
      }
    } else {
      SplitUnlines(lines[1..]);
      SplitAtChar(lines[0], '\n', Unlines(lines[1..]));
      assert [lines[0]] + (lines[1..] + [""]) == lines + [""];
    }
  }
  lemma {:induction false} UnlinesSnoc(lines: seq<string>, last: string)
    ensures Unlines(lines + [last]) == Unlines(lines) + last + "\n"
  {
    if lines != [] {
      assert (lines + [last])[1..] == lines[1..] + [last];
      UnlinesSnoc(lines[1..], last);
    } else {
      assert [last][1..] == [];
    }
  }

  /** Python's `s.splitlines()` for text whose only line break is `\n`:
      the parts between newlines, without the empty part after a final one. */
  function SplitLines(s: string): (lines: seq<string>)
  {
    var parts := Split(s, "\n");
    if parts[|parts| - 1] == "" then parts[..|parts| - 1] else parts
  }

  lemma {:induction false} JoinSnoc(parts: seq<string>, sep: string, last: string)
    requires parts != []
    ensures Join(parts + [last], sep) == Join(parts, sep) + sep + last
  {
    if |parts| == 1 {
      assert (parts + [last])[1..] == [last];
    } else {
      assert (parts + [last])[1..] == parts[1..] + [last];
      JoinSnoc(parts[1..], sep, last);
    }
  }

  lemma {:induction false} JoinAsUnlines(parts: seq<string>)
    requires parts != []
    ensures Join(parts, "\n") == Unlines(parts[..|parts| - 1]) + parts[|parts| - 1]
  {
    if |parts| > 1 {
      var front := parts[..|parts| - 1];
      JoinAsUnlines(front);
      assert front + [parts[|parts| - 1]] == parts;
      JoinSnoc(front, "\n", parts[|parts| - 1]);
      assert front[..|front| - 1] + [front[|front| - 1]] == front;
      UnlinesSnoc(front[..|front| - 1], front[|front| - 1]);
    }
  }

  lemma {:induction false} UnlinesEndsInNewline(lines: seq<string>)
    requires lines != []
    ensures |Unlines(lines)| > 0 && Unlines(lines)[|Unlines(lines)| - 1] == '\n'
  {
    if |lines| > 1 {
      UnlinesEndsInNewline(lines[1..]);
    }
  }

  /** Text is its lines with a newline after each, the last newline being
      absent exactly when the text is non-empty and does not end in one. */
  lemma UnlinesSplitLines(s: string)
    ensures s == "" || s[|s| - 1] == '\n' ==> Unlines(SplitLines(s)) == s
    ensures s != "" && s[|s| - 1] != '\n' ==> Unlines(SplitLines(s)) == s + "\n"
  {
    var parts := Split(s, "\n");
    var last := parts[|parts| - 1];
    JoinSplit(s, "\n");
    JoinAsUnlines(parts);
    SplitPartsFree(s, "\n");
    assert s == Unlines(parts[..|parts| - 1]) + last;
    if last != "" {
      assert !Contains(last, "\n");
      assert last[|last| - 1] != '\n' by {
        if last[|last| - 1] == '\n' {
          assert OccursAt(last, "\n", |last| - 1);
        }
      }
      UnlinesSnoc(parts[..|parts| - 1], last);
      assert parts[..|parts| - 1] + [last] == parts;
    } else if |parts| > 1 {
      UnlinesEndsInNewline(parts[..|parts| - 1]);
    }
  }

  /** Splitting newline-terminated lines gives them back. */
  lemma SplitLinesUnlines(lines: seq<string>)
    requires forall k :: 0 <= k < |lines| ==> !HasChar(lines[k], '\n')
    ensures SplitLines(Unlines(lines)) == lines
  {
    SplitUnlines(lines);
    assert (lines + [""])[..|lines|] == lines;
  }

  lemma SplitLinesEmpty()
    ensures SplitLines("") == []
  {
    assert Unlines([]) == "";
    SplitLinesUnlines([]);
  }

  /** Text that does not end in a newline has a non-empty last line. */
  lemma SplitLinesLastNonEmpty(s: string)
    requires s != "" && s[|s| - 1] != '\n'
    ensures SplitLines(s) != [] && SplitLines(s)[|SplitLines(s)| - 1] != ""
  {
    var lines := SplitLines(s);
    UnlinesSplitLines(s);
    assert |Unlines(lines)| == |s| + 1;
    {
      var front := lines[..|lines| - 1];
      var last := lines[|lines| - 1];
      assert front + [last] == lines;
      UnlinesSnoc(front, last);
      assert s + "\n" == (Unlines(front) + last) + "\n";
      assert s == (s + "\n")[..|s|];
      assert s == Unlines(front) + last;
      if front != [] {
        UnlinesEndsInNewline(front);
      }
    }
  }


  /** Python's `s.split(sep, 1)` when `sep in s`: the two sides of the
      first occurrence. */
  function SplitFirst(s: string, sep: string): (r: Option<(string, string)>)
    requires sep != []
    ensures r.None? <==> !Contains(s, sep)
    ensures r.Some? ==> s == r.value.0 + sep + r.value.1 && !Contains(r.value.0, sep)
  {
    FindIffContains(s, sep);
    match Find(s, sep)
    case None => None
    case Some(i) =>
      assert s == s[..i] + sep + s[i + |sep|..];
      PrefixBeforeFirst(s, sep, i);
      Some((s[..i], s[i + |sep|..]))
  }

  /** No proper suffix of `sep` is also a prefix of it (true of ":-" and
      "_virtual_imports/"), so an occurrence cannot straddle
      the end of a text that does not contain it. */
  predicate Unbordered(sep: string) {
    forall t :: 0 < t < |sep| ==> sep[t..] != sep[..|sep| - t]
  }

  /** An occurrence inside a slice is an occurrence in the whole text. */
  lemma ContainsInSlice(s: string, i: int, j: int, p: string)
    requires 0 <= i <= j <= |s|
    ensures Contains(s[i..j], p) ==> Contains(s, p)
  {
    if Contains(s[i..j], p) {
      var k :| 0 <= k <= |s[i..j]| - |p| && OccursAt(s[i..j], p, k);
      var t := s[i..j];
      assert t[k..k + |p|] == s[i + k..i + k + |p|] by {
        forall m | k <= m < k + |p| ensures t[m] == s[i + m] { }
      }
      assert OccursAt(s, p, i + k);
    }
  }

  /** An occurrence in `a + b` that starts past `a` is an occurrence in `b`. */
  lemma OccursInTail(a: string, b: string, p: string, j: int)
    requires |a| <= j && OccursAt(a + b, p, j)
    ensures OccursAt(b, p, j - |a|)
  {
    var s := a + b;
    assert s[j..j + |p|] == b[j - |a|..j - |a| + |p|] by {
      forall m | j <= m < j + |p| ensures s[m] == b[m - |a|] { }
    }
  }

  /** A one-character pattern occurs exactly where the character does. */
  lemma HasCharConcat(a: string, b: string, c: char)
    ensures HasChar(a + b, c) <==> HasChar(a, c) || HasChar(b, c)
  {
    if HasChar(a + b, c) {
      var i :| 0 <= i < |a + b| && (a + b)[i] == c;
      if i < |a| {
        assert a[i] == c;
      } else {
        assert b[i - |a|] == c;
      }
    }
    if HasChar(a, c) {
      var i :| 0 <= i < |a| && a[i] == c;
      assert (a + b)[i] == c;
    }
    if HasChar(b, c) {
      var i :| 0 <= i < |b| && b[i] == c;
      assert (a + b)[|a| + i] == c;
    }
  }

  lemma ContainsCharIffHasChar(s: string, c: char)
    ensures Contains(s, [c]) <==> HasChar(s, c)
  {
    if HasChar(s, c) {
      var i :| 0 <= i < |s| && s[i] == c;
      assert s[i..i + 1] == [c];
      assert OccursAt(s, [c], i);
    }
    if Contains(s, [c]) {
      var i :| 0 <= i <= |s| - 1 && OccursAt(s, [c], i);
      assert s[i] == s[i..i + 1][0];
    }
  }

  /** No occurrence of `sep` starts inside `a`, not even one that runs
      past its end: the condition for `a + sep + b` to split at `|a|`. */
  predicate FreeHead(a: string, sep: string)
    requires sep != []
  {
    !Contains(a + sep[..|sep| - 1], sep)
  }

  lemma NoOccurrenceInsideHead(a: string, sep: string, b: string, j: int)
    requires sep != [] && FreeHead(a, sep)
    requires 0 <= j < |a|
    ensures !OccursAt(a + sep + b, sep, j)
  {
    var s := a + sep + b;
    var h := a + sep[..|sep| - 1];
    if OccursAt(s, sep, j) {
      assert s[..|h|] == h;
      ContainsInSlice(s, 0, |h|, sep);
      assert s[..|h|][j..j + |sep|] == s[j..j + |sep|];
      assert OccursAt(h, sep, j);
    }
  }

  /** An unbordered separator cannot straddle the end of a text free of it. */
  lemma UnborderedFreeHead(a: string, sep: string)
    requires sep != [] && Unbordered(sep) && !Contains(a, sep)
    ensures FreeHead(a, sep)
  {
    var h := a + sep[..|sep| - 1];
    if Contains(h, sep) {
      var j :| 0 <= j <= |h| - |sep| && OccursAt(h, sep, j);
      if j + |sep| <= |a| {
        assert a[j..j + |sep|] == h[j..j + |sep|];
        assert OccursAt(a, sep, j);
      } else {
        StraddleIsBorder(a, sep, sep[|sep| - 1..], j);
      }
    }
  }

  /** An occurrence straddling the end of `a` makes a suffix of `sep`
      equal to a prefix of it. */
  lemma StraddleIsBorder(a: string, sep: string, b: string, j: int)
    requires 0 <= j < |a| < j + |sep| && j + |sep| <= |a + sep[..|sep| - 1]|
    requires OccursAt(a + sep[..|sep| - 1], sep, j)
    ensures sep[|a| - j..] == sep[..|sep| - (|a| - j)]
  {
    var s := a + sep[..|sep| - 1];
    var t := |a| - j;
    assert s[|a|..j + |sep|] == sep[t..];
    assert s[|a|..j + |sep|] == sep[..|sep| - t];
  }

  /** In `a + sep + b` with a free head, the first occurrence is the one
      placed right after `a`. */
  lemma FindConcat(a: string, sep: string, b: string)
    requires sep != [] && FreeHead(a, sep)
    ensures Find(a + sep + b, sep) == Some(|a|)
  {
    var s := a + sep + b;
    assert s[|a|..|a| + |sep|] == sep;
    assert OccursAt(s, sep, |a|);
    var r := Find(s, sep);
    if r.value < |a| {
      NoOccurrenceInsideHead(a, sep, b, r.value);
    }
  }

  lemma SplitFirstConcat(a: string, sep: string, b: string)
    requires sep != [] && FreeHead(a, sep)
    ensures SplitFirst(a + sep + b, sep) == Some((a, b))
  {
    FindConcat(a, sep, b);
    var s := a + sep + b;
    assert s[..|a|] == a;
    assert s[|a| + |sep|..] == b;
  }

  /** A text free of the character `c` splits at the `c` placed after it. */
  lemma SplitFirstAtChar(a: string, c: char, b: string)
    requires !HasChar(a, c)
    ensures SplitFirst(a + [c] + b, [c]) == Some((a, b))
  {
    ContainsCharIffHasChar(a, c);
    assert a + [c][..0] == a;
    SplitFirstConcat(a, [c], b);
  }

  /** Python's `s.rsplit(c, 1)` when `c in s`: the two sides of the last
      occurrence of the character. */
  function SplitLast(s: string, c: char): (r: Option<(string, string)>)
    ensures r.None? <==> !HasChar(s, c)
    ensures r.Some? ==> s == r.value.0 + [c] + r.value.1 && !HasChar(r.value.1, c)
  {
    match LastIndexOf(s, c)
    case None => None
    case Some(i) =>
      assert s == s[..i] + [c] + s[i + 1..];
      Some((s[..i], s[i + 1..]))
  }
  /** Splitting at the last `c` recovers the parts when the tail is free of `c`. */
  lemma SplitLastConcat(a: string, c: char, b: string)
    requires !HasChar(b, c)
    ensures SplitLast(a + [c] + b, c) == Some((a, b))
  {
    var s := a + [c] + b;
    assert s[|a|] == c;
    assert forall j :: |a| < j < |s| ==> s[j] == b[j - |a| - 1];
    var r := LastIndexOf(s, c);
    assert r.Some? && r.value == |a|;
    assert s[..|a|] == a && s[|a| + 1..] == b;
  }


  /** Java's `s.replace(a, b)` and Python's `s.replace(a, b)` for single characters. */
  /** `Path(p).name` and `os.path.basename(p)` for a path with no
      trailing `/`: the text after the last `/`. */
  function LastName(p: string): (r: string)
    ensures !HasChar(r, '/')
  {
    match SplitLast(p, '/')
    case None => p
    case Some((_, name)) => name
  }

  lemma LastNameOf(prefix: string, last: string)
    requires !HasChar(last, '/')
    ensures LastName(prefix + "/" + last) == last
  {
    SplitLastConcat(prefix, '/', last);
  }

  function ReplaceChar(s: string, a: char, b: char): (r: string)
    ensures |r| == |s|
    ensures forall i :: 0 <= i < |s| ==> r[i] == (if s[i] == a then b else s[i])
  {
    if |s| == 0 then "" else [if s[0] == a then b else s[0]] + ReplaceChar(s[1..], a, b)
  }

  lemma ReplaceCharConcat(s: string, t: string, a: char, b: char)
    ensures ReplaceChar(s + t, a, b) == ReplaceChar(s, a, b) + ReplaceChar(t, a, b)
  {
    var l, r := ReplaceChar(s + t, a, b), ReplaceChar(s, a, b) + ReplaceChar(t, a, b);
    forall i | 0 <= i < |l| ensures l[i] == r[i] {
      if i < |s| {
        assert (s + t)[i] == s[i];
      } else {
        assert (s + t)[i] == t[i - |s|];
      }
    }
  }

  lemma ReplaceCharAbsent(s: string, a: char, b: char)
    requires !HasChar(s, a)
    ensures ReplaceChar(s, a, b) == s
  {
  }

  /** The text before the first occurrence of a character is free of it. */
  lemma FindCharFirst(s: string, a: char, i: nat)
    requires Find(s, [a]) == Some(i)
    ensures i < |s| && s[i] == a && !HasChar(s[..i], a)
  {
    PrefixBeforeFirst(s, [a], i);
    ContainsCharIffHasChar(s[..i], a);
    assert s[i..i + 1] == [a];
  }

  lemma ReplaceCharAtFirst(head: string, rest: string, a: char, b: char)
    requires !HasChar(head, a)
    ensures ReplaceChar(head + [a] + rest, a, b) == head + [b] + ReplaceChar(rest, a, b)
  {
    ReplaceCharConcat(head + [a], rest, a, b);
    ReplaceCharConcat(head, [a], a, b);
    ReplaceCharAbsent(head, a, b);
    assert ReplaceChar([a], a, b) == [b];
  }

  /** A string is what lies before an index, the character there and
      what follows. */
  lemma AroundIndex(s: string, i: nat)
    requires i < |s|
    ensures s == s[..i] + [s[i]] + s[i + 1..]
  {
  }

  /** Splitting on one character and joining with another replaces the
      first character by the second everywhere. */
  lemma {:induction false} JoinSplitReplace(s: string, a: char, b: char)
    ensures Join(Split(s, [a]), [b]) == ReplaceChar(s, a, b)
    decreases |s|
  {
    match Find(s, [a])
    case None =>
      FindIffContains(s, [a]);
      ContainsCharIffHasChar(s, a);
      ReplaceCharAbsent(s, a, b);
    case Some(i) =>
      var head, rest := s[..i], s[i + 1..];
      FindCharFirst(s, a, i);
      JoinSplitReplace(rest, a, b);
      var parts := Split(rest, [a]);
      assert Split(s, [a]) == [head] + parts;
      JoinCons(head, parts, [b]);
      AroundIndex(s, i);
      ReplaceCharAtFirst(head, rest, a, b);
  }

  /** Python's `s.replace(a, "")` for a single character. */
  function RemoveChar(s: string, a: char): (r: string)
    ensures |r| <= |s|
    ensures !HasChar(r, a)
  {
    if |s| == 0 then "" else (if s[0] == a then "" else [s[0]]) + RemoveChar(s[1..], a)
  }

  function RemovePrefixRepeatedly(s: string, p: string): string
    requires p != []
    decreases |s|
  {
    if StartsWith(s, p) then RemovePrefixRepeatedly(s[|p|..], p) else s
  }

  /** Java's `String.trim()`: strips characters at or below U+0020. */
  predicate IsJavaSpace(c: char) { c <= ' ' }

  function TrimJava(s: string): (r: string)
    ensures |r| <= |s|
    ensures |r| > 0 ==> !IsJavaSpace(r[0]) && !IsJavaSpace(r[|r| - 1])
    ensures forall i :: 0 <= i < |s| && !IsJavaSpace(s[i]) ==> |r| > 0
  {
    TrimEnd(TrimStart(s, IsJavaSpace), IsJavaSpace)
  }

  /** The ASCII characters Python's `str.strip()` removes: tab to
      carriage return, the four separators U+001C to U+001F, and space. */
  predicate IsPySpace(c: char) {
    (9 <= c as int <= 13) || (28 <= c as int <= 32)
  }

  function StripPy(s: string): (r: string)
    ensures |r| <= |s|
    ensures |r| > 0 ==> !IsPySpace(r[0]) && !IsPySpace(r[|r| - 1])
    ensures forall i :: 0 <= i < |s| && !IsPySpace(s[i]) ==> |r| > 0
  {
    TrimEnd(TrimStart(s, IsPySpace), IsPySpace)
  }

  function TrimStart(s: string, space: char -> bool): (r: string)
    ensures |r| <= |s| && r == s[|s| - |r|..]
    ensures |r| > 0 ==> !space(r[0])
    ensures forall i :: 0 <= i < |s| && !space(s[i]) ==> |r| > |s| - i - 1
  {
    if |s| > 0 && space(s[0]) then TrimStart(s[1..], space) else s
  }

  function TrimEnd(s: string, space: char -> bool): (r: string)
    ensures |r| <= |s| && r == s[..|r|]
    ensures |r| > 0 ==> !space(r[|r| - 1])
    ensures forall i :: 0 <= i < |s| && !space(s[i]) ==> |r| > i
  {
    if |s| > 0 && space(s[|s| - 1]) then TrimEnd(s[..|s| - 1], space) else s
  }

  predicate IsBlankJava(s: string) { forall i :: 0 <= i < |s| ==> IsJavaSpace(s[i]) }

  lemma TrimJavaEmptyIffBlank(s: string)
    ensures TrimJava(s) == "" <==> IsBlankJava(s)
  {
  }

  predicate IsUpper(c: char) { 'A' <= c <= 'Z' }
  predicate IsLower(c: char) { 'a' <= c <= 'z' }
  predicate IsDigit(c: char) { '0' <= c <= '9' }
  predicate IsAlnum(c: char) { IsUpper(c) || IsLower(c) || IsDigit(c) }

  function ToLowerChar(c: char): (r: char)
    ensures !IsUpper(r)
    ensures IsUpper(c) ==> IsLower(r)
    ensures !IsUpper(c) ==> r == c
  {
    if IsUpper(c) then (c as int - 'A' as int + 'a' as int) as char else c
  }

  function ToUpperChar(c: char): (r: char)
    ensures !IsLower(r)
    ensures IsLower(c) ==> IsUpper(r)
    ensures !IsLower(c) ==> r == c
  {
    if IsLower(c) then (c as int - 'a' as int + 'A' as int) as char else c
  }

  /** Python's `lower()` / Java's `toLowerCase()` on ASCII letters. */
  function ToLower(s: string): (r: string)
    ensures |r| == |s|
    ensures forall i :: 0 <= i < |s| ==> r[i] == ToLowerChar(s[i])
  {
    if |s| == 0 then "" else [ToLowerChar(s[0])] + ToLower(s[1..])
  }

  /** Lexicographic order by code point: the order of Python's `sorted`
      on strings and of Java's `String.compareTo`. */
  predicate LexLe(a: string, b: string)
    decreases |a|
  {
    |a| == 0 || (|b| > 0 && (a[0] < b[0] || (a[0] == b[0] && LexLe(a[1..], b[1..]))))
  }

  lemma {:induction false} LexLeTotal(a: string, b: string)
    ensures LexLe(a, b) || LexLe(b, a)
    decreases |a|
  {
    if |a| > 0 && |b| > 0 && a[0] == b[0] { LexLeTotal(a[1..], b[1..]); }
  }

  lemma {:induction false} LexLeTrans(a: string, b: string, c: string)
    requires LexLe(a, b) && LexLe(b, c)
    ensures LexLe(a, c)
    decreases |a|
  {
    if |a| > 0 && a[0] == b[0] && b[0] == c[0] { LexLeTrans(a[1..], b[1..], c[1..]); }
  }

  lemma {:induction false} LexLeAntisym(a: string, b: string)
    requires LexLe(a, b) && LexLe(b, a)
    ensures a == b
    decreases |a|
  {
    if |a| > 0 {
      LexLeAntisym(a[1..], b[1..]);
      assert a == [a[0]] + a[1..] && b == [b[0]] + b[1..];
    }
  }
}
