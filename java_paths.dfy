/** `java.nio.file.Path` on a Unix file system, as far as the services use
    it: parsing, printing, `resolve`, `normalize`, `relativize`,
    `getParent` and `startsWith`. A path is its root flag and its name
    elements; `Paths.get` already drops redundant and trailing slashes. */
module JavaPaths {
  import opened Text

  datatype Path = Path(absolute: bool, names: seq<string>)

  /** A name element is non-empty and has no separator. */
  predicate IsName(n: string) {
    n != "" && !HasChar(n, '/')
  }

  predicate WellFormed(p: Path) {
    forall i :: 0 <= i < |p.names| ==> IsName(p.names[i])
  }

  /** The length of the leading run of non-separator characters. */
  function NameLength(s: string): (n: nat)
    ensures n <= |s|
    ensures forall i :: 0 <= i < n ==> s[i] != '/'
    ensures n < |s| ==> s[n] == '/'
  {
    if s == [] || s[0] == '/' then 0 else 1 + NameLength(s[1..])
  }

  /** The name elements of a path string: the non-empty runs between slashes. */
  function Names(s: string): (r: seq<string>)
    ensures forall i :: 0 <= i < |r| ==> IsName(r[i])
    decreases |s|
  {
    if s == [] then []
    else if s[0] == '/' then Names(s[1..])
    else
      var n := NameLength(s);
      assert !HasChar(s[..n], '/');
      [s[..n]] + Names(s[n..])
  }

  /** `Paths.get(s)`, `Path.of(s)`, and the path the string overload of
      `resolve` builds from its argument. */
  function Get(s: string): (p: Path)
    ensures WellFormed(p)
    ensures p.absolute <==> StartsWith(s, "/")
  {
    Path(|s| > 0 && s[0] == '/', Names(s))
  }

  /** `Path.toString()`. */
  function ToString(p: Path): string {
    (if p.absolute then "/" else "") + Join(p.names, "/")
  }

  /** The names of a text free of a character are free of it. */
  lemma NamesFreeOf(s: string, c: char)
    requires !HasChar(s, c)
    ensures forall i :: 0 <= i < |Names(s)| ==> !HasChar(Names(s)[i], c)
    decreases |s|
  {
    if s != [] && s[0] == '/' {
      NamesFreeOf(s[1..], c);
    } else if s != [] {
      var n := NameLength(s);
      NamesFreeOf(s[n..], c);
    }
  }

  lemma {:induction false} NameLengthOf(n: string, t: string)
    requires !HasChar(n, '/')
    requires t == [] || t[0] == '/'
    ensures NameLength(n + t) == |n|
    decreases |n|
  {
    if n != [] {
      assert (n + t)[1..] == n[1..] + t;
      assert n[0] == (n + t)[0];
      NameLengthOf(n[1..], t);
    }
  }

  /** Parsing the printed names gives the names back. */
  lemma {:induction false} NamesJoin(names: seq<string>)
    requires forall i :: 0 <= i < |names| ==> IsName(names[i])
    ensures Names(Join(names, "/")) == names
    decreases |names|
  {
    if |names| == 1 {
      var n := names[0];
      NameLengthOf(n, []);
      assert n[..|n|] == n && n[|n|..] == [];
    } else if |names| > 1 {
      var n, rest := names[0], names[1..];
      var s := Join(rest, "/");
      JoinCons(n, rest, "/");
      assert Join(names, "/") == n + ("/" + s);
      NameLengthOf(n, "/" + s);
      assert (n + ("/" + s))[..|n|] == n;
      assert (n + ("/" + s))[|n|..] == "/" + s;
      assert ("/" + s)[1..] == s;
      NamesJoin(rest);
    }
  }

  /** Printing a well-formed path and parsing the text gives the path back:
      `Paths.get(p.toString()).equals(p)`. */
  lemma GetToString(p: Path)
    requires WellFormed(p)
    ensures Get(ToString(p)) == p
  {
    NamesJoin(p.names);
    var s := Join(p.names, "/");
    if p.absolute {
      NamesAfterSlash(s);
    } else {
      assert ToString(p) == s;
      if p.names != [] {
        JoinHead(p.names);
      }
    }
  }

  lemma NamesAfterSlash(s: string)
    ensures Names("/" + s) == Names(s)
  {
    assert ("/" + s)[1..] == s;
  }

  lemma JoinHead(names: seq<string>)
    requires names != [] && names[0] != ""
    ensures Join(names, "/") != [] && Join(names, "/")[0] == names[0][0]
  {
    if |names| > 1 {
      JoinCons(names[0], names[1..], "/");
      assert names == [names[0]] + names[1..];
    }
  }

  /** `p.resolve(q)`: an absolute `q` replaces `p`; a relative one is appended. */
  function Resolve(p: Path, q: Path): (r: Path)
    ensures q.absolute ==> r == q
    ensures !q.absolute ==> r.absolute == p.absolute && r.names == p.names + q.names
  {
    if q.absolute then q else Path(p.absolute, p.names + q.names)
  }

  /** `p.resolve(s)` for a string argument. */
  function ResolveString(p: Path, s: string): Path {
    Resolve(p, Get(s))
  }

  lemma ResolveAssoc(p: Path, q: Path, r: Path)
    ensures Resolve(Resolve(p, q), r) == Resolve(p, Resolve(q, r))
  {
    if !q.absolute && !r.absolute {
      assert (p.names + q.names) + r.names == p.names + (q.names + r.names);
    }
  }

  predicate IsDotName(n: string) {
    n == "." || n == ".."
  }

  predicate HasDotNames(names: seq<string>) {
    exists i :: 0 <= i < |names| && IsDotName(names[i])
  }

  /** One step of `Path.normalize()`: `.` is dropped; `..` removes the
      previous name unless that is itself `..`; at the root a `..` is
      dropped, and at the start of a relative path it is kept. */
  function NormalizeStep(absolute: bool, acc: seq<string>, n: string): seq<string> {
    if n == "." then acc
    else if n == ".." then
      (if |acc| > 0 && acc[|acc| - 1] != ".." then acc[..|acc| - 1]
       else if absolute then acc
       else acc + [".."])
    else acc + [n]
  }

  function NormalizeNames(absolute: bool, acc: seq<string>, rest: seq<string>): seq<string>
    decreases |rest|
  {
    if rest == [] then acc
    else NormalizeNames(absolute, NormalizeStep(absolute, acc, rest[0]), rest[1..])
  }

  /** `Path.normalize()`. */
  function Normalize(p: Path): Path {
    Path(p.absolute, NormalizeNames(p.absolute, [], p.names))
  }

  lemma {:induction false} NormalizeNamesPlain(absolute: bool, acc: seq<string>, rest: seq<string>)
    requires !HasDotNames(rest)
    ensures NormalizeNames(absolute, acc, rest) == acc + rest
    decreases |rest|
  {
    if rest != [] {
      assert !IsDotName(rest[0]);
      assert forall i :: 0 <= i < |rest[1..]| ==> rest[1..][i] == rest[i + 1];
      NormalizeNamesPlain(absolute, acc + [rest[0]], rest[1..]);
      assert acc + [rest[0]] + rest[1..] == acc + rest;
    }
  }

  /** A path without `.` or `..` elements is already normal. */
  lemma NormalizePlain(p: Path)
    requires !HasDotNames(p.names)
    ensures Normalize(p) == p
  {
    NormalizeNamesPlain(p.absolute, [], p.names);
  }

  /** No `.` survives normalisation, and `..` survives only in a leading
      run of a relative path. */
  predicate NormalForm(absolute: bool, names: seq<string>) {
    (forall i :: 0 <= i < |names| ==> names[i] != ".") &&
    (forall i :: 0 <= i < |names| && names[i] == ".." ==>
       !absolute && forall j :: 0 <= j < i ==> names[j] == "..")
  }

  lemma {:induction false} NormalizeNamesForm(absolute: bool, acc: seq<string>, rest: seq<string>)
    requires NormalForm(absolute, acc)
    ensures NormalForm(absolute, NormalizeNames(absolute, acc, rest))
    decreases |rest|
  {
    if rest != [] {
      var next := NormalizeStep(absolute, acc, rest[0]);
      if rest[0] == ".." && |acc| > 0 && acc[|acc| - 1] != ".." {
        assert next == acc[..|acc| - 1];
      } else if rest[0] == ".." && !absolute {
        assert next == acc + [".."];
        assert forall i :: 0 <= i < |acc| ==> acc[i] == "..";
      }
      assert NormalForm(absolute, next);
      NormalizeNamesForm(absolute, next, rest[1..]);
    }
  }

  /** Normalising a normal path changes nothing. */
  lemma {:induction false} NormalizeNamesIdle(absolute: bool, acc: seq<string>, rest: seq<string>)
    requires NormalForm(absolute, acc + rest)
    ensures NormalizeNames(absolute, acc, rest) == acc + rest
    decreases |rest|
  {
    if rest != [] {
      var n := rest[0];
      assert (acc + rest)[|acc|] == n;
      if n == ".." {
        assert forall j :: 0 <= j < |acc| ==> acc[j] == (acc + rest)[j];
        assert !absolute;
        assert NormalizeStep(absolute, acc, n) == acc + [n];
      } else {
        assert NormalizeStep(absolute, acc, n) == acc + [n];
      }
      assert acc + [n] + rest[1..] == acc + rest;
      NormalizeNamesIdle(absolute, acc + [n], rest[1..]);
    }
  }

  /** `normalize` is idempotent. */
  lemma NormalizeIdempotent(p: Path)
    ensures Normalize(Normalize(p)) == Normalize(p)
  {
    var q := Normalize(p);
    NormalizeNamesForm(p.absolute, [], p.names);
    assert [] + q.names == q.names;
    NormalizeNamesIdle(q.absolute, [], q.names);
  }

  /** The number of leading names two sequences share. */
  function CommonPrefix(a: seq<string>, b: seq<string>): (k: nat)
    ensures k <= |a| && k <= |b| && a[..k] == b[..k]
    ensures k < |a| && k < |b| ==> a[k] != b[k]
  {
    if a == [] || b == [] || a[0] != b[0] then 0
    else
      var k := CommonPrefix(a[1..], b[1..]);
      assert a[..k + 1] == [a[0]] + a[1..][..k];
      assert b[..k + 1] == [b[0]] + b[1..][..k];
      k + 1
  }

  function Ups(n: nat): (r: seq<string>)
    ensures |r| == n && forall i :: 0 <= i < n ==> r[i] == ".."
  {
    if n == 0 then [] else [".."] + Ups(n - 1)
  }

  /** `base.relativize(child)`: the relative path that leads from `base`
      to `child`, or `None` where Java throws IllegalArgumentException
      (one path absolute and the other not, or a `..` left in the part
      of `base` that has to be climbed). Paths holding `.` or `..` are
      normalised first. */
  function Relativize(base: Path, child: Path): (r: Option<Path>)
    ensures r.Some? ==> !r.value.absolute
    ensures base.absolute != child.absolute ==> r.None?
  {
    if child == base then Some(Path(false, []))
    else if base.absolute != child.absolute then None
    else if !base.absolute && base.names == [] then Some(child)
    else
      var b, c :=
        if HasDotNames(base.names) || HasDotNames(child.names) then Normalize(base).names else base.names,
        if HasDotNames(base.names) || HasDotNames(child.names) then Normalize(child).names else child.names;
      var k := CommonPrefix(b, c);
      if k == |b| then Some(Path(false, c[k..]))
      else if HasDotNames(b[k..]) then None
      else Some(Path(false, Ups(|b| - k) + c[k..]))
  }

  /** Relativising a plain path against one of its ancestors gives the
      remaining names, and resolving them against the ancestor gives the
      path back. */
  lemma RelativizeDescendant(base: Path, extra: seq<string>)
    requires !HasDotNames(base.names) && !HasDotNames(extra)
    ensures Relativize(base, Path(base.absolute, base.names + extra)) == Some(Path(false, extra))
    ensures Resolve(base, Path(false, extra)) == Path(base.absolute, base.names + extra)
  {
    var child := Path(base.absolute, base.names + extra);
    if child == base {
      assert |extra| == 0;
    } else if !base.absolute && base.names == [] {
      assert base.names + extra == extra;
    } else {
      forall i | 0 <= i < |child.names| ensures !IsDotName(child.names[i]) {
        if i < |base.names| {
          assert child.names[i] == base.names[i];
        } else {
          assert child.names[i] == extra[i - |base.names|];
        }
      }
      assert child.names[..|base.names|] == base.names;
      CommonPrefixOfPrefix(base.names, child.names);
      assert child.names[|base.names|..] == extra;
    }
  }

  lemma {:induction false} CommonPrefixOfPrefix(a: seq<string>, b: seq<string>)
    requires |a| <= |b| && b[..|a|] == a
    ensures CommonPrefix(a, b) == |a|
    decreases |a|
  {
    if a != [] {
      assert b[0] == a[0];
      assert b[1..][..|a| - 1] == a[1..];
      CommonPrefixOfPrefix(a[1..], b[1..]);
    }
  }

  /** `p.getParent()`: `None` for the root, the empty path and a single
      relative name (Java returns null), the root for a single absolute
      name, and otherwise the path without its last name. */
  function Parent(p: Path): (r: Option<Path>)
    ensures r.Some? ==>
      (r.value.absolute == p.absolute && |r.value.names| + 1 == |p.names| &&
       r.value.names == p.names[..|p.names| - 1])
    ensures r.None? <==> p.names == [] || (|p.names| == 1 && !p.absolute)
  {
    if p.names == [] then None
    else if |p.names| == 1 && !p.absolute then None
    else Some(Path(p.absolute, p.names[..|p.names| - 1]))
  }

  /** `p.startsWith(q)`: same kind of path, and `q`'s names lead `p`'s. */
  predicate StartsWithPath(p: Path, q: Path) {
    p.absolute == q.absolute && |q.names| <= |p.names| && p.names[..|q.names|] == q.names
  }

  lemma StartsWithResolve(p: Path, q: Path)
    requires !q.absolute
    ensures StartsWithPath(Resolve(p, q), p)
  {
    assert (p.names + q.names)[..|p.names|] == p.names;
  }

  lemma StartsWithTrans(p: Path, q: Path, r: Path)
    requires StartsWithPath(p, q) && StartsWithPath(q, r)
    ensures StartsWithPath(p, r)
  {
    assert p.names[..|r.names|] == p.names[..|q.names|][..|r.names|];
  }

  /** A parent is a proper ancestor. */
  lemma ParentStartsWith(p: Path)
    requires Parent(p).Some?
    ensures StartsWithPath(p, Parent(p).value) && Parent(p).value != p
  {
  }
}
