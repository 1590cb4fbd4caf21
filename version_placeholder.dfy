/** The version-placeholder expansion shared, word for word, by the wheel,
    npm and JAR bundlers: a `--version` argument of the form `${VAR}` or
    `${VAR:-default}` is looked up in the environment, and anything that
    still holds `${` afterwards falls back to `1.0.0`. */
module VersionPlaceholder {
  import opened Text

  const DefaultVersion := "1.0.0"
  const Open := "${"
  const Close := "}"
  const DefaultSep := ":-"

  /** `os.environ.get(name, fallback)`. */
  function EnvGet(env: map<string, string>, name: string, fallback: string): string {
    if name in env then env[name] else fallback
  }

  /** The argument with a `${ ... }` wrapper expanded, before the final check. */
  function Expand(version: string, env: map<string, string>): string {
    if StartsWith(version, Open) && EndsWith(version, Close) && |version| >= 3 then
      var content := version[2..|version| - 1];
      match SplitFirst(content, DefaultSep)
      case Some((name, fallback)) => EnvGet(env, name, fallback)
      case None => EnvGet(env, content, DefaultVersion)
    else version
  }

  /** The version a bundler builds with. */
  function ResolveVersion(version: string, env: map<string, string>): (r: string)
    ensures !Contains(r, Open)
    ensures r == DefaultVersion || r == Expand(version, env)
  {
    var v := Expand(version, env);
    if Contains(v, Open) then
      assert !Contains(DefaultVersion, Open) by {
        forall j ensures !OccursAt(DefaultVersion, Open, j) {
          if 0 <= j <= |DefaultVersion| - 2 {
            assert DefaultVersion[j..j + 2][0] != Open[0];
          }
        }
      }
      DefaultVersion
    else v
  }

  lemma DefaultSepUnbordered()
    ensures Unbordered(DefaultSep)
  {
    assert DefaultSep[1..][0] != DefaultSep[..1][0];
  }

  /** The text between `${` and `}`. */
  lemma WrappedContent(inner: string)
    ensures var v := Open + inner + Close;
      StartsWith(v, Open) && EndsWith(v, Close) && |v| >= 3 && v[2..|v| - 1] == inner
  {
    var v := Open + inner + Close;
    assert v[..2] == Open;
    assert v[|v| - 1..] == Close;
  }

  /** `${VAR:-d}` gives the variable when it is set, even to the empty
      string, and `d` otherwise; a name holding no `:-` splits there. */
  lemma WithDefault(name: string, fallback: string, env: map<string, string>)
    requires !Contains(name, DefaultSep)
    ensures var e := if name in env then env[name] else fallback;
      ResolveVersion(Open + name + DefaultSep + fallback + Close, env) ==
        if Contains(e, Open) then DefaultVersion else e
  {
    var inner := name + DefaultSep + fallback;
    assert Open + name + DefaultSep + fallback + Close == Open + inner + Close;
    WrappedContent(inner);
    DefaultSepUnbordered();
    UnborderedFreeHead(name, DefaultSep);
    SplitFirstConcat(name, DefaultSep, fallback);
  }

  /** `${VAR}` gives the variable when it is set and `1.0.0` otherwise. */
  lemma WithoutDefault(name: string, env: map<string, string>)
    requires !Contains(name, DefaultSep)
    ensures var e := if name in env then env[name] else DefaultVersion;
      ResolveVersion(Open + name + Close, env) ==
        if Contains(e, Open) then DefaultVersion else e
  {
    WrappedContent(name);
    FindIffContains(name, DefaultSep);
  }

  /** Only the first `:-` separates: the default may itself hold `:-`. */
  lemma DefaultKeepsLaterSeparators(env: map<string, string>)
    requires "V" !in env
    ensures ResolveVersion("${V:-1:-2}", env) == "1:-2"
  {
    var name, fallback := "V", "1:-2";
    assert !Contains(name, DefaultSep);
    assert "${V:-1:-2}" == Open + name + DefaultSep + fallback + Close;
    WithDefault(name, fallback, env);
    forall j ensures !OccursAt(fallback, Open, j) {
      if 0 <= j <= |fallback| - 2 {
        assert fallback[j..j + 2][0] != Open[0];
      }
    }
  }

  /** A version that is not wrapped and holds no `${` is used as given. */
  lemma LiteralUnchanged(version: string, env: map<string, string>)
    requires !Contains(version, Open)
    ensures ResolveVersion(version, env) == version
  {
    if StartsWith(version, Open) {
      assert OccursAt(version, Open, 0);
    }
  }

  /** A `${` anywhere but in a well-formed wrapper falls back to `1.0.0`. */
  lemma UnwrappedPlaceholderFallsBack(version: string, env: map<string, string>)
    requires Contains(version, Open) && !EndsWith(version, Close)
    ensures ResolveVersion(version, env) == DefaultVersion
  {
  }
}
