/** What the lake, bundle and workspace initializers share: the template
    context they fill (a `HashMap<String, Object>` whose values are strings,
    booleans or lists of strings) and the name check both `validateBundleName`
    and `validateLakeName` apply. Each initializer names its template
    variables by a datatype of its own, whose `VarName` gives the string
    key the templates use. */
module InitCommon {
  import opened Text
  import opened JavaText

  /** A template variable's value. */
  datatype Value = Str(s: string) | Flag(b: bool) | Strs(items: seq<string>)

  type Context<K> = map<K, Value>

  /** A character of `[a-zA-Z0-9_-]`. */
  predicate IsNameChar(c: char) { IsAlnum(c) || c == '_' || c == '-' }

  /** `[a-zA-Z0-9_-]+` scanned from the left, as the regex engine does. */
  function ScanName(s: string): (b: bool)
    ensures b <==> s != "" && forall i :: 0 <= i < |s| ==> IsNameChar(s[i])
  {
    if |s| == 0 then false
    else if !IsNameChar(s[0]) then false
    else if |s| == 1 then true
    else
      var rest := ScanName(s[1..]);
      assert forall i :: 1 <= i < |s| ==> s[i] == s[1..][i - 1];
      rest
  }

  /** The check of a lake or bundle name (`kind` is `Lake` or `Bundle`):
      `IllegalArgumentException` for a missing or empty name, and for one
      with a character outside `[a-zA-Z0-9_-]`. */
  function CheckName(kind: string, name: Option<string>): (r: Result<string>)
    ensures r.Ok? <==> name.Some? && name.value != "" && forall i :: 0 <= i < |name.value| ==> IsNameChar(name.value[i])
    ensures r.Ok? ==> r.value == name.value
    ensures r.Err? && (name.None? || name.value == "") ==> r.error == kind + " name cannot be null or empty"
    ensures r.Err? && name.Some? && name.value != "" ==>
      r.error == kind + " name can only contain alphanumeric characters, hyphens, and underscores: " + name.value
  {
    if name.None? || name.value == "" then Err(kind + " name cannot be null or empty")
    else if !ScanName(name.value) then
      Err(kind + " name can only contain alphanumeric characters, hyphens, and underscores: " + name.value)
    else Ok(name.value)
  }

  /** A name that passes holds neither `/` nor `.`: it is one path name and
      one proto package component. */
  lemma CheckedNamePlain(kind: string, name: Option<string>)
    requires CheckName(kind, name).Ok?
    ensures !HasChar(name.value, '/') && !HasChar(name.value, '.') && !HasChar(name.value, '\\')
  {
    var n := name.value;
    forall i | 0 <= i < |n| ensures n[i] != '/' && n[i] != '.' && n[i] != '\\' {
      assert IsNameChar(n[i]);
    }
  }

  /** `Optional.ofNullable(s).orElse(d)`: the value when given, else the default. */
  function OrElse(s: Option<string>, d: string): string {
    if s.Some? then s.value else d
  }

  /** `Map.putIfAbsent`: the key gets the value only when it has none yet;
      every other entry stays. */
  function PutIfAbsent<K>(context: Context<K>, k: K, x: Value): Context<K>
  {
    if k in context then context else context[k := x]
  }
}
