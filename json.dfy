/** JSON documents as the Python scripts hold them after `json.load`:
    objects keep their keys in insertion order, as Python dicts do. */
module Json {
  import opened Text

  datatype Json =
    | Null
    | Bool(b: bool)
    | Num(n: int)
    | Str(s: string)
    | Arr(items: seq<Json>)
    | Obj(fields: seq<Field>)

  datatype Field = Field(key: string, value: Json)

  function Keys(fields: seq<Field>): (r: seq<string>)
    ensures |r| == |fields|
    ensures forall i {:trigger r[i]} :: 0 <= i < |fields| ==> r[i] == fields[i].key
  {
    if fields == [] then [] else [fields[0].key] + Keys(fields[1..])
  }

  lemma {:induction false} KeysAt(fields: seq<Field>, i: int)
    requires 0 <= i < |fields|
    ensures Keys(fields)[i] == fields[i].key
  {
    if i > 0 {
      KeysAt(fields[1..], i - 1);
    }
  }

  lemma {:induction false} KeysAppend(a: seq<Field>, b: seq<Field>)
    ensures Keys(a + b) == Keys(a) + Keys(b)
  {
    if a != [] {
      assert (a + b)[1..] == a[1..] + b;
      KeysAppend(a[1..], b);
    } else {
      assert a + b == b;
    }
  }

  /** The value stored under `key`: `d.get(key)`. */
  function Lookup(fields: seq<Field>, key: string): Option<Json> {
    if fields == [] then None
    else if fields[0].key == key then Some(fields[0].value)
    else Lookup(fields[1..], key)
  }

  /** `get` finds nothing exactly for a missing key. */
  lemma {:induction false} LookupMissing(fields: seq<Field>, key: string)
    ensures Lookup(fields, key).None? <==> key !in Keys(fields)
  {
    if fields != [] {
      assert Keys(fields) == [fields[0].key] + Keys(fields[1..]);
      LookupMissing(fields[1..], key);
    }
  }

  /** Where `get` finds `key`: the first field that has it. */
  function Position(fields: seq<Field>, key: string): (r: Option<nat>)
    ensures r.Some? ==> r.value < |fields| && fields[r.value].key == key
  {
    if fields == [] then None
    else if fields[0].key == key then Some(0)
    else match Position(fields[1..], key)
      case None => None
      case Some(i) => Some(i + 1)
  }

  /** `get` and the position agree, and the position is missing exactly
      when the key is. */
  lemma {:induction false} PositionIsLookup(fields: seq<Field>, key: string)
    ensures Position(fields, key).Some? ==> Lookup(fields, key) == Some(fields[Position(fields, key).value].value)
    ensures Position(fields, key).None? <==> key !in Keys(fields)
  {
    if fields != [] && fields[0].key != key {
      PositionIsLookup(fields[1..], key);
      assert Keys(fields) == [fields[0].key] + Keys(fields[1..]);
    }
  }

  /** `d.get(key, default)`. */
  function Get(fields: seq<Field>, key: string, default: Json): Json {
    match Lookup(fields, key)
    case None => default
    case Some(v) => v
  }

  /** The default is returned exactly for a missing key. */
  lemma GetDefault(fields: seq<Field>, key: string, default: Json)
    ensures key !in Keys(fields) ==> Get(fields, key, default) == default
    ensures key in Keys(fields) ==> Lookup(fields, key) == Some(Get(fields, key, default))
  {
    LookupMissing(fields, key);
  }

  /** Python's truth value of a loaded value: `None`, `False`, zero and
      empty strings, lists and dicts are false. */
  predicate Truthy(j: Json) {
    match j
    case Null => false
    case Bool(b) => b
    case Num(n) => n != 0
    case Str(s) => s != ""
    case Arr(items) => items != []
    case Obj(fields) => fields != []
  }

  /** The first field with a key is the one `get` finds. */
  lemma {:induction false} LookupAt(fields: seq<Field>, i: int, key: string)
    requires 0 <= i < |fields| && fields[i].key == key
    requires forall j :: 0 <= j < i ==> fields[j].key != key
    ensures Lookup(fields, key) == Some(fields[i].value)
  {
    if i > 0 {
      LookupAt(fields[1..], i - 1, key);
    }
  }

  /** A dict's keys are distinct. */
  predicate UniqueKeys(fields: seq<Field>) {
    forall i, j :: 0 <= i < j < |fields| ==> fields[i].key != fields[j].key
  }

  /** `d[key] = value`: an existing key keeps its place, a new one goes last. */
  function Put(fields: seq<Field>, key: string, value: Json): (r: seq<Field>)
    ensures key in Keys(fields) ==> Keys(r) == Keys(fields)
    ensures key !in Keys(fields) ==> Keys(r) == Keys(fields) + [key]
  {
    if fields == [] then [Field(key, value)]
    else if fields[0].key == key then [Field(key, value)] + fields[1..]
    else
      assert Keys(fields) == [fields[0].key] + Keys(fields[1..]);
      [fields[0]] + Put(fields[1..], key, value)
  }

  /** After `d[key] = value` the key reads back the value. */
  lemma {:induction false} PutThenLookup(fields: seq<Field>, key: string, value: Json)
    ensures Lookup(Put(fields, key, value), key) == Some(value)
  {
    if fields != [] && fields[0].key != key {
      PutThenLookup(fields[1..], key, value);
    }
  }

  /** `d[key] = value` leaves every other key as it was. */
  lemma {:induction false} PutKeepsOthers(fields: seq<Field>, key: string, value: Json, other: string)
    requires other != key
    ensures Lookup(Put(fields, key, value), other) == Lookup(fields, other)
  {
    if fields != [] && fields[0].key != key {
      PutKeepsOthers(fields[1..], key, value, other);
    } else if fields != [] {
      var r := Put(fields, key, value);
      assert r[1..] == fields[1..];
    }
  }

  /** `d[key] = value` keeps the keys distinct. */
  lemma PutUnique(fields: seq<Field>, key: string, value: Json)
    requires UniqueKeys(fields)
    ensures UniqueKeys(Put(fields, key, value))
  {
    var r := Put(fields, key, value);
    forall i, j | 0 <= i < j < |r| ensures r[i].key != r[j].key {
      KeysAt(r, i);
      KeysAt(r, j);
      KeysAt(fields, i);
      if j < |fields| {
        KeysAt(fields, j);
      }
    }
  }

  /** Putting a new key appends it. */
  lemma PutAbsent(fields: seq<Field>, key: string, value: Json)
    requires key !in Keys(fields)
    ensures Put(fields, key, value) == fields + [Field(key, value)]
  {
    if fields != [] {
      assert Keys(fields) == [fields[0].key] + Keys(fields[1..]);
      PutAbsent(fields[1..], key, value);
      assert fields == [fields[0]] + fields[1..];
    }
  }

  /** Lookup in a concatenation tries the first part, then the second. */
  lemma {:induction false} LookupAppend(a: seq<Field>, b: seq<Field>, key: string)
    ensures Lookup(a + b, key) == if key in Keys(a) then Lookup(a, key) else Lookup(b, key)
  {
    if a != [] {
      assert (a + b)[1..] == a[1..] + b;
      assert Keys(a) == [a[0].key] + Keys(a[1..]);
      LookupAppend(a[1..], b, key);
    } else {
      assert a + b == b;
    }
  }

  /** `d.update(other)`: each key of the second object put in turn. */
  function Update(fields: seq<Field>, more: seq<Field>): seq<Field>
    decreases |more|
  {
    if more == [] then fields else Update(Put(fields, more[0].key, more[0].value), more[1..])
  }

  /** Updating with keys that are all new appends them in order. */
  lemma {:induction false} UpdateFresh(fields: seq<Field>, more: seq<Field>)
    requires forall i :: 0 <= i < |more| ==> more[i].key !in Keys(fields)
    requires UniqueKeys(more)
    ensures Update(fields, more) == fields + more
    decreases |more|
  {
    if more != [] {
      var next, rest := UpdateFreshStep(fields, more);
      UpdateFresh(next, rest);
      assert next + rest == fields + more;
    }
  }

  /** The first key of a fresh update is appended, and the rest is still
      fresh for the result. */
  lemma UpdateFreshStep(fields: seq<Field>, more: seq<Field>) returns (next: seq<Field>, rest: seq<Field>)
    requires more != []
    requires forall i :: 0 <= i < |more| ==> more[i].key !in Keys(fields)
    requires UniqueKeys(more)
    ensures next == fields + [more[0]] && rest == more[1..]
    ensures Update(fields, more) == Update(next, rest)
    ensures forall i :: 0 <= i < |rest| ==> rest[i].key !in Keys(next)
    ensures UniqueKeys(rest)
  {
    PutAbsent(fields, more[0].key, more[0].value);
    next, rest := fields + [more[0]], more[1..];
    KeysAppend(fields, [more[0]]);
    assert Keys(next) == Keys(fields) + [more[0].key];
    forall i | 0 <= i < |rest| ensures rest[i].key !in Keys(next) {
      assert rest[i] == more[i + 1];
      assert more[0].key != more[i + 1].key;
      assert more[i + 1].key !in Keys(fields);
    }
    forall i, j | 0 <= i < j < |rest| ensures rest[i].key != rest[j].key {
      assert rest[i] == more[i + 1] && rest[j] == more[j + 1];
    }
  }
}
