// A JSON value as JavaScript sees it after JSON.parse, with `undefined` for
// a missing property, and the object operations the model needs.
module Json {
  import opened Wrappers

  datatype Json =
    | Undefined
    | Null
    | Bool(b: bool)
    | Num(n: real)
    | Str(s: string)
    | Arr(items: seq<Json>)
    | Obj(fields: seq<(string, Json)>)

  /** The value bound to `key` in a field list; the last binding wins, as in JSON.parse. */
  function Get(fields: seq<(string, Json)>, key: string): (r: Option<Json>)
    ensures r.Some? ==> (key, r.value) in fields
    ensures r.None? <==> forall i :: 0 <= i < |fields| ==> fields[i].0 != key
  {
    if fields == [] then None
    else if fields[|fields| - 1].0 == key then Some(fields[|fields| - 1].1)
    else Get(fields[..|fields| - 1], key)
  }

  /** Property access `value[key]`: undefined when absent or when `value` is not an object. */
  function Field(value: Json, key: string): Json
  {
    if value.Obj? then Get(value.fields, key).GetOr(Undefined) else Undefined
  }

  /** The keys of a field list, in order. */
  function KeysOf(fields: seq<(string, Json)>): seq<string>
  {
    seq(|fields|, i requires 0 <= i < |fields| => fields[i].0)
  }

  /**
    * Assignment `obj[key] = value` on an object with distinct keys: an
    * existing key keeps its position and takes the new value, a new key goes
    * at the end.
    */
  function Put(fields: seq<(string, Json)>, key: string, value: Json): (r: seq<(string, Json)>)
    ensures Get(r, key) == Some(value)
    ensures forall k :: k != key ==> Get(r, k) == Get(fields, k)
    ensures key in KeysOf(fields) ==> KeysOf(r) == KeysOf(fields)
    ensures key !in KeysOf(fields) ==> KeysOf(r) == KeysOf(fields) + [key]
  {
    if key in KeysOf(fields) then
      var r := seq(|fields|, i requires 0 <= i < |fields| => if fields[i].0 == key then (key, value) else fields[i]);
      assert exists i :: 0 <= i < |r| && r[i] == (key, value) by {
        var j :| 0 <= j < |fields| && KeysOf(fields)[j] == key;
        assert r[j] == (key, value);
      }
      forall k | k != key ensures Get(r, k) == Get(fields, k) {
        GetOfRewritten(fields, r, key, value, k);
      }
      r
    else
      assert forall i :: 0 <= i < |fields| ==> fields[i].0 != key by {
        forall i | 0 <= i < |fields| ensures fields[i].0 != key {
          assert KeysOf(fields)[i] == fields[i].0;
        }
      }
      var r := fields + [(key, value)];
      assert r[..|fields|] == fields;
      r
  }

  /** Rewriting every binding of `key` to `value` leaves the other keys' values as they were. */
  lemma {:induction false} GetOfRewritten(fields: seq<(string, Json)>, r: seq<(string, Json)>, key: string, value: Json, k: string)
    requires |r| == |fields|
    requires forall i :: 0 <= i < |r| ==> r[i] == (if fields[i].0 == key then (key, value) else fields[i])
    requires k != key
    ensures Get(r, k) == Get(fields, k)
    decreases |r|
  {
    if r != [] {
      var n := |r| - 1;
      if r[n].0 != k {
        GetOfRewritten(fields[..n], r[..n], key, value, k);
      }
    }
  }

  /** `{...fields, ...more}` / `{**fields, **more}`: the bindings of `more` put one after the other. */
  function Merge(fields: seq<(string, Json)>, more: seq<(string, Json)>): (r: seq<(string, Json)>)
    decreases |more|
  {
    if more == [] then fields else Merge(Put(fields, more[0].0, more[0].1), more[1..])
  }

  /** After a merge, a key takes its value from `more` when bound there, and from `fields` otherwise. */
  lemma {:induction false} MergeGet(fields: seq<(string, Json)>, more: seq<(string, Json)>, k: string)
    ensures Get(Merge(fields, more), k) == if Get(more, k).Some? then Get(more, k) else Get(fields, k)
    decreases |more|
  {
    if more != [] {
      var rest := more[1..];
      var put := Put(fields, more[0].0, more[0].1);
      assert Merge(fields, more) == Merge(put, rest);
      MergeGet(put, rest, k);
      assert more == [more[0]] + rest;
      GetFront(more[0], rest, k);
      if Get(rest, k).None? {
        if more[0].0 == k {
          assert Get(put, k) == Some(more[0].1);
        } else {
          assert Get(put, k) == Get(fields, k);
        }
      }
    }
  }

  /** Looking a key up in a list with one more binding in front. */
  lemma {:induction false} GetFront(first: (string, Json), rest: seq<(string, Json)>, k: string)
    ensures Get([first] + rest, k) == if Get(rest, k).Some? then Get(rest, k) else if first.0 == k then Some(first.1) else None
    decreases |rest|
  {
    if rest != [] {
      var s := [first] + rest;
      assert s[..|s| - 1] == [first] + rest[..|rest| - 1];
      GetFront(first, rest[..|rest| - 1], k);
    } else {
      assert [first] + rest == [first];
    }
  }

  /** A merge keeps every key of the original object, in place, in front of the new ones. */
  lemma {:induction false} MergeKeepsKeys(fields: seq<(string, Json)>, more: seq<(string, Json)>)
    ensures |KeysOf(fields)| <= |KeysOf(Merge(fields, more))|
    ensures KeysOf(Merge(fields, more))[..|KeysOf(fields)|] == KeysOf(fields)
    decreases |more|
  {
    if more != [] {
      var put := Put(fields, more[0].0, more[0].1);
      MergeKeepsKeys(put, more[1..]);
      assert KeysOf(put)[..|KeysOf(fields)|] == KeysOf(fields);
    }
  }
}
