// orchestrator/src/server/services/llm/utils/object.ts: reading a value at a
// path of property names and array indices inside a parsed JSON response.
module ObjectPath {
  import opened Json

  /** A path segment: a property name or an array index. */
  datatype Segment = Key(name: string) | Index(i: int)

  /** One step of the walk: an index needs an array, a name needs an object (arrays included). */
  function Step(current: Json, segment: Segment): (r: Json)
    ensures segment.Index? && !current.Arr? ==> r.Undefined?
    ensures segment.Key? && !current.Arr? && !current.Obj? ==> r.Undefined?
  {
    match segment
    case Index(i) => if current.Arr? && 0 <= i < |current.items| then current.items[i] else Undefined
    case Key(name) => if current.Obj? || current.Arr? then Field(current, name) else Undefined
  }

  /** The value at `path`. */
  function NestedValue(value: Json, path: seq<Segment>): Json
    decreases |path|
  {
    if path == [] then value else NestedValue(Step(value, path[0]), path[1..])
  }

  /** `getNestedValue`: walks the path, returning undefined as soon as a step does not fit. */
  method GetNestedValue(value: Json, path: seq<Segment>) returns (r: Json)
    ensures r == NestedValue(value, path)
  {
    var current := value;
    for k := 0 to |path|
      invariant NestedValue(current, path[k..]) == NestedValue(value, path)
    {
      assert path[k..][1..] == path[k + 1..];
      var segment := path[k];
      if segment.Index? {
        if !current.Arr? {
          UndefinedAbsorbs(path[k + 1..]);
          return Undefined;
        }
        current := Step(current, segment);
        continue;
      }
      if !current.Obj? && !current.Arr? {
        UndefinedAbsorbs(path[k + 1..]);
        return Undefined;
      }
      current := Step(current, segment);
    }
    r := current;
    assert path[|path|..] == [];
  }

  /** Once the value is undefined, every further segment gives undefined. */
  lemma {:induction false} UndefinedAbsorbs(path: seq<Segment>)
    ensures NestedValue(Undefined, path) == Undefined
    decreases |path|
  {
    if path != [] {
      UndefinedAbsorbs(path[1..]);
    }
  }

  /** Lookups compose: the value at `p + q` is the value at `q` inside the value at `p`. */
  lemma {:induction false} NestedValueAppend(value: Json, p: seq<Segment>, q: seq<Segment>)
    ensures NestedValue(value, p + q) == NestedValue(NestedValue(value, p), q)
    decreases |p|
  {
    if p != [] {
      assert (p + q)[1..] == p[1..] + q;
      NestedValueAppend(Step(value, p[0]), p[1..], q);
    } else {
      assert p + q == q;
    }
  }
}
