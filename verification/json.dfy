/** The loosely-typed request payloads the tasks receive, after JSON and date
    decoding, and the Python operators the validator applies to them. */
module Json {
  import opened Wrappers

  /** One decoded value. A key that is missing from a dictionary is modelled by
      its absence from the `Obj` map (or from a `Dict`), not by a constructor. */
  datatype Value =
    | Null
    | Bool(b: bool)
    | Int(i: int)
    | Str(s: string)
    | DateTime(stamp: int)
    | List(items: seq<Value>)
    | Obj(fields: map<string, Value>)

  /** A request dictionary such as a task's `input_data`. */
  type Dict = map<string, Value>

  /** `d.get(key, None)`. */
  function Get(d: Dict, key: string): Value {
    if key in d then d[key] else Null
  }

  /** `p` occurs as a contiguous piece of `s`. */
  predicate IsSubstring(p: string, s: string)
    decreases |s|
  {
    p <= s || (|s| > 0 && IsSubstring(p, s[1..]))
  }

  /** `p` starts at position `i` of `s`: the definition of a substring by
      position, independent of the recursive search above. */
  predicate OccursAt(p: string, s: string, i: int) {
    0 <= i <= |s| - |p| && s[i..i + |p|] == p
  }

  /** The recursive search finds `p` exactly when `p` occurs at some position. */
  lemma {:induction false} IsSubstringMeaning(p: string, s: string)
    ensures IsSubstring(p, s) <==> exists i :: OccursAt(p, s, i)
    decreases |s|
  {
    if p <= s {
      assert s[0..|p|] == p;
      assert OccursAt(p, s, 0);
    } else if |s| > 0 {
      IsSubstringMeaning(p, s[1..]);
      if IsSubstring(p, s[1..]) {
        var i :| OccursAt(p, s[1..], i);
        assert s[i + 1..i + 1 + |p|] == s[1..][i..i + |p|];
        assert OccursAt(p, s, i + 1);
      }
      if exists i :: OccursAt(p, s, i) {
        var i :| OccursAt(p, s, i);
        if i == 0 {
          assert false;
        }
        assert s[1..][i - 1..i - 1 + |p|] == s[i..i + |p|];
        assert OccursAt(p, s[1..], i - 1);
      }
    }
  }

  /** Python's `key in container` for a string key: key membership for a
      dictionary, element membership for a list, substring search for a string;
      `None` when Python raises a TypeError (the value is not a container). */
  function Contains(container: Value, key: string): (r: Option<bool>)
    ensures r.None? <==> !(container.Obj? || container.List? || container.Str?)
    ensures container.Obj? ==> r == Some(key in container.fields)
    ensures container.List? ==> r == Some(Str(key) in container.items)
    ensures container.Str? ==> (r == Some(true) <==> exists i :: OccursAt(key, container.s, i))
  {
    match container
    case Obj(fields) => Some(key in fields)
    case List(items) => Some(Str(key) in items)
    case Str(s) => IsSubstringMeaning(key, s); Some(IsSubstring(key, s))
    case _ => None
  }
}
