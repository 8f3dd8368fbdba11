/** Field values as the document store hands them back, and the two Python
    idioms the extractor applies to them: truthiness and `dict.get` with a
    default. */
module Values {

  datatype Option<T> = None | Some(value: T)

  /** A document field value. Numbers and strings are opaque to the extractor:
      only their truthiness and their identity matter. */
  datatype Value =
    | Null
    | Bool(b: bool)
    | Int(i: int)
    | Float(r: real)
    | Str(s: string)
    | Arr(items: seq<Value>)
    | Obj(fields: map<string, Value>)

  /** Python truthiness: `None`, `False`, zero, and empty strings, lists and
      dicts are false; everything else is true. */
  predicate Truthy(v: Value) {
    match v
    case Null => false
    case Bool(b) => b
    case Int(i) => i != 0
    case Float(r) => r != 0.0
    case Str(s) => s != ""
    case Arr(items) => items != []
    case Obj(fields) => fields != map[]
  }

  /** `fields.get(aliases[0], fields.get(aliases[1], ... default))`. */
  function Resolve(fields: map<string, Value>, aliases: seq<string>, default: Value): Value
    decreases |aliases|
  {
    if aliases == [] then default
    else if aliases[0] in fields then fields[aliases[0]]
    else Resolve(fields, aliases[1..], default)
  }

  /** Resolution goes by key presence: the value under the first alias that is
      PRESENT as a key, whatever that value is, and `default` only when no
      alias is present. */
  lemma {:induction false} ResolveFirstPresent(fields: map<string, Value>, aliases: seq<string>, default: Value)
    ensures (forall i :: 0 <= i < |aliases| ==> aliases[i] !in fields) ==> Resolve(fields, aliases, default) == default
    ensures forall i :: 0 <= i < |aliases| && aliases[i] in fields
                        && (forall j :: 0 <= j < i ==> aliases[j] !in fields)
                        ==> Resolve(fields, aliases, default) == fields[aliases[i]]
    decreases |aliases|
  {
    if aliases != [] && aliases[0] !in fields {
      ResolveFirstPresent(fields, aliases[1..], default);
      assert forall i :: 1 <= i < |aliases| ==> aliases[1..][i - 1] == aliases[i];
    }
  }

  /** With two aliases, resolution is exactly the nested `get` of the source. */
  lemma ResolveTwo(fields: map<string, Value>, first: string, second: string, default: Value)
    ensures Resolve(fields, [first, second], default)
            == if first in fields then fields[first]
               else if second in fields then fields[second]
               else default
  {
    assert [first, second][0] == first && [first, second][1..] == [second];
    assert Resolve(fields, [second], default) == if second in fields then fields[second] else default by {
      assert [second][0] == second && [second][1..] == [];
    }
  }
}
