/** JSON-like JavaScript values, as parsed messages and settings documents are. An object is the
    ordered list of its own enumerable properties. */
module JsValues {
  import opened Wrappers

  datatype Value =
    | Undefined
    | Null
    | Bool(b: bool)
    | Num(n: int)
    | Str(s: string)
    | Arr(items: seq<Value>)
    | Obj(props: seq<Property>)

  datatype Property = Property(key: string, val: Value)

  /** The one exception the modelled code can raise by itself: reading a property of
      `undefined` or `null`. */
  datatype Thrown = TypeError

  /** The value of the first property named `key`. */
  function Lookup(props: seq<Property>, key: string): (r: Option<Value>)
    ensures r.Some? <==> exists i :: 0 <= i < |props| && props[i].key == key
  {
    if props == [] then None
    else if props[0].key == key then Some(props[0].val)
    else Lookup(props[1..], key)
  }

  /** The value of the last property named `key`: what wins when properties are assigned in order. */
  function LastValue(props: seq<Property>, key: string): (r: Option<Value>)
    ensures r.Some? <==> exists i :: 0 <= i < |props| && props[i].key == key
  {
    if props == [] then None
    else
      var later := LastValue(props[1..], key);
      if later.Some? then later
      else if props[0].key == key then Some(props[0].val)
      else None
  }

  /** A JavaScript object never has two own properties with the same name. */
  predicate UniqueKeys(props: seq<Property>) {
    forall i, j :: 0 <= i < j < |props| ==> props[i].key != props[j].key
  }

  /** `o.key` for a property name that no array, string, number or boolean has built in
      (such as `type`): a TypeError on undefined and null, and undefined where it is absent. */
  function Get(o: Value, key: string): (r: Result<Value, Thrown>)
    ensures r.Err? <==> o == Undefined || o == Null
    ensures o.Obj? ==> r == Ok(if Lookup(o.props, key).Some? then Lookup(o.props, key).value else Undefined)
  {
    match o
    case Undefined => Err(TypeError)
    case Null => Err(TypeError)
    case Obj(props) => Ok(Lookup(props, key).GetOr(Undefined))
    case _ => Ok(Undefined)
  }

  /** Assigning one property: an existing property keeps its place and takes the new value,
      a new one is added at the end. */
  function Put(props: seq<Property>, key: string, v: Value): seq<Property> {
    if props == [] then [Property(key, v)]
    else if props[0].key == key then [Property(key, v)] + props[1..]
    else [props[0]] + Put(props[1..], key, v)
  }

  /** After assigning `key`, reading `key` gives the new value and every other name reads as before. */
  lemma {:induction false} LookupPut(props: seq<Property>, key: string, v: Value, other: string)
    ensures Lookup(Put(props, key, v), key) == Some(v)
    ensures other != key ==> Lookup(Put(props, key, v), other) == Lookup(props, other)
  {
    if props != [] && props[0].key != key {
      LookupPut(props[1..], key, v, other);
    }
  }

  /** The properties in order, each assigned in turn onto `acc`. */
  function Assign(acc: seq<Property>, props: seq<Property>): seq<Property>
    decreases |props|
  {
    if props == [] then acc else Assign(Put(acc, props[0].key, props[0].val), props[1..])
  }

  /** Assignment overrides name by name: a name that `props` carries reads as its last value
      there, every other name reads as it did in `acc`. */
  lemma {:induction false} LookupAssign(acc: seq<Property>, props: seq<Property>, key: string)
    ensures Lookup(Assign(acc, props), key) ==
      if LastValue(props, key).Some? then LastValue(props, key) else Lookup(acc, key)
    decreases |props|
  {
    if props != [] {
      LookupAssign(Put(acc, props[0].key, props[0].val), props[1..], key);
      LookupPut(acc, props[0].key, props[0].val, key);
    }
  }

  /** Assigning properties whose names are new and distinct just appends them. */
  lemma {:induction false} AssignFresh(acc: seq<Property>, props: seq<Property>)
    requires UniqueKeys(props)
    requires forall i, j :: 0 <= i < |acc| && 0 <= j < |props| ==> acc[i].key != props[j].key
    ensures Assign(acc, props) == acc + props
    decreases |props|
  {
    if props != [] {
      PutFresh(acc, props[0].key, props[0].val);
      var acc' := acc + [props[0]];
      forall i, j | 0 <= i < |acc'| && 0 <= j < |props[1..]|
        ensures acc'[i].key != props[1..][j].key
      {
        if i < |acc| {
          assert props[1..][j] == props[j + 1];
        } else {
          assert acc'[i] == props[0] && props[1..][j] == props[j + 1];
        }
      }
      AssignFresh(acc', props[1..]);
      assert acc' + props[1..] == acc + props;
    }
  }

  /** Assigning a name the object does not have appends it. */
  lemma {:induction false} PutFresh(props: seq<Property>, key: string, v: Value)
    requires forall i :: 0 <= i < |props| ==> props[i].key != key
    ensures Put(props, key, v) == props + [Property(key, v)]
  {
    if props != [] {
      PutFresh(props[1..], key, v);
      assert [props[0]] + (props[1..] + [Property(key, v)]) == props + [Property(key, v)];
    }
  }

  /** For a well-formed object the first and the last property of a name are the same one. */
  lemma {:induction false} LastIsFirstWhenUnique(props: seq<Property>, key: string)
    requires UniqueKeys(props)
    ensures LastValue(props, key) == Lookup(props, key)
  {
    if props != [] {
      LastIsFirstWhenUnique(props[1..], key);
      if props[0].key == key {
        assert forall i :: 1 <= i < |props| ==> props[i].key != key;
        assert LastValue(props[1..], key).None?;
      }
    }
  }

  /** The decimal name of an array or string index ("0", "1", ..., "10", ...). */
  function IndexKey(i: nat): (r: string)
    ensures |r| > 0
  {
    var digit := ['0' + (i % 10) as char];
    if i < 10 then digit else IndexKey(i / 10) + digit
  }

  /** The own enumerable properties that object spread (`{...v}`) copies out of `v`: an object's
      properties, an array's indexed elements, a string's indexed one-character strings, and
      nothing for undefined, null, booleans and numbers. */
  function OwnEnumerable(v: Value): seq<Property> {
    match v
    case Obj(props) => props
    case Arr(items) => seq(|items|, i requires 0 <= i < |items| => Property(IndexKey(i), items[i]))
    case Str(s) => seq(|s|, i requires 0 <= i < |s| => Property(IndexKey(i), Str([s[i]])))
    case _ => []
  }
}
