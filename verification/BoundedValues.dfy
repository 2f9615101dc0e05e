/**
 * Tool results as the local model is shown them: no deeper than three levels, no wider
 * than 16 fields or 20 items, no longer than 1000 characters, and no secrets.
 */
module BoundedValues {
  import opened Wrappers

  /** A value of a tool's result; Other is what JSON cannot carry. */
  datatype Value = Str(text: string) | Scalar(of: int) | Null | Arr(items: seq<Value>) | Obj(fields: seq<Field>) | Other

  datatype Field = Field(key: string, value: Value)

  const MAX_TEXT := 1_000
  const MAX_FIELDS := 16
  const MAX_ITEMS := 20
  const MAX_DEPTH := 3

  /** Levels that may still be opened below this depth. */
  function Left(depth: nat): nat {
    if depth < MAX_DEPTH then MAX_DEPTH - depth else 0
  }

  function First<T>(s: seq<T>, n: nat): (r: seq<T>)
    ensures |r| <= n && r <= s
  {
    if |s| <= n then s else s[..n]
  }

  function Bound(v: Value, depth: nat, secret: string -> bool): Option<Value>
    decreases Left(depth), 0, 0
  {
    match v
    case Str(text) => Some(Str(First(text, MAX_TEXT)))
    case Scalar(_) | Null => Some(v)
    case Arr(items) => if depth >= MAX_DEPTH then None else Some(Arr(BoundItems(First(items, MAX_ITEMS), depth + 1, secret)))
    case Obj(fields) => if depth >= MAX_DEPTH then None else Some(Obj(BoundFields(First(fields, MAX_FIELDS), depth + 1, secret)))
    case Other => None
  }

  function BoundItems(items: seq<Value>, depth: nat, secret: string -> bool): (r: seq<Value>)
    decreases Left(depth), 1, |items|
  {
    if items == [] then []
    else
      BoundItems(items[..|items| - 1], depth, secret) +
      match Bound(items[|items| - 1], depth, secret) { case None => [] case Some(v) => [v] }
  }

  function BoundFields(fields: seq<Field>, depth: nat, secret: string -> bool): (r: seq<Field>)
    decreases Left(depth), 1, |fields|
  {
    if fields == [] then []
    else
      var f := fields[|fields| - 1];
      BoundFields(fields[..|fields| - 1], depth, secret) +
      if secret(f.key) then []
      else match Bound(f.value, depth, secret) { case None => [] case Some(v) => [Field(f.key, v)] }
  }

  /** What the local model sees of a result. */
  function BoundedResult(result: seq<Field>, secret: string -> bool): seq<Field> {
    BoundFields(First(result, MAX_FIELDS), 0, secret)
  }

  /** A value is dropped exactly when it cannot be carried or would open a fourth level; a text is cut to its beginning. */
  lemma DroppedExactly(v: Value, depth: nat, secret: string -> bool)
    ensures Bound(v, depth, secret).None? <==> v.Other? || (depth >= 3 && (v.Arr? || v.Obj?))
    ensures v.Str? ==> Bound(v, depth, secret) == Some(Str(if |v.text| <= 1000 then v.text else v.text[..1000]))
    ensures v.Arr? && depth < 3 ==>
              Bound(v, depth, secret) == Some(Arr(BoundItems(if |v.items| <= 20 then v.items else v.items[..20], depth + 1, secret)))
    ensures v.Obj? && depth < 3 ==>
              Bound(v, depth, secret) == Some(Obj(BoundFields(if |v.fields| <= 16 then v.fields else v.fields[..16], depth + 1, secret)))
  {
  }

  /** How many of the items are kept. */
  function KeptItems(items: seq<Value>, depth: nat): nat {
    if items == [] then 0
    else
      var v := items[|items| - 1];
      KeptItems(items[..|items| - 1], depth) + if v.Other? || (depth >= 3 && (v.Arr? || v.Obj?)) then 0 else 1
  }

  /** The items that are kept stay in order, each bounded. */
  lemma {:induction false} ItemsKeptInOrder(items: seq<Value>, depth: nat, secret: string -> bool)
    ensures |BoundItems(items, depth, secret)| == KeptItems(items, depth)
    ensures forall k | 0 <= k < |items| && Bound(items[k], depth, secret).Some? ::
              && KeptItems(items[..k], depth) < |BoundItems(items, depth, secret)|
              && BoundItems(items, depth, secret)[KeptItems(items[..k], depth)] == Bound(items[k], depth, secret).value
  {
    hide Bound;
    if items != [] {
      var front := items[..|items| - 1];
      ItemsKeptInOrder(front, depth, secret);
      DroppedExactly(items[|items| - 1], depth, secret);
      assert forall k | 0 <= k < |front| :: front[..k] == items[..k];
    }
  }

  /** How many of the fields are kept: those that are not secret and can be carried. */
  function KeptFields(fields: seq<Field>, depth: nat, secret: string -> bool): nat {
    if fields == [] then 0
    else
      var f := fields[|fields| - 1];
      KeptFields(fields[..|fields| - 1], depth, secret)
      + if secret(f.key) || f.value.Other? || (depth >= 3 && (f.value.Arr? || f.value.Obj?)) then 0 else 1
  }

  /** The fields that are kept stay in order under their keys, each value bounded. */
  lemma {:induction false} FieldsKeptInOrder(fields: seq<Field>, depth: nat, secret: string -> bool)
    ensures |BoundFields(fields, depth, secret)| == KeptFields(fields, depth, secret)
    ensures forall k | 0 <= k < |fields| && !secret(fields[k].key) && Bound(fields[k].value, depth, secret).Some? ::
              && KeptFields(fields[..k], depth, secret) < |BoundFields(fields, depth, secret)|
              && BoundFields(fields, depth, secret)[KeptFields(fields[..k], depth, secret)]
                 == Field(fields[k].key, Bound(fields[k].value, depth, secret).value)
  {
    hide Bound;
    if fields != [] {
      var front := fields[..|fields| - 1];
      FieldsKeptInOrder(front, depth, secret);
      DroppedExactly(fields[|fields| - 1].value, depth, secret);
      assert forall k | 0 <= k < |front| :: front[..k] == fields[..k];
    }
  }

  /** Within the bounds at every level below this depth. */
  predicate Within(v: Value, depth: nat, secret: string -> bool)
    decreases Left(depth), 0, 0
  {
    match v
    case Str(text) => |text| <= MAX_TEXT
    case Scalar(_) | Null => true
    case Arr(items) => depth < MAX_DEPTH && |items| <= MAX_ITEMS && ItemsWithin(items, depth + 1, secret)
    case Obj(fields) => depth < MAX_DEPTH && |fields| <= MAX_FIELDS && FieldsWithin(fields, depth + 1, secret)
    case Other => false
  }

  predicate ItemsWithin(items: seq<Value>, depth: nat, secret: string -> bool)
    decreases Left(depth), 1, |items|
  {
    forall i | 0 <= i < |items| :: Within(items[i], depth, secret)
  }

  predicate FieldsWithin(fields: seq<Field>, depth: nat, secret: string -> bool)
    decreases Left(depth), 1, |fields|
  {
    forall i | 0 <= i < |fields| :: !secret(fields[i].key) && Within(fields[i].value, depth, secret)
  }

  /** Whatever is kept is within the bounds, and everything within them is kept as it is. */
  lemma {:induction false} BoundMeetsTheBounds(v: Value, depth: nat, secret: string -> bool)
    ensures Bound(v, depth, secret).Some? ==> Within(Bound(v, depth, secret).value, depth, secret)
    ensures Within(v, depth, secret) ==> Bound(v, depth, secret) == Some(v)
    decreases Left(depth), 0, 0
  {
    match v
    case Arr(items) =>
      if depth < MAX_DEPTH { ItemsMeetTheBounds(First(items, MAX_ITEMS), depth + 1, secret); }
    case Obj(fields) =>
      if depth < MAX_DEPTH { FieldsMeetTheBounds(First(fields, MAX_FIELDS), depth + 1, secret); }
    case _ =>
  }

  lemma {:induction false} ItemsMeetTheBounds(items: seq<Value>, depth: nat, secret: string -> bool)
    ensures |BoundItems(items, depth, secret)| <= |items| && ItemsWithin(BoundItems(items, depth, secret), depth, secret)
    ensures ItemsWithin(items, depth, secret) ==> BoundItems(items, depth, secret) == items
    decreases Left(depth), 1, |items|
  {
    ItemsUnrolled(items, depth, secret);
    hide Bound, Within, BoundItems, ItemsWithin;
    if items != [] {
      var front, last := items[..|items| - 1], items[|items| - 1];
      ItemsMeetTheBounds(front, depth, secret);
      BoundMeetsTheBounds(last, depth, secret);
      assert items == front + [last];
      ItemsOneByOne(front, last, depth, secret);
      var bounded := Bound(last, depth, secret);
      assert BoundItems(front, depth, secret) + [] == BoundItems(front, depth, secret);
      if bounded.Some? { ItemsOneByOne(BoundItems(front, depth, secret), bounded.value, depth, secret); }
    }
  }

  lemma ItemsUnrolled(items: seq<Value>, depth: nat, secret: string -> bool)
    ensures BoundItems([], depth, secret) == [] && ItemsWithin([], depth, secret)
    ensures items != [] ==>
              var bounded := Bound(items[|items| - 1], depth, secret);
              BoundItems(items, depth, secret) ==
              BoundItems(items[..|items| - 1], depth, secret) + if bounded.Some? then [bounded.value] else []
  {
    hide Bound, Within;
  }

  lemma ItemsOneByOne(front: seq<Value>, last: Value, depth: nat, secret: string -> bool)
    ensures ItemsWithin(front + [last], depth, secret) <==> ItemsWithin(front, depth, secret) && Within(last, depth, secret)
  {
    hide Within;
    assert (front + [last])[|front|] == last;
    assert forall i | 0 <= i < |front| :: (front + [last])[i] == front[i];
  }

  lemma {:induction false} FieldsMeetTheBounds(fields: seq<Field>, depth: nat, secret: string -> bool)
    ensures |BoundFields(fields, depth, secret)| <= |fields| && FieldsWithin(BoundFields(fields, depth, secret), depth, secret)
    ensures FieldsWithin(fields, depth, secret) ==> BoundFields(fields, depth, secret) == fields
    decreases Left(depth), 1, |fields|
  {
    hide Bound, Within;
    if fields != [] {
      var front, last := fields[..|fields| - 1], fields[|fields| - 1];
      FieldsMeetTheBounds(front, depth, secret);
      BoundMeetsTheBounds(last.value, depth, secret);
      assert fields == front + [last];
      FieldsOneByOne(front, last, depth, secret);
      forall f: Field | f.key == last.key && !secret(f.key) && Within(f.value, depth, secret)
        ensures FieldsWithin(BoundFields(front, depth, secret) + [f], depth, secret)
      {
        FieldsOneByOne(BoundFields(front, depth, secret), f, depth, secret);
      }
    }
  }

  lemma FieldsOneByOne(front: seq<Field>, last: Field, depth: nat, secret: string -> bool)
    ensures FieldsWithin(front + [last], depth, secret) <==>
              FieldsWithin(front, depth, secret) && !secret(last.key) && Within(last.value, depth, secret)
  {
    hide Within;
    var all := front + [last];
    assert all[|front|] == last && forall i | 0 <= i < |front| :: all[i] == front[i];
  }

  /** A result is bounded at every level, its fields are what bounding again keeps, and small ones are untouched. */
  lemma BoundedResultIsBounded(result: seq<Field>, secret: string -> bool)
    ensures var r := BoundedResult(result, secret);
            && |r| <= MAX_FIELDS && FieldsWithin(r, 0, secret)
            && BoundedResult(r, secret) == r
    ensures |result| <= MAX_FIELDS && FieldsWithin(result, 0, secret) ==> BoundedResult(result, secret) == result
  {
    FieldsMeetTheBounds(First(result, MAX_FIELDS), 0, secret);
    FieldsMeetTheBounds(BoundedResult(result, secret), 0, secret);
    FieldsMeetTheBounds(result, 0, secret);
  }

  /** How many levels of arrays and objects a value has. */
  function Depth(v: Value): nat
    decreases v
  {
    match v
    case Arr(items) => 1 + Deepest(items)
    case Obj(fields) => 1 + DeepestField(fields)
    case _ => 0
  }

  function Deepest(items: seq<Value>): nat
    decreases items
  {
    if items == [] then 0
    else
      var rest, here := Deepest(items[1..]), Depth(items[0]);
      if here > rest then here else rest
  }

  function DeepestField(fields: seq<Field>): nat
    decreases fields
  {
    if fields == [] then 0
    else
      var rest, here := DeepestField(fields[1..]), Depth(fields[0].value);
      if here > rest then here else rest
  }

  /** Nothing within the bounds opens more levels than are left. */
  lemma {:induction false} WithinIsShallow(v: Value, depth: nat, secret: string -> bool)
    requires Within(v, depth, secret)
    ensures Depth(v) <= Left(depth)
    decreases v
  {
    match v
    case Arr(items) => ItemsAreShallow(items, depth + 1, secret);
    case Obj(fields) => FieldsAreShallow(fields, depth + 1, secret);
    case _ =>
  }

  lemma {:induction false} ItemsAreShallow(items: seq<Value>, depth: nat, secret: string -> bool)
    requires ItemsWithin(items, depth, secret)
    ensures Deepest(items) <= Left(depth)
    decreases items
  {
    if items != [] {
      WithinIsShallow(items[0], depth, secret);
      ItemsAreShallow(items[1..], depth, secret);
    }
  }

  lemma {:induction false} FieldsAreShallow(fields: seq<Field>, depth: nat, secret: string -> bool)
    requires FieldsWithin(fields, depth, secret)
    ensures DeepestField(fields) <= Left(depth)
    decreases fields
  {
    if fields != [] {
      WithinIsShallow(fields[0].value, depth, secret);
      FieldsAreShallow(fields[1..], depth, secret);
    }
  }

  /** The object being filled, field by field: only the first 16 are looked at. */
  method FillObject(fields: seq<Field>, depth: nat, secret: string -> bool) returns (out: seq<Field>)
    ensures out == BoundFields(First(fields, MAX_FIELDS), depth, secret)
    ensures |out| <= MAX_FIELDS && FieldsWithin(out, depth, secret)
  {
    var some := First(fields, MAX_FIELDS);
    out := [];
    for i := 0 to |some|
      invariant out == BoundFields(some[..i], depth, secret)
    {
      assert some[..i + 1][..i] == some[..i];
      if !secret(some[i].key) {
        var bounded := Bound(some[i].value, depth, secret);
        if bounded.Some? { out := out + [Field(some[i].key, bounded.value)]; }
      }
    }
    assert some[..|some|] == some;
    FieldsMeetTheBounds(some, depth, secret);
  }
}
