/** The bounded traversal that guards the importer against oversized JSON. */
module ShapeGuard {
  import opened Prelude

  datatype Json =
    | Object(fields: seq<Field>)
    | Array(items: seq<Json>)
    | String(text: string)
    | Scalar

  datatype Field = Field(key: string, value: Json)

  datatype Limits = Limits(maxBytes: int, maxTrials: int, maxDepth: int, maxNodes: int)

  datatype ShapeError = TooManyNodes | TooDeep | OversizedKey | OversizedArray | OversizedString

  // ---------------------------------------------------------------- the specification

  function Children(value: Json): seq<Json> {
    match value
    case Object(fields) => seq(|fields|, i requires 0 <= i < |fields| => fields[i].value)
    case Array(items) => items
    case _ => []
  }

  function Nodes(value: Json): (n: nat)
    ensures n >= 1
    decreases value, 1, 0
  {
    match value
    case Object(fields) => 1 + FieldNodes(value, fields)
    case Array(items) => 1 + ItemNodes(value, items)
    case _ => 1
  }

  function FieldNodes(whole: Json, fields: seq<Field>): nat
    requires forall i | 0 <= i < |fields| :: fields[i] < whole
    decreases whole, 0, |fields|
  {
    if fields == [] then 0 else FieldNodes(whole, fields[..|fields| - 1]) + Nodes(fields[|fields| - 1].value)
  }

  function ItemNodes(whole: Json, items: seq<Json>): nat
    requires forall i | 0 <= i < |items| :: items[i] < whole
    decreases whole, 0, |items|
  {
    if items == [] then 0 else ItemNodes(whole, items[..|items| - 1]) + Nodes(items[|items| - 1])
  }

  /** Depth, key, array and string bounds, everywhere in a value that sits at `depth`. */
  predicate WithinBounds(limits: Limits, value: Json, depth: int) {
    && depth <= limits.maxDepth
    && match value
       case Object(fields) =>
         forall i | 0 <= i < |fields| :: |fields[i].key| <= 512 && WithinBounds(limits, fields[i].value, depth + 1)
       case Array(items) =>
         |items| <= limits.maxTrials * 32 && forall i | 0 <= i < |items| :: WithinBounds(limits, items[i], depth + 1)
       case String(text) => |text| <= limits.maxBytes
       case Scalar => true
  }

  predicate Admissible(limits: Limits, value: Json) {
    Nodes(value) <= limits.maxNodes && WithinBounds(limits, value, 0)
  }

  // ---------------------------------------------------------------- the guard

  class Guard {
    const limits: Limits
    var nodes: nat

    constructor (limits: Limits)
      ensures this.limits == limits && nodes == 0
    {
      this.limits := limits;
      nodes := 0;
    }

    /**
     * `visit`: count this value, check it, then visit its children in order.
     * On success the counter has grown by the size of the value; it never
     * passes the limit by more than the one visit that notices.
     */
    method Visit(value: Json, depth: int) returns (r: Option<ShapeError>)
      requires nodes <= limits.maxNodes
      modifies this`nodes
      ensures r.None? <==> old(nodes) + Nodes(value) <= limits.maxNodes && WithinBounds(limits, value, depth)
      ensures r.None? ==> nodes == old(nodes) + Nodes(value)
      ensures nodes <= limits.maxNodes + 1
      decreases value, 1
    {
      nodes := nodes + 1;
      if nodes > limits.maxNodes {
        return Some(TooManyNodes);
      }
      if depth > limits.maxDepth {
        return Some(TooDeep);
      }
      match value {
        case Object(fields) =>
          r := VisitFields(value, fields, depth);
        case Array(items) =>
          if |items| > limits.maxTrials * 32 {
            return Some(OversizedArray);
          }
          r := VisitItems(value, items, depth);
        case String(text) =>
          if |text| > limits.maxBytes {
            return Some(OversizedString);
          }
          return None;
        case Scalar =>
          return None;
      }
    }

    /** The loop over the entries of an object. */
    method VisitFields(whole: Json, fields: seq<Field>, depth: int) returns (r: Option<ShapeError>)
      requires whole == Object(fields) && nodes <= limits.maxNodes
      modifies this`nodes
      ensures r.None? <==> && old(nodes) + FieldNodes(whole, fields) <= limits.maxNodes
                           && forall i | 0 <= i < |fields| :: |fields[i].key| <= 512 && WithinBounds(limits, fields[i].value, depth + 1)
      ensures r.None? ==> nodes == old(nodes) + FieldNodes(whole, fields)
      ensures nodes <= limits.maxNodes + 1
      decreases whole, 0
    {
      for i := 0 to |fields|
        invariant nodes == old(nodes) + FieldNodes(whole, fields[..i]) <= limits.maxNodes
        invariant forall j | 0 <= j < i :: |fields[j].key| <= 512 && WithinBounds(limits, fields[j].value, depth + 1)
      {
        assert fields[..i + 1][..i] == fields[..i];
        FieldNodesGrow(whole, fields, i + 1);
        if |fields[i].key| > 512 {
          return Some(OversizedKey);
        }
        r := Visit(fields[i].value, depth + 1);
        if r.Some? {
          return;
        }
      }
      assert fields[..|fields|] == fields;
      return None;
    }

    /** The loop over the elements of an array. */
    method VisitItems(whole: Json, items: seq<Json>, depth: int) returns (r: Option<ShapeError>)
      requires whole == Array(items) && nodes <= limits.maxNodes
      modifies this`nodes
      ensures r.None? <==> && old(nodes) + ItemNodes(whole, items) <= limits.maxNodes
                           && forall i | 0 <= i < |items| :: WithinBounds(limits, items[i], depth + 1)
      ensures r.None? ==> nodes == old(nodes) + ItemNodes(whole, items)
      ensures nodes <= limits.maxNodes + 1
      decreases whole, 0
    {
      for i := 0 to |items|
        invariant nodes == old(nodes) + ItemNodes(whole, items[..i]) <= limits.maxNodes
        invariant forall j | 0 <= j < i :: WithinBounds(limits, items[j], depth + 1)
      {
        assert items[..i + 1][..i] == items[..i];
        ItemNodesGrow(whole, items, i + 1);
        r := Visit(items[i], depth + 1);
        if r.Some? {
          return;
        }
      }
      assert items[..|items|] == items;
      return None;
    }

    /** `_validate_shape_bounds`. */
    method ValidateShape(payload: Json) returns (r: Option<ShapeError>)
      requires limits.maxNodes > 0
      modifies this`nodes
      ensures r.None? <==> Admissible(limits, payload)
      ensures nodes <= limits.maxNodes + 1
    {
      nodes := 0;
      r := Visit(payload, 0);
    }
  }

  lemma {:induction false} FieldNodesGrow(whole: Json, fields: seq<Field>, n: nat)
    requires n <= |fields| && forall i | 0 <= i < |fields| :: fields[i] < whole
    ensures FieldNodes(whole, fields[..n]) <= FieldNodes(whole, fields)
  {
    if n < |fields| {
      assert fields[..|fields| - 1][..n] == fields[..n];
      FieldNodesGrow(whole, fields[..|fields| - 1], n);
    } else {
      assert fields[..n] == fields;
    }
  }

  lemma {:induction false} ItemNodesGrow(whole: Json, items: seq<Json>, n: nat)
    requires n <= |items| && forall i | 0 <= i < |items| :: items[i] < whole
    ensures ItemNodes(whole, items[..n]) <= ItemNodes(whole, items)
  {
    if n < |items| {
      assert items[..|items| - 1][..n] == items[..n];
      ItemNodesGrow(whole, items[..|items| - 1], n);
    } else {
      assert items[..n] == items;
    }
  }

  /** Admission is inherited: any part of an admissible value would be admitted on its own. */
  lemma {:induction false} PartsAreAdmissible(limits: Limits, value: Json, i: nat)
    requires Admissible(limits, value) && i < |Children(value)|
    ensures Admissible(limits, Children(value)[i])
  {
    var child := Children(value)[i];
    match value {
      case Object(fields) =>
        FieldNodesGrow(value, fields, i + 1);
        assert fields[..i + 1][..i] == fields[..i];
      case Array(items) =>
        ItemNodesGrow(value, items, i + 1);
        assert items[..i + 1][..i] == items[..i];
    }
    ShallowerIsWithin(limits, child, 1, 0);
  }

  lemma {:induction false} ShallowerIsWithin(limits: Limits, value: Json, deep: int, shallow: int)
    requires shallow <= deep && WithinBounds(limits, value, deep)
    ensures WithinBounds(limits, value, shallow)
    decreases value
  {
    match value {
      case Object(fields) =>
        forall i | 0 <= i < |fields| ensures WithinBounds(limits, fields[i].value, shallow + 1) {
          ShallowerIsWithin(limits, fields[i].value, deep + 1, shallow + 1);
        }
      case Array(items) =>
        forall i | 0 <= i < |items| ensures WithinBounds(limits, items[i], shallow + 1) {
          ShallowerIsWithin(limits, items[i], deep + 1, shallow + 1);
        }
      case String(text) =>
      case Scalar =>
    }
  }
}
