/** What the shape guard admits, visit by visit. */
module ShapeOutcomes {
  import opened Prelude
  import opened ShapeGuard

  /** One visit of the traversal: a value and how deep it lies. */
  datatype Visited = Visited(value: Json, depth: int)

  /** The visits of a full traversal, each value before its children. */
  function Preorder(value: Json, depth: int): seq<Visited>
    decreases value, 1, 0
  {
    match value
    case Object(fields) => [Visited(value, depth)] + FieldOrder(value, fields, depth + 1)
    case Array(items) => [Visited(value, depth)] + ItemOrder(value, items, depth + 1)
    case _ => [Visited(value, depth)]
  }

  function FieldOrder(whole: Json, fields: seq<Field>, depth: int): seq<Visited>
    requires forall i | 0 <= i < |fields| :: fields[i] < whole
    decreases whole, 0, |fields|
  {
    if fields == [] then [] else FieldOrder(whole, fields[..|fields| - 1], depth) + Preorder(fields[|fields| - 1].value, depth)
  }

  function ItemOrder(whole: Json, items: seq<Json>, depth: int): seq<Visited>
    requires forall i | 0 <= i < |items| :: items[i] < whole
    decreases whole, 0, |items|
  {
    if items == [] then [] else ItemOrder(whole, items[..|items| - 1], depth) + Preorder(items[|items| - 1], depth)
  }

  /** The bounds one visit checks. */
  predicate Fits(limits: Limits, v: Visited) {
    && v.depth <= limits.maxDepth
    && (v.value.Object? ==> forall i | 0 <= i < |v.value.fields| :: |v.value.fields[i].key| <= 512)
    && (v.value.Array? ==> |v.value.items| <= limits.maxTrials * 32)
    && (v.value.String? ==> |v.value.text| <= limits.maxBytes)
  }

  ghost predicate AllFit(limits: Limits, visits: seq<Visited>) {
    forall i | 0 <= i < |visits| :: Fits(limits, visits[i])
  }

  lemma FitsOfConcat(limits: Limits, a: seq<Visited>, b: seq<Visited>)
    ensures AllFit(limits, a + b) <==> AllFit(limits, a) && AllFit(limits, b)
  {
    if AllFit(limits, a + b) {
      assert forall i | 0 <= i < |a| :: (a + b)[i] == a[i];
      assert forall i | 0 <= i < |b| :: (a + b)[|a| + i] == b[i];
    }
  }

  /** The node count is the number of visits, and the bounds hold exactly when every visit fits. */
  lemma {:induction false} TraversalTells(limits: Limits, value: Json, depth: int)
    ensures Nodes(value) == |Preorder(value, depth)|
    ensures WithinBounds(limits, value, depth) <==> AllFit(limits, Preorder(value, depth))
    decreases value, 1, 0
  {
    match value {
      case Object(fields) =>
        FieldsTell(limits, value, fields, depth + 1);
        FitsOfConcat(limits, [Visited(value, depth)], FieldOrder(value, fields, depth + 1));
        assert AllFit(limits, [Visited(value, depth)]) <==> Fits(limits, Visited(value, depth)) by {
          assert [Visited(value, depth)][0] == Visited(value, depth);
        }
      case Array(items) =>
        ItemsTell(limits, value, items, depth + 1);
        FitsOfConcat(limits, [Visited(value, depth)], ItemOrder(value, items, depth + 1));
        assert AllFit(limits, [Visited(value, depth)]) <==> Fits(limits, Visited(value, depth)) by {
          assert [Visited(value, depth)][0] == Visited(value, depth);
        }
      case String(text) =>
        assert Preorder(value, depth)[0] == Visited(value, depth);
      case Scalar =>
        assert Preorder(value, depth)[0] == Visited(value, depth);
    }
  }

  lemma {:induction false} FieldsTell(limits: Limits, whole: Json, fields: seq<Field>, depth: int)
    requires forall i | 0 <= i < |fields| :: fields[i] < whole
    ensures FieldNodes(whole, fields) == |FieldOrder(whole, fields, depth)|
    ensures (forall i | 0 <= i < |fields| :: WithinBounds(limits, fields[i].value, depth))
            <==> AllFit(limits, FieldOrder(whole, fields, depth))
    decreases whole, 0, |fields|
  {
    if fields != [] {
      var n := |fields| - 1;
      FieldsTell(limits, whole, fields[..n], depth);
      TraversalTells(limits, fields[n].value, depth);
      FitsOfConcat(limits, FieldOrder(whole, fields[..n], depth), Preorder(fields[n].value, depth));
      assert forall i | 0 <= i < n :: fields[..n][i] == fields[i];
    }
  }

  lemma {:induction false} ItemsTell(limits: Limits, whole: Json, items: seq<Json>, depth: int)
    requires forall i | 0 <= i < |items| :: items[i] < whole
    ensures ItemNodes(whole, items) == |ItemOrder(whole, items, depth)|
    ensures (forall i | 0 <= i < |items| :: WithinBounds(limits, items[i], depth))
            <==> AllFit(limits, ItemOrder(whole, items, depth))
    decreases whole, 0, |items|
  {
    if items != [] {
      var n := |items| - 1;
      ItemsTell(limits, whole, items[..n], depth);
      TraversalTells(limits, items[n], depth);
      FitsOfConcat(limits, ItemOrder(whole, items[..n], depth), Preorder(items[n], depth));
      assert forall i | 0 <= i < n :: items[..n][i] == items[i];
    }
  }

  /** A payload is admitted exactly when its full traversal is short enough and every visit fits. */
  lemma AdmittedExactlyWhen(limits: Limits, payload: Json)
    ensures Admissible(limits, payload) <==>
              |Preorder(payload, 0)| <= limits.maxNodes && AllFit(limits, Preorder(payload, 0))
  {
    TraversalTells(limits, payload, 0);
  }
}
