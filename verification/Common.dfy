/**
 What several modules share: optional values, ids of edges, and facts about
 concatenation.
 */
module Common {

  datatype Option<+T> = None | Some(value: T)

  // s2shapeutil::ShapeEdgeId
  datatype ShapeEdgeId = ShapeEdgeId(shape: nat, edge: nat)

  // operator<
  predicate Before(x: ShapeEdgeId, y: ShapeEdgeId)
  {
    x.shape < y.shape || (x.shape == y.shape && x.edge < y.edge)
  }

  lemma AppendNothing<T>(s: seq<T>)
    ensures s + [] == s
  {
  }

  lemma AppendAssoc<T>(a: seq<T>, b: seq<T>, c: seq<T>)
    ensures (a + b) + c == a + (b + c)
  {
  }

  lemma AppendAssoc4<T>(a: seq<T>, b: seq<T>, c: seq<T>, d: seq<T>)
    ensures ((a + b) + c) + d == a + (b + (c + d))
  {
  }
}
