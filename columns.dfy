/**
 * Discovery of the predicted-evidence columns: the result schema's column
 * names that contain `pred_`, in schema order, looked up once per batch and
 * only when predicted evidence was asked for.
 */
module Columns {

  const PredictedMarker: string := "pred_"

  /** `p` occurs in `s` starting at index `i`. */
  ghost predicate OccursAt(s: string, p: string, i: int)
  {
    0 <= i && i + |p| <= |s| && s[i..i + |p|] == p
  }

  /** Unanchored substring search, as `preg_match('/pred_/', name)` does. */
  function Contains(s: string, p: string): (r: bool)
    ensures r <==> exists i :: OccursAt(s, p, i)
    decreases |s|
  {
    if |s| < |p| then false
    else if s[..|p|] == p then
      assert OccursAt(s, p, 0);
      true
    else
      var r := Contains(s[1..], p);
      assert forall i :: OccursAt(s[1..], p, i) ==> OccursAt(s, p, i + 1) by {
        forall i | OccursAt(s[1..], p, i) ensures OccursAt(s, p, i + 1) {
          assert s[1..][i..i + |p|] == s[i + 1..i + 1 + |p|];
        }
      }
      assert forall i :: OccursAt(s, p, i) && i >= 1 ==> OccursAt(s[1..], p, i - 1) by {
        forall i | OccursAt(s, p, i) && i >= 1 ensures OccursAt(s[1..], p, i - 1) {
          assert s[1..][i - 1..i - 1 + |p|] == s[i..i + |p|];
        }
      }
      r
  }

  predicate IsPredictedColumn(name: string)
  {
    Contains(name, PredictedMarker)
  }

  /** The schema's predicted columns, in schema order. */
  function PredictedColumns(schema: seq<string>): seq<string>
    decreases |schema|
  {
    if schema == [] then []
    else
      var front, last := schema[..|schema| - 1], schema[|schema| - 1];
      PredictedColumns(front) + (if IsPredictedColumn(last) then [last] else [])
  }

  /** The columns read as predicted evidence: none unless asked for. */
  function PredictedColumnsFor(includePredicted: bool, schema: seq<string>): seq<string>
  {
    if includePredicted then PredictedColumns(schema) else []
  }

  /** The filter keeps schema order: it maps concatenation to concatenation. */
  lemma {:induction false} PredictedColumnsAppend(a: seq<string>, b: seq<string>)
    ensures PredictedColumns(a + b) == PredictedColumns(a) + PredictedColumns(b)
    decreases |b|
  {
    if b == [] {
      assert a + b == a;
    } else {
      var front := b[..|b| - 1];
      assert (a + b)[..|a + b| - 1] == a + front;
      PredictedColumnsAppend(a, front);
    }
  }

  /**
   * Exactly the predicted names are kept, each as often as the schema lists
   * it, and every other name is dropped.
   */
  lemma {:induction false} PredictedColumnsCount(schema: seq<string>, name: string)
    ensures multiset(PredictedColumns(schema))[name]
         == if IsPredictedColumn(name) then multiset(schema)[name] else 0
    decreases |schema|
  {
    if schema != [] {
      var front, last := schema[..|schema| - 1], schema[|schema| - 1];
      assert schema == front + [last];
      PredictedColumnsCount(front, name);
    }
  }

  lemma PredictedColumnsMembers(schema: seq<string>)
    ensures forall name :: name in PredictedColumns(schema) <==> name in schema && IsPredictedColumn(name)
  {
    forall name ensures name in PredictedColumns(schema) <==> name in schema && IsPredictedColumn(name) {
      PredictedColumnsCount(schema, name);
      assert name in PredictedColumns(schema) <==> multiset(PredictedColumns(schema))[name] > 0;
      assert name in schema <==> multiset(schema)[name] > 0;
    }
  }

  /**
   * The loop over the result's fields that pushes each predicted column
   * name; with the flag off no list is built and no column is predicted.
   */
  method DiscoverPredictedColumns(includePredicted: bool, fields: seq<string>) returns (predMatches: seq<string>)
    ensures predMatches == PredictedColumnsFor(includePredicted, fields)
    ensures forall name :: name in predMatches <==> includePredicted && name in fields && IsPredictedColumn(name)
  {
    predMatches := [];
    if includePredicted {
      for i := 0 to |fields|
        invariant predMatches == PredictedColumns(fields[..i])
      {
        if IsPredictedColumn(fields[i]) {
          predMatches := predMatches + [fields[i]];
        }
        assert fields[..i + 1][..i] == fields[..i];
      }
      assert fields[..|fields|] == fields;
      PredictedColumnsMembers(fields);
    }
  }
}
