/** Worked rows under the service's configuration. */
module Scenarios {

  import opened Wrappers
  import opened Localizations
  import opened Aggregation

  lemma SplitTwo(a: string, b: string)
    requires ',' !in a && ',' !in b
    ensures Split(a + "," + b) == [a, b]
  {
    SplitJoin([a, b]);
    assert Join([a, b]) == a + "," + Join([b]);
  }

  /** Tokens of a row whose only non-null experimental cell is `gfp`. */
  lemma GfpOnlyTokens(row: Row, cell: string)
    requires Cell(row, "gfp") == Some(cell)
    requires forall c :: c in Suba4.expColumns && c != "gfp" ==> Cell(row, c) == None
    ensures CellTokens(row, Suba4.expColumns) == Split(cell)
    ensures AnyNonNull(row, Suba4.expColumns)
  {
    var cols := Suba4.expColumns;
    assert cols[..1] == ["gfp"];
    assert CellTokens(row, cols[..1]) == Split(cell) by {
      assert CellTokens(row, cols[..1][..0]) == [];
    }
    AccumulateNull(row, cols, 1);
    AccumulateNull(row, cols, 2);
    AccumulateNull(row, cols, 3);
    AccumulateNull(row, cols, 4);
    AccumulateNull(row, cols, 5);
    assert cols[..6] == cols;
    assert cols[0] == "gfp";
  }

  lemma AccumulateNull(row: Row, columns: seq<string>, i: nat)
    requires i < |columns| && Cell(row, columns[i]) == None
    ensures CellTokens(row, columns[..i + 1]) == CellTokens(row, columns[..i])
  {
    CellTokensSnoc(row, columns, i);
    assert CellTokens(row, columns[..i]) + [] == CellTokens(row, columns[..i]);
  }

  lemma ScoreTwo(m: map<string, int>, a: string, b: string, v: int)
    ensures AddTokens(m, [a, b], v) == AddToken(AddToken(m, a, v), b, v)
  {
    assert [a, b][..1] == [a];
    assert [a][..0] == [];
    assert AddTokens(m, [a], v) == AddToken(m, a, v);
  }

  /**
   * A row whose only evidence is `gfp = "a,b"`, with the flag off: the two
   * localizations score the experimental weight each, only the
   * experimental flag is "yes", and the id loses its suffix.
   */
  lemma GfpTwoLocalizations(agi: string, a: string, b: string)
    requires ',' !in a && ',' !in b && a != b
    ensures var row: Row := map["gene_id" := Some(agi + ".1"), "gfp" := Some(a + "," + b)];
      RowResult(Suba4, false, [], row)
      == GeneResult(agi, Some(map[a := 10, b := 10]), "no", "yes")
  {
    var row: Row := map["gene_id" := Some(agi + ".1"), "gfp" := Some(a + "," + b)];
    SplitTwo(a, b);
    GfpOnlyTokens(row, a + "," + b);
    ScoreTwo(map[], a, b, 10);
    assert AddTokens(map[], [], 2) == map[];
    StripVariantRoundTrip(agi);
  }

  /**
   * The same row plus a predicted cell `pred_x = "a"`, with the flag on:
   * `a` scores the predicted plus the experimental weight.
   */
  lemma PredictedAddsTwo(agi: string, a: string, b: string)
    requires ',' !in a && ',' !in b && a != b
    ensures var row: Row := map["gene_id" := Some(agi + ".1"), "gfp" := Some(a + "," + b), "pred_x" := Some(a)];
      RowResult(Suba4, true, ["pred_x"], row)
      == GeneResult(agi, Some(map[a := 12, b := 10]), "yes", "yes")
  {
    var row: Row := map["gene_id" := Some(agi + ".1"), "gfp" := Some(a + "," + b), "pred_x" := Some(a)];
    SplitTwo(a, b);
    GfpOnlyTokens(row, a + "," + b);
    PredXOnlyTokens(row, a);
    PredictedThenGfp(a, b);
    StripVariantRoundTrip(agi);
  }

  /** The tokens of a single predicted column `pred_x` holding `a`. */
  lemma PredXOnlyTokens(row: Row, a: string)
    requires ',' !in a && Cell(row, "pred_x") == Some(a)
    ensures CellTokens(row, ["pred_x"]) == [a]
    ensures AnyNonNull(row, ["pred_x"])
  {
    SplitCommaFree(a);
    assert ["pred_x"][..0] == [];
    assert ["pred_x"][..1] == ["pred_x"];
    assert Cell(row, ["pred_x"][0]).Some?;
  }

  /** `a` at weight 2, then `a` and `b` at weight 10. */
  lemma PredictedThenGfp(a: string, b: string)
    requires a != b
    ensures AddTokens(AddTokens(map[], [a], 2), [a, b], 10) == map[a := 12, b := 10]
  {
    SingleToken(map[], a, 2);
    ScoreTwo(map[a := 2], a, b, 10);
  }

  lemma SingleToken(m: map<string, int>, a: string, v: int)
    ensures AddTokens(m, [a], v) == AddToken(m, a, v)
  {
    assert [a][..0] == [];
  }

  /** An empty, non-null `gfp` cell scores the empty localization. */
  lemma EmptyCellScoresEmptyKey(agi: string)
    ensures var row: Row := map["gene_id" := Some(agi + ".1"), "gfp" := Some("")];
      RowResult(Suba4, false, [], row).data == Some(map["" := 10])
  {
    var row: Row := map["gene_id" := Some(agi + ".1"), "gfp" := Some("")];
    GfpOnlyTokens(row, "");
    assert [""][..0] == [];
  }

  /**
   * Two experimental cells, `gfp` and `tair`, both listing `a`: their
   * weights add up under the one key.
   */
  lemma TwoColumnsSameLocalization(agi: string, a: string)
    requires ',' !in a
    ensures var row: Row := map["gene_id" := Some(agi + ".1"), "gfp" := Some(a), "tair" := Some(a)];
      RowResult(Suba4, false, [], row).data == Some(map[a := 20])
  {
    var row: Row := map["gene_id" := Some(agi + ".1"), "gfp" := Some(a), "tair" := Some(a)];
    RowScores(Suba4, false, [], row, a);
    ExpOccurrences(row, a);
    var scores := Scores(RowResult(Suba4, false, [], row).data);
    forall k ensures k in scores <==> k == a {
      RowScores(Suba4, false, [], row, k);
      ExpOccurrences(row, k);
      SplitCommaFree(a);
      assert Count([a], k) > 0 <==> k == a;
    }
    assert Occurrences(row, Suba4.expColumns, a) == 2 by {
      SplitCommaFree(a);
      assert Count([a], a) == 1;
    }
    assert a in scores;
    var r := RowResult(Suba4, false, [], row);
    assert r.data.Some?;
    SameScores(scores, map[a := 20]);
  }

  /** Under the service's columns, only `gfp` and `tair` of that row count. */
  lemma ExpOccurrences(row: Row, k: string)
    requires Cell(row, "mass_spec") == None && Cell(row, "swissprot") == None
    requires Cell(row, "amigo") == None && Cell(row, "gs") == None
    requires Cell(row, "gfp").Some? && Cell(row, "tair").Some?
    ensures Occurrences(row, Suba4.expColumns, k)
         == Count(Split(Cell(row, "gfp").value), k) + Count(Split(Cell(row, "tair").value), k)
  {
    var cols := Suba4.expColumns;
    assert cols[1..][1..][1..][1..][1..][1..] == [];
    assert cols[1..][1..][1..][1..][1..] == ["gs"];
    assert cols[1..][1..][1..][1..] == ["tair", "gs"];
    assert cols[1..][1..][1..] == ["amigo", "tair", "gs"];
    assert cols[1..][1..] == ["swissprot", "amigo", "tair", "gs"];
    assert cols[1..] == ["mass_spec", "swissprot", "amigo", "tair", "gs"];
  }
}
