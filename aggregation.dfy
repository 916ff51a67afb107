/**
 * Per-row score aggregation and assembly of the batch result.
 *
 * A row maps column names to nullable cells. For each row the id is the
 * `gene_id` without its two-character splice-variant suffix; every non-null
 * predicted cell (only when predicted evidence was asked for) adds the
 * predicted weight per localization token, then every non-null experimental
 * cell adds the experimental weight per token; the two provenance flags say
 * whether any cell of each kind was non-null. Rows are processed
 * independently and their results kept in row order.
 */
module Aggregation {

  import opened Wrappers
  import opened Localizations
  import opened Columns

  /** The weights and the fixed experimental columns. */
  datatype Config = Config(predWeight: int, expWeight: int, expColumns: seq<string>)

  /** The service's configuration: predicted 2, experimental 10, six columns. */
  const Suba4: Config := Config(2, 10, ["gfp", "mass_spec", "swissprot", "amigo", "tair", "gs"])

  /** A fetched row: column name to nullable cell. */
  type Row = map<string, Option<string>>

  const GeneIdColumn: string := "gene_id"

  /** A cell of the row; a column the row does not have reads as null. */
  function Cell(row: Row, column: string): Option<string>
  {
    if column in row then row[column] else None
  }

  /** The row source's promise: a non-null `gene_id` carrying its suffix. */
  predicate HasGeneId(row: Row)
  {
    Cell(row, GeneIdColumn).Some? && |Cell(row, GeneIdColumn).value| >= 2
  }

  /** The suffix the query appends to each requested identifier. */
  const VariantSuffix: string := ".1"

  /** `substr(geneId, 0, -2)`: drop exactly the last two characters. */
  function StripVariant(geneId: string): (id: string)
    requires |geneId| >= 2
    ensures |id| == |geneId| - 2
    ensures id + geneId[|geneId| - 2..] == geneId
  {
    geneId[..|geneId| - 2]
  }

  /** Stripping undoes the suffix the query appended to a requested identifier. */
  lemma StripVariantRoundTrip(agi: string)
    ensures StripVariant(agi + VariantSuffix) == agi
  {
    assert (agi + VariantSuffix)[..|agi|] == agi;
  }

  function YesNo(b: bool): string
  {
    if b then "yes" else "no"
  }

  /**
   * One gene's result. `data` is None when no cell was processed: the row
   * object's `data` key is only created by the first accumulation.
   */
  datatype GeneResult = GeneResult(
    id: string,
    data: Option<map<string, int>>,
    includesPredicted: string,
    includesExperimental: string)

  /** Some cell among `columns` is non-null. */
  predicate AnyNonNull(row: Row, columns: seq<string>)
  {
    exists i :: 0 <= i < |columns| && Cell(row, columns[i]).Some?
  }

  /** The tokens of the non-null cells among `columns`, in column order. */
  function CellTokens(row: Row, columns: seq<string>): seq<string>
    decreases |columns|
  {
    if columns == [] then []
    else
      var front, last := columns[..|columns| - 1], columns[|columns| - 1];
      CellTokens(row, front) + (if Cell(row, last).Some? then Split(Cell(row, last).value) else [])
  }

  /**
   * How often `k` occurs among the tokens of the non-null cells of
   * `columns`, summed cell by cell.
   */
  function Occurrences(row: Row, columns: seq<string>, k: string): nat
    decreases |columns|
  {
    if columns == [] then 0
    else
      (if Cell(row, columns[0]).Some? then Count(Split(Cell(row, columns[0]).value), k) else 0)
      + Occurrences(row, columns[1..], k)
  }

  /** What a row yields, stated without the loops. */
  function RowResult(cfg: Config, includePredicted: bool, predColumns: seq<string>, row: Row): GeneResult
    requires HasGeneId(row)
  {
    var usedPred := includePredicted && AnyNonNull(row, predColumns);
    var usedExp := AnyNonNull(row, cfg.expColumns);
    var predTokens := if includePredicted then CellTokens(row, predColumns) else [];
    var scores := AddTokens(AddTokens(map[], predTokens, cfg.predWeight), CellTokens(row, cfg.expColumns), cfg.expWeight);
    GeneResult(
      StripVariant(Cell(row, GeneIdColumn).value),
      if usedPred || usedExp then Some(scores) else None,
      YesNo(usedPred),
      YesNo(usedExp))
  }

  lemma CellTokensSnoc(row: Row, columns: seq<string>, i: nat)
    requires i < |columns|
    ensures CellTokens(row, columns[..i + 1])
         == CellTokens(row, columns[..i]) + (if Cell(row, columns[i]).Some? then Split(Cell(row, columns[i]).value) else [])
    ensures AnyNonNull(row, columns[..i + 1]) <==> AnyNonNull(row, columns[..i]) || Cell(row, columns[i]).Some?
  {
    assert columns[..i + 1][..i] == columns[..i];
    if Cell(row, columns[i]).Some? {
      assert columns[..i + 1][i] == columns[i];
    }
    if AnyNonNull(row, columns[..i]) {
      var j :| 0 <= j < i && Cell(row, columns[..i][j]).Some?;
      assert columns[..i + 1][j] == columns[..i][j];
    }
    if AnyNonNull(row, columns[..i + 1]) {
      var j :| 0 <= j < i + 1 && Cell(row, columns[..i + 1][j]).Some?;
      if j < i {
        assert columns[..i][j] == columns[..i + 1][j];
      }
    }
  }

  /** One more column of a row, applied to scores that started at `base`. */
  lemma AccumulateStep(base: map<string, int>, row: Row, columns: seq<string>, i: nat, weight: int)
    requires i < |columns|
    ensures AnyNonNull(row, columns[..i + 1]) <==> AnyNonNull(row, columns[..i]) || Cell(row, columns[i]).Some?
    ensures AddTokens(base, CellTokens(row, columns[..i + 1]), weight)
         == if Cell(row, columns[i]).Some?
            then AddTokens(AddTokens(base, CellTokens(row, columns[..i]), weight), Split(Cell(row, columns[i]).value), weight)
            else AddTokens(base, CellTokens(row, columns[..i]), weight)
  {
    CellTokensSnoc(row, columns, i);
    var before := CellTokens(row, columns[..i]);
    if Cell(row, columns[i]).Some? {
      AddTokensAppend(base, before, Split(Cell(row, columns[i]).value), weight);
    } else {
      assert before + [] == before;
    }
  }

  /**
   * The loop over one row: the id, then the predicted cells (only when the
   * flag is set), then the experimental cells, each non-null cell feeding
   * the row's score table and setting its provenance flag.
   */
  method AggregateRow(cfg: Config, includePredicted: bool, predMatches: seq<string>, row: Row) returns (result: GeneResult)
    requires HasGeneId(row)
    ensures result == RowResult(cfg, includePredicted, predMatches, row)
  {
    var id := StripVariant(Cell(row, GeneIdColumn).value);
    var table := new ScoreTable();
    var includesPredicted := "no";
    if includePredicted {
      for i := 0 to |predMatches|
        invariant Scores(table.data) == AddTokens(map[], CellTokens(row, predMatches[..i]), cfg.predWeight)
        invariant table.data.Some? <==> AnyNonNull(row, predMatches[..i])
        invariant includesPredicted == YesNo(AnyNonNull(row, predMatches[..i]))
      {
        AccumulateStep(map[], row, predMatches, i, cfg.predWeight);
        var predColLocs := Cell(row, predMatches[i]);
        if predColLocs.Some? {
          table.ProcessLocalizations(predColLocs.value, cfg.predWeight);
          includesPredicted := "yes";
        }
      }
      assert predMatches[..|predMatches|] == predMatches;
    }
    ghost var usedPred := table.data.Some?;
    ghost var afterPred := Scores(table.data);
    var includesExperimental := "no";
    var expColNames := cfg.expColumns;
    for i := 0 to |expColNames|
      invariant Scores(table.data) == AddTokens(afterPred, CellTokens(row, expColNames[..i]), cfg.expWeight)
      invariant table.data.Some? <==> usedPred || AnyNonNull(row, expColNames[..i])
      invariant includesExperimental == YesNo(AnyNonNull(row, expColNames[..i]))
    {
      AccumulateStep(afterPred, row, expColNames, i, cfg.expWeight);
      var expColLocs := Cell(row, expColNames[i]);
      if expColLocs.Some? {
        table.ProcessLocalizations(expColLocs.value, cfg.expWeight);
        includesExperimental := "yes";
      }
    }
    assert expColNames[..|expColNames|] == expColNames;
    result := GeneResult(id, table.data, includesPredicted, includesExperimental);
  }

  /**
   * The batch: predicted columns are discovered once from the result's
   * fields, then every row yields one result, in row order, each depending
   * on that row alone.
   */
  method ProcessRows(cfg: Config, includePredicted: bool, fields: seq<string>, rows: seq<Row>) returns (resJSON: seq<GeneResult>)
    requires forall i :: 0 <= i < |rows| ==> HasGeneId(rows[i])
    ensures |resJSON| == |rows|
    ensures forall i :: 0 <= i < |rows| ==>
      resJSON[i] == RowResult(cfg, includePredicted, PredictedColumnsFor(includePredicted, fields), rows[i])
  {
    var predMatches := DiscoverPredictedColumns(includePredicted, fields);
    resJSON := [];
    for i := 0 to |rows|
      invariant |resJSON| == i
      invariant forall j :: 0 <= j < i ==> resJSON[j] == RowResult(cfg, includePredicted, predMatches, rows[j])
    {
      var singleJSONObject := AggregateRow(cfg, includePredicted, predMatches, rows[i]);
      resJSON := resJSON + [singleJSONObject];
    }
  }

  // Properties of a row's result

  lemma {:induction false} OccurrencesSnoc(row: Row, columns: seq<string>, c: string, k: string)
    ensures Occurrences(row, columns + [c], k)
         == Occurrences(row, columns, k) + (if Cell(row, c).Some? then Count(Split(Cell(row, c).value), k) else 0)
    decreases |columns|
  {
    if columns != [] {
      assert (columns + [c])[1..] == columns[1..] + [c];
      OccurrencesSnoc(row, columns[1..], c, k);
    }
  }

  /** Counting in the concatenated tokens is counting cell by cell. */
  lemma {:induction false} CountCellTokens(row: Row, columns: seq<string>, k: string)
    ensures Count(CellTokens(row, columns), k) == Occurrences(row, columns, k)
    decreases |columns|
  {
    if columns != [] {
      var front, last := columns[..|columns| - 1], columns[|columns| - 1];
      CountCellTokens(row, front, k);
      OccurrencesSnoc(row, front, last, k);
      assert front + [last] == columns;
      var more := if Cell(row, last).Some? then Split(Cell(row, last).value) else [];
      assert multiset(CellTokens(row, front) + more) == multiset(CellTokens(row, front)) + multiset(more);
    }
  }

  /**
   * The score law of a row: a localization's score is the predicted weight
   * times its occurrences in the predicted cells (only with the flag set)
   * plus the experimental weight times its occurrences in the experimental
   * cells; the keys are exactly the localizations that occur at all.
   */
  lemma RowScores(cfg: Config, includePredicted: bool, predColumns: seq<string>, row: Row, k: string)
    requires HasGeneId(row)
    ensures var scores := Scores(RowResult(cfg, includePredicted, predColumns, row).data);
      && Lookup(scores, k)
         == (if includePredicted then cfg.predWeight * Occurrences(row, predColumns, k) else 0)
            + cfg.expWeight * Occurrences(row, cfg.expColumns, k)
      && (k in scores <==> (includePredicted && Occurrences(row, predColumns, k) > 0) || Occurrences(row, cfg.expColumns, k) > 0)
  {
    var r := RowResult(cfg, includePredicted, predColumns, row);
    var predTokens := if includePredicted then CellTokens(row, predColumns) else [];
    var expTokens := CellTokens(row, cfg.expColumns);
    var afterPred := AddTokens(map[], predTokens, cfg.predWeight);
    var all := AddTokens(afterPred, expTokens, cfg.expWeight);
    AddTokensSpec(map[], predTokens, cfg.predWeight);
    AddTokensSpec(afterPred, expTokens, cfg.expWeight);
    CountCellTokens(row, cfg.expColumns, k);
    if includePredicted {
      CountCellTokens(row, predColumns, k);
    }
    assert k in predTokens <==> Count(predTokens, k) > 0;
    assert k in expTokens <==> Count(expTokens, k) > 0;
    if r.data.None? {
      NoCellNoTokens(row, cfg.expColumns);
      if includePredicted {
        NoCellNoTokens(row, predColumns);
      }
      assert all == map[];
    }
  }

  /** Without a non-null cell there is no token. */
  lemma {:induction false} NoCellNoTokens(row: Row, columns: seq<string>)
    requires !AnyNonNull(row, columns)
    ensures CellTokens(row, columns) == []
    decreases |columns|
  {
    if columns != [] {
      var front := columns[..|columns| - 1];
      assert !AnyNonNull(row, front) by {
        forall i | 0 <= i < |front| ensures Cell(row, front[i]).None? {
          assert front[i] == columns[i];
        }
      }
      assert Cell(row, columns[|columns| - 1]).None?;
      NoCellNoTokens(row, front);
    }
  }

  /**
   * The order of the two categories does not matter: experimental cells
   * first, then predicted cells, gives the same scores.
   */
  lemma ExperimentalFirst(cfg: Config, includePredicted: bool, predColumns: seq<string>, row: Row)
    requires HasGeneId(row)
    ensures Scores(RowResult(cfg, includePredicted, predColumns, row).data)
         == AddTokens(
              AddTokens(map[], CellTokens(row, cfg.expColumns), cfg.expWeight),
              if includePredicted then CellTokens(row, predColumns) else [],
              cfg.predWeight)
  {
    var predTokens := if includePredicted then CellTokens(row, predColumns) else [];
    var expTokens := CellTokens(row, cfg.expColumns);
    AddTokensCommute(map[], predTokens, cfg.predWeight, expTokens, cfg.expWeight);
    if RowResult(cfg, includePredicted, predColumns, row).data.None? {
      NoCellNoTokens(row, cfg.expColumns);
      if includePredicted {
        NoCellNoTokens(row, predColumns);
      }
      assert AddTokens(map[], expTokens, cfg.expWeight) == map[];
    }
  }

  /** Rows that agree on `columns` have the same tokens there. */
  lemma {:induction false} SameCellsSameTokens(row1: Row, row2: Row, columns: seq<string>)
    requires forall i :: 0 <= i < |columns| ==> Cell(row1, columns[i]) == Cell(row2, columns[i])
    ensures CellTokens(row1, columns) == CellTokens(row2, columns)
    ensures AnyNonNull(row1, columns) <==> AnyNonNull(row2, columns)
    decreases |columns|
  {
    if columns != [] {
      var front := columns[..|columns| - 1];
      assert forall i :: 0 <= i < |front| ==> front[i] == columns[i];
      SameCellsSameTokens(row1, row2, front);
    }
  }

  /**
   * With the flag off, predicted columns are never read: two rows with the
   * same `gene_id` and experimental cells give the same result, whatever
   * their predicted cells and whatever predicted column list is passed.
   */
  lemma PredictedIgnoredWhenOff(cfg: Config, pred1: seq<string>, pred2: seq<string>, row1: Row, row2: Row)
    requires HasGeneId(row1)
    requires Cell(row1, GeneIdColumn) == Cell(row2, GeneIdColumn)
    requires forall i :: 0 <= i < |cfg.expColumns| ==> Cell(row1, cfg.expColumns[i]) == Cell(row2, cfg.expColumns[i])
    ensures HasGeneId(row2)
    ensures RowResult(cfg, false, pred1, row1) == RowResult(cfg, false, pred2, row2)
  {
    SameCellsSameTokens(row1, row2, cfg.expColumns);
  }

  /** A row whose evidence cells are all null has no data and both flags "no". */
  lemma AllNullRow(cfg: Config, includePredicted: bool, predColumns: seq<string>, row: Row)
    requires HasGeneId(row)
    requires forall i :: 0 <= i < |predColumns| ==> Cell(row, predColumns[i]).None?
    requires forall i :: 0 <= i < |cfg.expColumns| ==> Cell(row, cfg.expColumns[i]).None?
    ensures RowResult(cfg, includePredicted, predColumns, row).data == None
    ensures RowResult(cfg, includePredicted, predColumns, row).includesPredicted == "no"
    ensures RowResult(cfg, includePredicted, predColumns, row).includesExperimental == "no"
  {
  }

  /** A row fetched for identifier `agi` reports `agi` as its id. */
  lemma RowIdIsRequestedId(cfg: Config, includePredicted: bool, predColumns: seq<string>, row: Row, agi: string)
    requires Cell(row, GeneIdColumn) == Some(agi + VariantSuffix)
    ensures HasGeneId(row)
    ensures RowResult(cfg, includePredicted, predColumns, row).id == agi
  {
    StripVariantRoundTrip(agi);
  }
}
