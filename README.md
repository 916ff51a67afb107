# SUBA4 localization score aggregation, modelled in Dafny

This project models the localization score engine of the SUBA4 web service
(`testing_suba4.php`). The service receives a batch of AGI gene identifiers
and an `include_predicted` flag. For each gene row that the database returns,
it reports which subcellular localizations are supported, with a summed
confidence score for each, and whether predicted and experimental evidence
contributed.

The model follows the PHP code part by part:

- `agi_ids.dfy` (module `AgiIds`) holds the identifier batch check
  `isAGIArrayValid`. The regular expression `^AT[1-5MC]G\d{5}$` with the `/i`
  flag is written as a sequence of character classes. A direct character
  check is proved to accept exactly what that anchored pattern matches. PCRE's
  `$` also matches before one final newline, and the model keeps that.
- `localizations.dfy` (module `Localizations`) holds `explode(',', …)` as
  `Split`, with its inverse `Join`, and the score map fold. The class
  `ScoreTable` is the by-reference `$scores` slot that
  `processLocalizations` updates in place.
- `columns.dfy` (module `Columns`) holds the discovery of `pred_` columns
  from the result schema.
- `aggregation.dfy` (module `Aggregation`) holds the per-row loop: the
  weights, the experimental columns, id stripping, provenance flags and the
  result list. The configuration (`predValue = 2`, `expValue = 10`, six
  experimental columns) is an explicit `Config` value. `RowResult` states a
  row's result without loops. The methods `AggregateRow` and `ProcessRows`
  are proved equal to it.
- `scenarios.dfy` (module `Scenarios`) holds worked rows under that
  configuration.
- `service.dfy` (module `Service`) holds the request's failure outcomes
  after JSON decoding, as a tagged `Response`.

A row is a map from column name to `Option<string>`, and a column missing
from the row reads as null, as `$row[...]` does in PHP. Scores are unbounded
integers.

Line 162 means to give every result a `data` array: its comment calls it the
inner array that stores the localization data, so it would be empty for a row
with no non-null cell. But line 162 writes `$singleJSONOBject['data']`, with a
capital B, which is a different variable. As written, the result's `data` key
is created only by the first accumulation into `$singleJSONObject['data']`,
and a row with no non-null evidence cell has no `data` key at all. The model
follows the code: `GeneResult.data` is an `Option`. It is `None` when no cell
was processed (see `AllNullRow`), and `Some` of the score map otherwise.

## Model

| member | source | states |
|---|---|---|
| `AgiIds.IsAgiArrayValid` | testing_suba4.php:54-61 | The batch is accepted iff every identifier matches the anchored pattern. An empty batch is accepted. The loop returns at the first identifier that fails. |
| `AgiIds.MatchesAgiIsPattern` | testing_suba4.php:56 | The character-by-character check accepts exactly what `^AT[1-5MC]G\d{5}$`/i matches, in both directions. That includes the form with one trailing newline. |
| `AgiIds.AcceptedIdIsSqlSafe` | testing_suba4.php:53-56 | The check's stated purpose: an accepted identifier is 9 or 10 characters long and contains no quote or backslash. |
| `Localizations.Split` | testing_suba4.php:78 | `explode(',', s)` yields at least one token. No token contains a comma. Joining the tokens with commas gives back `s`. |
| `Localizations.SplitJoin` | testing_suba4.php:78 | Splitting the comma-join of one or more comma-free tokens gives back exactly those tokens, so `Split` and `Join` are mutual inverses. |
| `Localizations.SplitCommaFree` | testing_suba4.php:78 | A string without a comma is a single, untrimmed token. This includes the empty string, which gives one empty token. |
| `Localizations.AddToken` | testing_suba4.php:80-85 | The create-or-increment step. The key set gains the token, the token's score becomes its old score (0 if absent) plus the weight, and every other key is unchanged. |
| `Localizations.AddTokensKeys` | testing_suba4.php:79-86 | After accumulation the keys are exactly the old keys plus the tokens. |
| `Localizations.AddTokensAt` | testing_suba4.php:79-86 | After accumulation each key's score is its old score (0 if absent) plus the weight times its number of occurrences among the tokens. |
| `Localizations.AddTokensSpec` | testing_suba4.php:77-87 | The two laws above, for all keys at once. Keys that are not tokens keep their scores. |
| `Localizations.AddTokensAppend` | testing_suba4.php:168-189 | Accumulating one token list and then another equals accumulating their concatenation. |
| `Localizations.AddTokensCommute` | testing_suba4.php:168-189 | Accumulation is order-independent. Two token lists with their weights give the same map in either order. |
| `Localizations.ScoreTable.ProcessLocalizations` | testing_suba4.php:77-87 | The in-place loop leaves the slot set, holding the old scores (empty if the slot was unset) accumulated with the weight over `Split(localizations)`. |
| `Columns.Contains` | testing_suba4.php:150 | The unanchored search for `pred_` returns true iff the marker occurs at some index of the column name. |
| `Columns.PredictedColumnsAppend` | testing_suba4.php:149-153 | The filter keeps schema order: filtering a concatenation gives the concatenation of the filtered parts. |
| `Columns.PredictedColumnsCount` | testing_suba4.php:149-153 | A name appears in the filtered list as often as in the schema if it contains `pred_`, and never otherwise. |
| `Columns.PredictedColumnsMembers` | testing_suba4.php:149-153 | A name is in the filtered list iff it is in the schema and contains `pred_`. |
| `Columns.DiscoverPredictedColumns` | testing_suba4.php:145-155 | The `array_push` loop builds exactly the schema's `pred_` columns in schema order. When the flag is off, no column is predicted. |
| `Aggregation.StripVariant` | testing_suba4.php:161 | The id is `gene_id` with exactly its last two characters removed. Appending those two characters gives back `gene_id`. |
| `Aggregation.StripVariantRoundTrip` | testing_suba4.php:128 | Stripping undoes the `.1` suffix that the query appends to each requested identifier. |
| `Aggregation.RowIdIsRequestedId` | testing_suba4.php:161 | A row whose `gene_id` is a requested identifier plus `.1` reports that identifier as its id. |
| `Aggregation.AggregateRow` | testing_suba4.php:159-191 | The per-row loop computes `RowResult`. It processes predicted cells only when the flag is set, then always the experimental cells. It sets each flag on a non-null cell, and leaves `data` unset when no cell is non-null. |
| `Aggregation.ProcessRows` | testing_suba4.php:145-193 | Predicted columns are discovered once. Then there is one result per row, in row order, and each result is `RowResult` of that row alone, so no state carries between rows. |
| `Aggregation.RowScores` | testing_suba4.php:167-189 | A localization's score is the predicted weight (2, line 34) times its occurrences in the predicted cells (only with the flag), plus the experimental weight (10, line 35) times its occurrences in the experimental cells (line 36). The keys are exactly the localizations that occur. |
| `Aggregation.CountCellTokens` | testing_suba4.php:168-189 | Counting a localization in the concatenated tokens of the non-null cells equals summing its count cell by cell. |
| `Aggregation.ExperimentalFirst` | testing_suba4.php:167-189 | For every row, the all-null one included, applying experimental cells before predicted cells gives the same score map. |
| `Aggregation.PredictedIgnoredWhenOff` | testing_suba4.php:167-178 | With the flag off, two rows with the same `gene_id` and experimental cells give the same result, whatever their predicted cells and predicted column list. |
| `Aggregation.AllNullRow` | testing_suba4.php:162-188 | A row whose evidence cells are all null has no `data` and both flags set to "no". |
| `Scenarios.GfpTwoLocalizations` | testing_suba4.php:158-191 | A row with only `gfp = "a,b"` and the flag off gives `{a: 10, b: 10}`, "no", "yes", and the requested id. |
| `Scenarios.PredictedAddsTwo` | testing_suba4.php:167-189 | Adding `pred_x = "a"` with the flag on gives `{a: 12, b: 10}` with both flags "yes". |
| `Scenarios.EmptyCellScoresEmptyKey` | testing_suba4.php:78-85 | An empty but non-null `gfp` cell gives the single entry `{"": 10}`. |
| `Scenarios.TwoColumnsSameLocalization` | testing_suba4.php:183-189 | `gfp` and `tair` both listing `a` give `{a: 20}`. |
| `Service.Respond` | testing_suba4.php:116-200 | The request fails, with the source's message, on a bad identifier batch. Otherwise it fails on a non-boolean flag, then on a connection failure, then on a query failure, in that order. It succeeds iff none of these occurs, and then returns the batch computed by `ProcessRows`. |
| `Service.QueriedIdsAreSqlSafe` | testing_suba4.php:116-128 | Every identifier of a request that reaches the query has 9 or 10 characters and no quote or backslash, so it cannot end or escape the quoted literal it is placed in. |

## Left out

- CORS preflight handling and all header output (testing_suba4.php:17-30, 67, 195) are HTTP transport.
- The request-method and content-type checks, reading the request body and `json_decode` (testing_suba4.php:94-113) are transport and library calls. The model starts from the decoded body (`Service.Payload`).
- The `is_bool` test on `include_predicted` depends on PHP's dynamic typing of decoded JSON. The model keeps only its outcome: the flag is `None` when it is not a boolean.
- A body whose `AGI_IDs` is missing, not an array, or holds non-strings is not modelled. The identifiers are a `seq<string>`.
- `output()` and `json_encode` (testing_suba4.php:64-70, 196) write the response and exit. The model returns a `Response` value instead.
- SQL text construction and the `mysqli` connect, select, query, fetch and close calls (testing_suba4.php:128-142, 203) are a database client. The schema's field names, the rows and the failure cases are inputs (`Service.QueryOutcome`). The model does not state that the returned rows are those whose `gene_id` is a requested identifier plus `.1`.
- `cleanInput` (testing_suba4.php:46-51) is never called.
- PHP converts numeric-string array keys (such as a localization token `"12"`) to integers. The score map keeps every key as a string.
- Key order in the JSON output is not modelled, since maps are unordered. That covers the first-seen order of localizations and the position of the `data` field.
- `Aggregation.AggregateRow`: requires a non-null `gene_id` of at least two characters (`HasGeneId`). The row source always appends `.1`, so the PHP `substr` behaviour on shorter ids is not modelled.
- PHP integer overflow into floating point is not modelled. Scores are unbounded integers.
- Strings are sequences of characters rather than bytes. Case-insensitive matching covers ASCII letters only, as PCRE does without the `u` flag.
