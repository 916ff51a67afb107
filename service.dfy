/**
 * One request, from the decoded JSON body to the response: the identifier
 * batch is validated, the flag must be a boolean, the store is reached and
 * queried, and the fetched rows are aggregated. Every failure is terminal
 * and carries its message; no partial batch accompanies a failure.
 */
module Service {

  import opened Wrappers
  import opened AgiIds
  import opened Columns
  import opened Aggregation

  /**
   * The decoded request body; `includePredicted` is None when the JSON field
   * is absent or not a boolean.
   */
  datatype Payload = Payload(agiIds: seq<string>, includePredicted: Option<bool>)

  /** What the store gave back for the batch's query. */
  datatype QueryOutcome =
    | ConnectFailed
    | QueryFailed
    | Fetched(fields: seq<string>, rows: seq<Row>)

  datatype Response = Fail(message: string) | Success(results: seq<GeneResult>)

  const BadIdsMessage: string := "Array of AGI IDs were not properly formatted in the JSON request! "
  const BadFlagMessage: string := "include_predicted flag was not set to either true or false boolean type!"
  const ConnectMessage: string := "Failed to connect to database"
  const QueryMessage: string := "Query failed to execute"

  ghost predicate AllAgiIds(ids: seq<string>)
  {
    forall i :: 0 <= i < |ids| ==> AnchoredMatch(ids[i], AgiPattern)
  }

  /** The store's rows each carry a suffixed `gene_id`. */
  predicate WellFormedRows(store: QueryOutcome)
  {
    store.Fetched? ==> forall i :: 0 <= i < |store.rows| ==> HasGeneId(store.rows[i])
  }

  method Respond(cfg: Config, payload: Payload, store: QueryOutcome) returns (response: Response)
    requires WellFormedRows(store)
    ensures response.Success? <==> AllAgiIds(payload.agiIds) && payload.includePredicted.Some? && store.Fetched?
    ensures !AllAgiIds(payload.agiIds) ==> response == Fail(BadIdsMessage)
    ensures AllAgiIds(payload.agiIds) && payload.includePredicted.None? ==> response == Fail(BadFlagMessage)
    ensures AllAgiIds(payload.agiIds) && payload.includePredicted.Some? && store.ConnectFailed? ==> response == Fail(ConnectMessage)
    ensures AllAgiIds(payload.agiIds) && payload.includePredicted.Some? && store.QueryFailed? ==> response == Fail(QueryMessage)
    ensures response.Success? ==>
      && |response.results| == |store.rows|
      && forall i :: 0 <= i < |store.rows| ==>
           response.results[i]
           == RowResult(cfg, payload.includePredicted.value,
                        PredictedColumnsFor(payload.includePredicted.value, store.fields), store.rows[i])
  {
    var valid := IsAgiArrayValid(payload.agiIds);
    if !valid {
      return Fail(BadIdsMessage);
    }
    if payload.includePredicted.None? {
      return Fail(BadFlagMessage);
    }
    match store
    case ConnectFailed =>
      response := Fail(ConnectMessage);
    case QueryFailed =>
      response := Fail(QueryMessage);
    case Fetched(fields, rows) =>
      var resJSON := ProcessRows(cfg, payload.includePredicted.value, fields, rows);
      response := Success(resJSON);
  }

  /**
   * A request that reached the store had only identifiers of 9 or 10
   * characters with no quote and no backslash, so each quoted `'<id>.1'`
   * literal of its query holds exactly that id.
   */
  lemma QueriedIdsAreSqlSafe(ids: seq<string>)
    requires AllAgiIds(ids)
    ensures forall i :: 0 <= i < |ids| ==> 9 <= |ids[i]| <= 10
    ensures forall i, j :: 0 <= i < |ids| && 0 <= j < |ids[i]| ==> ids[i][j] != '\'' && ids[i][j] != '\\'
  {
    forall i | 0 <= i < |ids|
      ensures 9 <= |ids[i]| <= 10
      ensures forall j :: 0 <= j < |ids[i]| ==> ids[i][j] != '\'' && ids[i][j] != '\\'
    {
      AcceptedIdIsSqlSafe(ids[i]);
    }
  }
}
