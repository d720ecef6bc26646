/**
 * The package's default configuration (`waska.with_db_transactions`), as
 * constants. Applications may publish and edit it, so the middleware takes a
 * `Settings` value as a parameter and `Default` is the shipped one.
 */
module Config {
  import opened Wrappers

  datatype Settings = Settings(
    ignoreRouteNames: seq<string>,          // route names the middleware passes straight through
    ignoreRequestMethods: seq<string>,      // request methods the middleware passes straight through
    maximumAttempts: int,                   // attempt budget when the route gives none
    commitHttpStatuses: seq<int>,           // response statuses that commit
    middlewareClass: string,
    middlewareAlias: string,
    middlewareGroups: seq<string>,
    maximumAttemptsForGroups: Option<int>,  // null: fall back to maximumAttempts
    eventClasses: map<string, string>)      // `*_event` key -> event class

  const EventClasses: map<string, string> := map[
    "before_begin_transaction_event" := "Waska\\LaravelWithDBTransactions\\Events\\BeforeBeginTransactionEvent",
    "after_begin_transaction_event" := "Waska\\LaravelWithDBTransactions\\Events\\AfterBeginTransactionEvent",
    "before_commit_event" := "Waska\\LaravelWithDBTransactions\\Events\\BeforeCommitEvent",
    "after_commit_event" := "Waska\\LaravelWithDBTransactions\\Events\\AfterCommitEvent",
    "before_rollback_event" := "Waska\\LaravelWithDBTransactions\\Events\\BeforeRollbackEvent",
    "after_rollback_event" := "Waska\\LaravelWithDBTransactions\\Events\\AfterRollbackEvent",
    "before_every_rollback_event" := "Waska\\LaravelWithDBTransactions\\Events\\BeforeEveryRollbackEvent",
    "after_every_rollback_event" := "Waska\\LaravelWithDBTransactions\\Events\\AfterEveryRollbackEvent"]

  const CommitHttpStatuses: seq<int> :=
    [200, 201, 202, 203, 204, 205, 206, 207, 208, 226,
     300, 301, 302, 303, 304, 305, 306, 307, 308]

  const Default: Settings := Settings(
    ignoreRouteNames := [],
    ignoreRequestMethods := ["get"],
    maximumAttempts := 1,
    commitHttpStatuses := CommitHttpStatuses,
    middlewareClass := "Waska\\LaravelWithDBTransactions\\Http\\Middleware\\WithDBTransactions",
    middlewareAlias := "with_db_transactions",
    middlewareGroups := [],
    maximumAttemptsForGroups := None,
    eventClasses := EventClasses)

  /** The shipped commit set is exactly the 2xx codes 200-208 and 226 and the 3xx codes 300-308. */
  lemma DefaultCommitStatuses(status: int)
    ensures status in Default.commitHttpStatuses <==>
      (200 <= status <= 208 || status == 226 || 300 <= status <= 308)
  {
  }

  /** No shipped commit status is informational or an error, so every 1xx, 4xx and 5xx response rolls back. */
  lemma DefaultCommitStatusesAreSuccessOrRedirect(status: int)
    requires status in Default.commitHttpStatuses
    ensures 200 <= status < 400
  {
    DefaultCommitStatuses(status);
  }
}
