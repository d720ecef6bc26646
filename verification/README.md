# laravel-with-db-transactions, modelled in Dafny

A model of the core of the Laravel package `waska14/laravel-with-db-transactions`:

- the static helper `WithDBTransactions` (`src/Helpers/WithDBTransactions.php`). It keeps an
  "active" flag, an attempt counter and the hooks registered for the current attempt. It
  registers hooks by magic static call (`afterCommit($f)` and the like), and begins, commits
  and rolls back with hooks and lifecycle events around the database primitive. It also
  offers `transaction($closure, $attempts)`, a bounded retry-on-exception loop;
- the route middleware `WithDBTransactions::handle` (`src/Http/Middleware/WithDBTransactions.php`).
  It passes ignored routes and request methods straight through. Otherwise it retries the rest
  of the pipeline on the response's status code, committing on a commit status and rolling
  back otherwise;
- the shipped configuration (`config/waska.with_db_transactions.php`) as constants.

The database facade, the event bus and user code are replaced by an **effect trace**
(`Effects.Effect`): `DbBegin`, `DbCommit`, `DbRollback`, `RunHook(timing, phase, callable)`
and `Fire(LifecycleEvent(timing, phase, request, currentAttempt))`. The event record is
the two fields every event class carries. User code is replaced by **oracles**:

- `runs(i)` says which hook registrations the i-th call of the closure makes and whether
  it then returns or throws;
- `next(i)` says what the i-th call of `$next` returns or throws.

Files:

- `wrappers.dfy`: `Option` and `Result`.
- `effects.dfy`: the trace vocabulary, its projections and the facts about them. The
  projections are `DbOps` (the primitives in order), `Attempts` (the attempt numbers carried
  by one event class) and `Count`. `Budget` is the pass count of a `do … while (--$attempts > 0)` loop.
- `config.dfy`: the `Settings` record and the shipped `Default`.
- `helper.dfy`: the class `TransactionHelper.WithDBTransactions`, whose fields are the
  helper's static state plus the trace. It also holds `Snake`, registration and the
  specification of `transaction` over the closure calls.
- `middleware.dfy`: the three predicates, `Handle` with its `while` loop, the specification
  of `handle` over the calls of `$next`, and its properties.

`transaction` is specified by `TransactionEffects`, `AttemptsMade` and `TransactionResult`.
These are functions of `calls(i)`, the hooks and result that call i of the closure leaves
behind. The method takes `calls` as a ghost parameter tied to `runs` by its precondition.
The do/while body is the method `Attempt`. The trailing `return null` of `transaction` cannot
be reached: every pass ends in `return`, in `throw`, or with attempts left, so the loop
guard never fails. `Transaction` asserts the guard `remaining > 0` at the end of every pass that
continues, so its loop leaves only through those two exits.

Hooks are cleared by `beginTransaction` only. Commit and rollback run them and leave them
in place.

The PHP default arguments (`$request = null`, `$latest = true`, `$attempts = 1`, and the
middleware's `$attempts = null`) are Dafny default parameter values.

## Model

| member | source | states |
|---|---|---|
| Config.Default | config/waska.with_db_transactions.php:4-90 | the shipped settings: no ignored route names, `get` ignored, one attempt, the commit statuses below, and the eight event classes keyed by the `*_event` strings that `EventKey(timing, phase)` builds |
| Config.DefaultCommitStatuses | config/waska.with_db_transactions.php:32-53 | a status is a shipped commit status iff it is 200-208, 226 or 300-308 |
| Config.DefaultCommitStatusesAreSuccessOrRedirect | config/waska.with_db_transactions.php:32-53 | every shipped commit status lies in 200..399 |
| TransactionHelper.EventKeysConfigured | config/waska.with_db_transactions.php:82-89 | each of the eight `before_/after_` × phase `_event` keys the helper builds is a key of the shipped configuration |
| TransactionHelper.Snake | src/Helpers/WithDBTransactions.php:44 | the normalised hook name contains no upper-case letter |
| TransactionHelper.SnakeKeepsSnakeCase | src/Helpers/WithDBTransactions.php:44 | a name with no upper-case letter is its own normal form |
| TransactionHelper.SnakeAtCapital | src/Helpers/WithDBTransactions.php:44 | an upper-case letter inside a name becomes `_` plus its lower-case form, the words around it kept |
| TransactionHelper.SnakeTwoWords | src/Helpers/WithDBTransactions.php:44 | two-word camelCase becomes `word1_word2` |
| TransactionHelper.SnakeThreeWords | src/Helpers/WithDBTransactions.php:44 | three-word camelCase becomes `word1_word2_word3` |
| TransactionHelper.CommitHookMethods | src/Helpers/WithDBTransactions.php:14-15 | `beforeCommit`/`afterCommit` register under the keys `commit` executes |
| TransactionHelper.RollbackHookMethods | src/Helpers/WithDBTransactions.php:16-17 | `beforeRollback`/`afterRollback` register under the keys the final rollback executes |
| TransactionHelper.EveryRollbackHookMethods | src/Helpers/WithDBTransactions.php:18-19 | `beforeEveryRollback`/`afterEveryRollback` register under the keys a non-final rollback executes |
| TransactionHelper.Register | src/Helpers/WithDBTransactions.php:35-45 | fails with MiddlewareIsNotPassed iff inactive, whatever the arguments (checked first); with InvalidCallableParameter iff active and the first argument is not callable; succeeds iff active and it is callable |
| TransactionHelper.RegisterAppends | src/Helpers/WithDBTransactions.php:43-44 | a successful registration appends the callable at the end of the list under `Snake(name)` and leaves every other list unchanged |
| TransactionHelper.HookRunsInOrder | src/Helpers/WithDBTransactions.php:142-149 | each registered hook runs exactly once, in registration order |
| TransactionHelper.HookRunsUnobserved | src/Helpers/WithDBTransactions.php:142-149 | running hooks performs no database primitive and fires no event |
| TransactionHelper.BeginObserved | src/Helpers/WithDBTransactions.php:97-104 | beginning performs exactly one DB begin and fires one before and one after begin event, both carrying the new attempt number |
| TransactionHelper.PhaseDbOps | src/Helpers/WithDBTransactions.php:112-136 | a commit or rollback performs its primitive exactly once |
| TransactionHelper.PhaseEvents | src/Helpers/WithDBTransactions.php:112-136 | a commit or rollback fires exactly one event of its own phase at each timing, carrying the current attempt, and none of any other phase |
| TransactionHelper.FirstSuccess | src/Helpers/WithDBTransactions.php:65-77 | the index of the first call whose try block completes, with every earlier call failing |
| TransactionHelper.AttemptsMade | src/Helpers/WithDBTransactions.php:65-77 | `transaction` makes between 1 and max(attempts, 1) attempts |
| TransactionHelper.TransactionResult | src/Helpers/WithDBTransactions.php:62-79 | `transaction` returns normally iff some permitted call succeeds, returning the first such call's value; otherwise it rethrows the last permitted call's exception |
| TransactionHelper.CommittedIffReturns | src/Helpers/WithDBTransactions.php:68-75 | the transaction commits exactly when `transaction` returns normally |
| TransactionHelper.FailedBefore | src/Helpers/WithDBTransactions.php:65-77 | every attempt before the last one threw |
| TransactionHelper.LastAttempt | src/Helpers/WithDBTransactions.php:65-77 | the last attempt succeeds iff `transaction` commits; otherwise it is attempt number max(attempts, 1) |
| TransactionHelper.AttemptDbOps | src/Helpers/WithDBTransactions.php:66-72 | one attempt performs a begin, then a commit when the closure returned and a rollback when it threw |
| TransactionHelper.AttemptEvents | src/Helpers/WithDBTransactions.php:66-72 | one attempt fires the begin events and the events of the phase it closes with (commit, final rollback, or every_rollback), all carrying its number, and no others |
| TransactionHelper.FailedAttemptsDbOps | src/Helpers/WithDBTransactions.php:65-77 | k failed attempts perform k begin/rollback pairs |
| TransactionHelper.FailedAttemptsEvents | src/Helpers/WithDBTransactions.php:65-77 | k failed attempts fire one begin and one every_rollback event each, numbered consecutively |
| TransactionHelper.FailedAttemptsNoCloseEvents | src/Helpers/WithDBTransactions.php:65-77 | failed non-final attempts fire no commit and no final rollback event |
| TransactionHelper.CommitsAt | src/Helpers/WithDBTransactions.php:66-70 | when call i is the first to succeed, `transaction` makes i+1 attempts, returns that call's value and its trace is i failed attempts then a committed one |
| TransactionHelper.SuccessIgnoresLatest | src/Helpers/WithDBTransactions.php:66-72 | an attempt whose closure returns has the same effects whether or not it is the last permitted one: `latest` only matters to a rollback |
| TransactionHelper.ExhaustedAt | src/Helpers/WithDBTransactions.php:71-75 | when every permitted call throws, `transaction` makes max(attempts, 1) attempts, rethrows the last exception, and only the last rollback is final |
| TransactionHelper.TransactionDbOps | src/Helpers/WithDBTransactions.php:62-79 | the primitives are begin/rollback pairs and then one begin/commit pair when a call succeeds, or only begin/rollback pairs (one per permitted call) when none does |
| TransactionHelper.TransactionBeginEvents | src/Helpers/WithDBTransactions.php:62-79 | every attempt fires one begin event, numbered consecutively from the counter's old value |
| TransactionHelper.TransactionEveryRollbackEvents | src/Helpers/WithDBTransactions.php:62-79 | every attempt but the last fires one every_rollback event, numbered consecutively |
| TransactionHelper.TransactionCommitEvents | src/Helpers/WithDBTransactions.php:62-79 | one commit event, carrying the last attempt's number, iff a call succeeds; none otherwise |
| TransactionHelper.TransactionRollbackEvents | src/Helpers/WithDBTransactions.php:62-79 | one final rollback event, on attempt max(attempts, 1), iff every call throws; none otherwise |
| TransactionHelper.WithDBTransactions.constructor | src/Helpers/WithDBTransactions.php:23-25 | the initial static state: inactive, counter 0, no hooks |
| TransactionHelper.WithDBTransactions.IsMiddlewareStarted | src/Helpers/WithDBTransactions.php:86-89 | when it reports false every registration fails with MiddlewareIsNotPassed; when it reports true none does |
| TransactionHelper.WithDBTransactions.StartMiddleware | src/Helpers/WithDBTransactions.php:47-50 | afterwards the helper reports itself active |
| TransactionHelper.WithDBTransactions.StopMiddleware | src/Helpers/WithDBTransactions.php:81-84 | afterwards the helper reports itself inactive |
| TransactionHelper.WithDBTransactions.CallStatic | src/Helpers/WithDBTransactions.php:35-45 | behaves as `Register`: on an error the hook map is unchanged, otherwise it is the registered map |
| TransactionHelper.WithDBTransactions.Event | src/Helpers/WithDBTransactions.php:157-161 | appends one event carrying the request and the current attempt number |
| TransactionHelper.WithDBTransactions.Execute | src/Helpers/WithDBTransactions.php:142-149 | appends one run per hook registered under the name, in order, and changes nothing else |
| TransactionHelper.WithDBTransactions.BeginTransaction | src/Helpers/WithDBTransactions.php:97-104 | clears the hooks, increases the counter by one, and appends before event, DB begin, after event |
| TransactionHelper.WithDBTransactions.Commit | src/Helpers/WithDBTransactions.php:112-119 | appends before_commit hooks, before event, DB commit, after_commit hooks, after event |
| TransactionHelper.WithDBTransactions.Rollback | src/Helpers/WithDBTransactions.php:128-136 | the same shape, in phase `rollback` when `latest` and `every_rollback` otherwise, around one DB rollback |
| TransactionHelper.WithDBTransactions.RunClosure | src/Helpers/WithDBTransactions.php:68 | calling the closure makes its registrations in order and ends as `CallClosure` says |
| TransactionHelper.WithDBTransactions.Attempt | src/Helpers/WithDBTransactions.php:66-76 | one pass of the do/while body: counter +1, hooks as the call left them, trace extended by `AttemptEffects` |
| TransactionHelper.WithDBTransactions.Transaction | src/Helpers/WithDBTransactions.php:62-79 | proves the do/while guard holds after every pass that does not return or rethrow, so `return null` is unreachable; sets the flag, advances the counter by `AttemptsMade`, appends `TransactionEffects`, returns or rethrows `TransactionResult`, and leaves behind the hooks the last closure call registered (only `beginTransaction` clears them) |
| Effects.Budget | src/Helpers/WithDBTransactions.php:65-77 | a do/while with a decrementing budget runs exactly `attempts` times when that is positive and exactly once when it is 0 or negative |
| Effects.RolledBackCyclesShape | src/Http/Middleware/WithDBTransactions.php:25-32 | rolled-back passes alternate begin, rollback |
| Effects.RolledBackCyclesCounts | src/Http/Middleware/WithDBTransactions.php:25-32 | k rolled-back passes hold k begins, k rollbacks and no commit |
| Effects.CyclesThenAlternate | src/Http/Middleware/WithDBTransactions.php:26-31 | rolled-back passes followed by an open or committed begin still alternate, with a commit only last |
| Middleware.EffectiveAttempts | src/Http/Middleware/WithDBTransactions.php:24 | the route's parameter when given and non-zero, the configured `maximum_attempts` otherwise |
| Middleware.IsMethod | src/Http/Middleware/WithDBTransactions.php:51 | the request method matches `m` iff they have the same length and agree letter by letter up to ASCII case |
| Middleware.InArray | src/Http/Middleware/WithDBTransactions.php:41 | the scan finds `x` iff `x` is an element of the list |
| Middleware.ShouldIgnoreCurrentRoute | src/Http/Middleware/WithDBTransactions.php:39-42 | a named route is ignored iff its name is configured; an unnamed one iff `""` is configured |
| Middleware.AnyMethodMatches | src/Http/Middleware/WithDBTransactions.php:50-55 | the foreach with early return is true iff some listed method matches the request |
| Middleware.ShouldIgnoreRequestMethod | src/Http/Middleware/WithDBTransactions.php:48-56 | a request is ignored iff some configured method equals its method once both are upper-cased |
| Middleware.ShouldCommitTransaction | src/Http/Middleware/WithDBTransactions.php:62-65 | true iff the value is a response whose status is configured; never for a non-response |
| Middleware.FirstSettled | src/Http/Middleware/WithDBTransactions.php:25-32 | the index of the first call of `$next` that commits or throws, every earlier one rolled back |
| Middleware.RaisesAt | src/Http/Middleware/WithDBTransactions.php:26-27 | when call i is the first to throw, after i rolled-back passes, the exception goes through after i+1 calls |
| Middleware.CommitsAt | src/Http/Middleware/WithDBTransactions.php:26-30 | when call i is the first to commit, it is returned after i rolled-back passes and one committed one |
| Middleware.ExhaustedAt | src/Http/Middleware/WithDBTransactions.php:31-33 | when every permitted call is rolled back, the last response is returned |
| Middleware.Handle | src/Http/Middleware/WithDBTransactions.php:19-34 | a bypass calls `$next` once with no database effect and returns its result unchanged; otherwise the result, primitives and call count are those of the retry loop |
| Middleware.BeginsMatchCalls | src/Http/Middleware/WithDBTransactions.php:25-32 | the loop calls `$next` between 1 and max(budget, 1) times, beginning one transaction per call |
| Middleware.CommitIffShouldCommit | src/Http/Middleware/WithDBTransactions.php:27-31 | at most one commit, and a commit iff the returned value is a response `shouldCommitTransaction` accepts |
| Middleware.HandleAlternates | src/Http/Middleware/WithDBTransactions.php:26-31 | every begin is closed by exactly one rollback or commit before the next begin, and a commit is always the last primitive |
| Middleware.ExhaustedReturnsLastResponse | src/Http/Middleware/WithDBTransactions.php:31-33 | with the budget used up, the last (rolled-back) response is returned with no error, after one rollback per pass and no commit |
| Middleware.RaisedLeavesTransactionOpen | src/Http/Middleware/WithDBTransactions.php:26-27 | an exception from `$next` goes through, leaving its transaction begun but neither committed nor rolled back |
| Middleware.DefaultRollsBackErrors | config/waska.with_db_transactions.php:32-53 | with the shipped settings no 1xx, 4xx or 5xx response, and no non-response, is committed |
| Middleware.DefaultCommitsRedirect | config/waska.with_db_transactions.php:46 | with the shipped settings a 302 redirect response is committed, so a failure rendered as a redirect keeps its writes |
| Middleware.DefaultIgnoresOnlyGet | config/waska.with_db_transactions.php:15-17 | with the shipped settings a request bypasses the middleware iff its method is GET in any letter case |
| Middleware.DefaultIgnoresNoRoute | config/waska.with_db_transactions.php:8-10 | the shipped settings ignore no route name |
| Middleware.DefaultSinglePass | config/waska.with_db_transactions.php:26 | with the shipped settings and no route parameter, `$next` is called once and one transaction begun |

## Left out

- The database facade, the event bus and `config()`. They are trace entries. Events are
  identified by timing and phase, and `EventKeysConfigured` ties those to the configuration
  keys. Constructing the event class and dispatching it are not modelled.
- The service provider (config merge and publish, the middleware alias and groups) and
  `maximum_attempts_for_groups`, which only the provider reads. Those settings are carried
  in `Settings` as constants only.
- `Str::snake` is modelled for ASCII names without spaces. Its handling of whitespace,
  non-ASCII letters and its cache is not modelled.
- `is_callable`: an argument is either a callable (identified by a number) or not.
- Loose `in_array` comparison is modelled only for a null route name, which matches `""`.
  Otherwise route names and statuses use ordinary equality; PHP's numeric comparison of
  numeric strings (`"1e1" == "10"`) is not modelled.
- `Route::current()` is an input (`routeName`, `None` when the route has no name). A null
  current route, which would fail in `shouldIgnoreCurrentRoute`, is not modelled.
- `Request::isMethod` is ASCII upper-case equality. Symfony's method override is not modelled.
- A thrown `$next` is modelled as the exception going through. In a Laravel route pipeline
  the exception is usually rendered into a response before it reaches the middleware. That
  case is a `Response(status)` carrying the rendered status: 500 for an unhandled error, the
  exception's own status for an HTTP exception (403, 404, 419), but a 302 redirect for a
  validation or authentication failure on a web route, which the shipped commit set commits
  (`DefaultCommitsRedirect`). The rendering itself is not modelled.
- Hooks or the commit throwing inside `transaction`'s try block, and hooks registering further
  hooks while `execute` runs. Hooks are opaque numbers whose runs are trace entries.
- Concurrency and the sharing of the static state between requests: one sequential execution
  is modelled.
- The route parameter arrives as a string and PHP coerces it to `int`. This parsing is not
  modelled, and neither is PHP's integer width: counters and budgets are unbounded integers.
- TransactionHelper.WithDBTransactions.Transaction: takes `calls`, the outcome of each closure
  call, as a ghost parameter tied to `runs` by its precondition. Each loop pass is the
  separate method `Attempt`. A closure touches the helper's static state only through
  `__callStatic` hook registrations. A closure that calls `stopMiddleware()`,
  `beginTransaction()`, `commit()`, `rollback()` or a nested `transaction()` is not modelled.
  Such a call could clear the outer attempt's hooks, advance the attempt counter, add its own
  primitives and events, or clear the flag. Only with the closure kept to registrations does
  `Transaction` promise the flag set afterwards, the counter advanced by `AttemptsMade` and the
  hooks of the last call.
- `stopMiddleware` is never called by the middleware or the helper in these files.
