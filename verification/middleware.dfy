/**
 * The route middleware `with_db_transactions`: unless the route name or the
 * request method is configured to be ignored, it wraps the rest of the request
 * pipeline in a database transaction, commits when the response's status is a
 * commit status, and otherwise rolls back and runs the pipeline again, up to
 * an attempt budget.
 *
 * The middleware talks to the database facade directly, so it fires no
 * lifecycle events and runs no hooks: its effects are the three database
 * primitives only. The rest of the pipeline (`$next`) is an oracle: call `i`
 * of it goes as `next(i)`.
 */
module Middleware {
  import opened Wrappers
  import opened Effects
  import Config

  /** What the rest of the pipeline hands back: an HTTP response object, or some other value. */
  datatype Reply = Response(status: int) | NonResponse(tag: nat)

  /** How one call of `$next($request)` ends. */
  datatype NextOutcome = Returned(reply: Reply) | Raised(code: int)

  /** A call of `$next` seen from the caller: its value, or the exception it throws. */
  function AsResult(o: NextOutcome): Result<Reply, int>
  {
    match o
    case Returned(reply) => Success(reply)
    case Raised(code) => Failure(code)
  }

  // ---------------------------------------------------------------------------
  // The three predicates
  // ---------------------------------------------------------------------------

  function UpperChar(c: char): char
  {
    if 'a' <= c <= 'z' then (c as int - 32) as char else c
  }

  /** ASCII upper-casing, as `strtoupper` does it. */
  function Upper(s: string): (r: string)
    ensures |r| == |s|
    ensures forall i :: 0 <= i < |s| ==> r[i] == UpperChar(s[i])
  {
    if s == [] then [] else [UpperChar(s[0])] + Upper(s[1..])
  }

  /**
   * `$request->isMethod($method)`: the request method and `m` agree once both
   * are upper-cased, that is, they have the same length and agree letter by
   * letter up to ASCII case.
   */
  function IsMethod(request: Request, m: string): (b: bool)
    ensures b <==> (|request.httpMethod| == |m| &&
                    forall i :: 0 <= i < |m| ==> UpperChar(request.httpMethod[i]) == UpperChar(m[i]))
  {
    var u, v := Upper(request.httpMethod), Upper(m);
    assert |u| == |v| ==> (u == v <==> forall i :: 0 <= i < |u| ==> u[i] == v[i]);
    u == v
  }

  /** `in_array($x, $xs)`: a scan of `xs` for `x`, under strict equality. */
  function InArray<T(==)>(x: T, xs: seq<T>): (b: bool)
    ensures b <==> x in xs
  {
    xs != [] && (xs[0] == x || InArray(x, xs[1..]))
  }

  /** The string a route name compares as: PHP's loose `==` equates `null` with `""`. */
  function NameOrEmpty(routeName: Option<string>): string
  {
    if routeName.Some? then routeName.value else ""
  }

  /**
   * `shouldIgnoreCurrentRoute`: the current route's name is in the configured
   * list; a route without a name is ignored only when that list holds `""`.
   */
  function ShouldIgnoreCurrentRoute(s: Config.Settings, routeName: Option<string>): (b: bool)
    ensures routeName.Some? ==> (b <==> routeName.value in s.ignoreRouteNames)
    ensures routeName.None? ==> (b <==> "" in s.ignoreRouteNames)
  {
    InArray(NameOrEmpty(routeName), s.ignoreRouteNames)
  }

  /** The `foreach` of `shouldIgnoreRequestMethod` over `methods`, returning at the first match. */
  function AnyMethodMatches(request: Request, methods: seq<string>): (b: bool)
    ensures b <==> exists i :: 0 <= i < |methods| && IsMethod(request, methods[i])
  {
    if methods == [] then false
    else if IsMethod(request, methods[0]) then true
    else
      assert forall i :: 1 <= i < |methods| ==> methods[i] == methods[1..][i - 1];
      AnyMethodMatches(request, methods[1..])
  }

  /** `shouldIgnoreRequestMethod`: some configured method matches the request's, ignoring case. */
  function ShouldIgnoreRequestMethod(s: Config.Settings, request: Request): (b: bool)
    ensures b <==> (exists i :: 0 <= i < |s.ignoreRequestMethods| &&
                             Upper(request.httpMethod) == Upper(s.ignoreRequestMethods[i]))
  {
    AnyMethodMatches(request, s.ignoreRequestMethods)
  }

  /**
   * `shouldCommitTransaction`: the value is a response object and its status
   * is one of the commit statuses; any other value rolls back.
   */
  function ShouldCommitTransaction(s: Config.Settings, reply: Reply): (b: bool)
    ensures b <==> reply.Response? && reply.status in s.commitHttpStatuses
    ensures reply.NonResponse? ==> !b
  {
    reply.Response? && InArray(reply.status, s.commitHttpStatuses)
  }

  /** Whether `handle` passes the request straight through. */
  predicate Bypassed(s: Config.Settings, routeName: Option<string>, request: Request)
  {
    ShouldIgnoreCurrentRoute(s, routeName) || ShouldIgnoreRequestMethod(s, request)
  }

  /**
   * `$attempts ?: config('...maximum_attempts')`: the route's parameter when
   * it is given and not 0, which PHP treats as false; the configured default
   * otherwise.
   */
  function EffectiveAttempts(s: Config.Settings, attempts: Option<int>): (n: int)
    ensures attempts.Some? && attempts.value != 0 ==> n == attempts.value
    ensures attempts.None? || attempts.value == 0 ==> n == s.maximumAttempts
  {
    if attempts.Some? && attempts.value != 0 then attempts.value else s.maximumAttempts
  }

  // ---------------------------------------------------------------------------
  // Specification of `handle`, over the calls of `$next`
  // ---------------------------------------------------------------------------

  /** How many times the retry loop may run `$next`. */
  function Passes(s: Config.Settings, attempts: Option<int>): nat
  {
    Budget(EffectiveAttempts(s, attempts))
  }

  /** A call that returns a response the middleware commits. */
  predicate Commits(s: Config.Settings, o: NextOutcome)
  {
    o.Returned? && ShouldCommitTransaction(s, o.reply)
  }

  /** A call after which the loop does not go on: it commits, or it throws. */
  predicate Settles(s: Config.Settings, o: NextOutcome)
  {
    o.Raised? || Commits(s, o)
  }

  /** The index of the first settling call among the first `n`, or `n` when every one of them is rolled back. */
  function FirstSettled(s: Config.Settings, next: nat -> NextOutcome, n: nat): (j: nat)
    ensures j <= n
    ensures forall p :: 0 <= p < j ==> !Settles(s, next(p))
    ensures j < n ==> Settles(s, next(j))
  {
    if n == 0 then 0
    else
      var j := FirstSettled(s, next, n - 1);
      if j < n - 1 then j else if Settles(s, next(n - 1)) then n - 1 else n
  }

  /** The database primitives of the retry loop. */
  function LoopEffects(s: Config.Settings, attempts: Option<int>, next: nat -> NextOutcome): seq<Effect>
  {
    var n := Passes(s, attempts);
    var j := FirstSettled(s, next, n);
    if j == n then RolledBackCycles(n)
    else if next(j).Raised? then RolledBackCycles(j) + [DbBegin]
    else RolledBackCycles(j) + [DbBegin, DbCommit]
  }

  /** What the retry loop returns or lets through: the settling call's outcome, or the last rolled-back response. */
  function LoopResult(s: Config.Settings, attempts: Option<int>, next: nat -> NextOutcome): Result<Reply, int>
  {
    var n := Passes(s, attempts);
    var j := FirstSettled(s, next, n);
    if j < n then AsResult(next(j)) else Success(next(n - 1).reply)
  }

  /** How many times the retry loop runs `$next`. */
  function LoopCalls(s: Config.Settings, attempts: Option<int>, next: nat -> NextOutcome): nat
  {
    var n := Passes(s, attempts);
    var j := FirstSettled(s, next, n);
    if j < n then j + 1 else n
  }

  function HandleEffects(s: Config.Settings, routeName: Option<string>, request: Request,
                         attempts: Option<int>, next: nat -> NextOutcome): seq<Effect>
  {
    if Bypassed(s, routeName, request) then [] else LoopEffects(s, attempts, next)
  }

  function HandleResult(s: Config.Settings, routeName: Option<string>, request: Request,
                        attempts: Option<int>, next: nat -> NextOutcome): Result<Reply, int>
  {
    if Bypassed(s, routeName, request) then AsResult(next(0)) else LoopResult(s, attempts, next)
  }

  function HandleCalls(s: Config.Settings, routeName: Option<string>, request: Request,
                       attempts: Option<int>, next: nat -> NextOutcome): nat
  {
    if Bypassed(s, routeName, request) then 1 else LoopCalls(s, attempts, next)
  }

  /** Call `i` throws, after `i` rolled-back calls. */
  lemma RaisesAt(s: Config.Settings, attempts: Option<int>, next: nat -> NextOutcome, i: nat)
    requires i < Passes(s, attempts)
    requires forall p :: 0 <= p < i ==> !Settles(s, next(p))
    requires next(i).Raised?
    ensures LoopEffects(s, attempts, next) == RolledBackCycles(i) + [DbBegin]
    ensures LoopResult(s, attempts, next) == Failure(next(i).code)
    ensures LoopCalls(s, attempts, next) == i + 1
  {
    assert FirstSettled(s, next, Passes(s, attempts)) == i;
  }

  /** Call `i` returns a committing response, after `i` rolled-back calls. */
  lemma CommitsAt(s: Config.Settings, attempts: Option<int>, next: nat -> NextOutcome, i: nat)
    requires i < Passes(s, attempts)
    requires forall p :: 0 <= p < i ==> !Settles(s, next(p))
    requires Commits(s, next(i))
    ensures LoopEffects(s, attempts, next) == RolledBackCycles(i) + [DbBegin, DbCommit]
    ensures LoopResult(s, attempts, next) == Success(next(i).reply)
    ensures LoopCalls(s, attempts, next) == i + 1
  {
    assert FirstSettled(s, next, Passes(s, attempts)) == i;
  }

  /** Every permitted call, the last being call `i`, is rolled back. */
  lemma ExhaustedAt(s: Config.Settings, attempts: Option<int>, next: nat -> NextOutcome, i: nat)
    requires i + 1 == Passes(s, attempts)
    requires forall p :: 0 <= p <= i ==> !Settles(s, next(p))
    ensures LoopEffects(s, attempts, next) == RolledBackCycles(i + 1)
    ensures LoopResult(s, attempts, next) == Success(next(i).reply)
    ensures LoopCalls(s, attempts, next) == i + 1
  {
    assert FirstSettled(s, next, Passes(s, attempts)) == i + 1;
  }

  // ---------------------------------------------------------------------------
  // `handle`
  // ---------------------------------------------------------------------------

  /**
   * `handle($request, $next, $attempts)` on the current route `routeName`:
   * returns what the pipeline returned (or lets its exception through) and the
   * database primitives performed; `nextCalls` counts the calls of `$next`.
   */
  method Handle(s: Config.Settings, routeName: Option<string>, request: Request, attempts: Option<int> := None,
                next: nat -> NextOutcome) returns (r: Result<Reply, int>, effects: seq<Effect>, ghost nextCalls: nat)
    ensures Bypassed(s, routeName, request) ==> r == AsResult(next(0)) && effects == [] && nextCalls == 1
    ensures r == HandleResult(s, routeName, request, attempts, next)
    ensures effects == HandleEffects(s, routeName, request, attempts, next)
    ensures nextCalls == HandleCalls(s, routeName, request, attempts, next)
  {
    if ShouldIgnoreCurrentRoute(s, routeName) || ShouldIgnoreRequestMethod(s, request) {
      var o := next(0);
      return AsResult(o), [], 1;
    }
    var remaining := EffectiveAttempts(s, attempts);
    ghost var n := Budget(remaining);
    var i: nat := 0;
    effects := [];
    while true
      invariant remaining == EffectiveAttempts(s, attempts) - i && i < n
      invariant forall p :: 0 <= p < i ==> !Settles(s, next(p))
      invariant effects == RolledBackCycles(i)
      decreases n - i
    {
      effects := effects + [DbBegin];
      var o := next(i);
      if o.Raised? {
        RaisesAt(s, attempts, next, i);
        return Failure(o.code), effects, i + 1;
      }
      var response := o.reply;
      if ShouldCommitTransaction(s, response) {
        effects := effects + [DbCommit];
        CommitsAt(s, attempts, next, i);
        return Success(response), effects, i + 1;
      }
      effects := effects + [DbRollback];
      remaining := remaining - 1;
      if remaining <= 0 {
        ExhaustedAt(s, attempts, next, i);
        return Success(response), effects, i + 1;
      }
      i := i + 1;
    }
  }

  // ---------------------------------------------------------------------------
  // Properties of `handle`
  // ---------------------------------------------------------------------------

  /** The loop runs at least once and at most the budget allows, and begins one transaction per call of `$next`. */
  lemma BeginsMatchCalls(s: Config.Settings, routeName: Option<string>, request: Request,
                                            attempts: Option<int>, next: nat -> NextOutcome)
    requires !Bypassed(s, routeName, request)
    ensures var k := HandleCalls(s, routeName, request, attempts, next);
      1 <= k <= Passes(s, attempts) &&
      Count(HandleEffects(s, routeName, request, attempts, next), DbBegin) == k
  {
    var n := Passes(s, attempts);
    var j := FirstSettled(s, next, n);
    if j == n {
      RolledBackCyclesCounts(n);
    } else {
      RolledBackCyclesCounts(j);
      if next(j).Raised? {
        TailCounts(j, [DbBegin], DbBegin);
      } else {
        TailCounts(j, [DbBegin, DbCommit], DbBegin);
      }
    }
  }

  /** How often `e` occurs in `j` rolled-back cycles followed by a short tail. */
  lemma TailCounts(j: nat, tail: seq<Effect>, e: Effect)
    requires tail == [DbBegin] || tail == [DbBegin, DbCommit]
    ensures Count(RolledBackCycles(j) + tail, e) ==
      Count(RolledBackCycles(j), e) + (if e == DbBegin || (e == DbCommit && |tail| == 2) then 1 else 0)
  {
    CountAppend(RolledBackCycles(j), tail, e);
    assert Count([DbBegin], e) == (if e == DbBegin then 1 else 0) by {
      assert [DbBegin][..0] == [];
    }
    if |tail| == 2 {
      assert tail[..1] == [DbBegin];
      assert Count(tail, e) == Count([DbBegin], e) + (if e == DbCommit then 1 else 0);
    }
  }

  /**
   * Outside a bypass, the middleware commits at most once, and it commits
   * exactly when it returns a response `shouldCommitTransaction` accepts.
   */
  lemma CommitIffShouldCommit(s: Config.Settings, routeName: Option<string>, request: Request,
                                                 attempts: Option<int>, next: nat -> NextOutcome)
    requires !Bypassed(s, routeName, request)
    ensures var commits := Count(HandleEffects(s, routeName, request, attempts, next), DbCommit);
      var r := HandleResult(s, routeName, request, attempts, next);
      commits <= 1 && (commits == 1 <==> r.Success? && ShouldCommitTransaction(s, r.value))
  {
    var n := Passes(s, attempts);
    var j := FirstSettled(s, next, n);
    if j == n {
      RolledBackCyclesCounts(n);
      assert !Settles(s, next(n - 1));
    } else {
      RolledBackCyclesCounts(j);
      if next(j).Raised? {
        TailCounts(j, [DbBegin], DbCommit);
      } else {
        TailCounts(j, [DbBegin, DbCommit], DbCommit);
      }
    }
  }

  /**
   * Begins and closes alternate: even positions begin, odd positions close
   * the transaction just begun, with a rollback except for a commit, which
   * can only be the very last primitive.
   */
  lemma HandleAlternates(s: Config.Settings, routeName: Option<string>, request: Request,
                                            attempts: Option<int>, next: nat -> NextOutcome)
    ensures Alternates(HandleEffects(s, routeName, request, attempts, next))
  {
    if !Bypassed(s, routeName, request) {
      var n := Passes(s, attempts);
      var j := FirstSettled(s, next, n);
      if j == n {
        CyclesThenAlternate(n, []);
        assert RolledBackCycles(n) + [] == RolledBackCycles(n);
      } else if next(j).Raised? {
        CyclesThenAlternate(j, [DbBegin]);
      } else {
        CyclesThenAlternate(j, [DbBegin, DbCommit]);
      }
    }
  }

  /** When every permitted call is rolled back, no error is raised and the last response is returned. */
  lemma ExhaustedReturnsLastResponse(s: Config.Settings, routeName: Option<string>, request: Request,
                                                        attempts: Option<int>, next: nat -> NextOutcome)
    requires !Bypassed(s, routeName, request)
    requires FirstSettled(s, next, Passes(s, attempts)) == Passes(s, attempts)
    ensures next(Passes(s, attempts) - 1).Returned?
    ensures HandleResult(s, routeName, request, attempts, next) == Success(next(Passes(s, attempts) - 1).reply)
    ensures Count(HandleEffects(s, routeName, request, attempts, next), DbRollback) == Passes(s, attempts)
    ensures Count(HandleEffects(s, routeName, request, attempts, next), DbCommit) == 0
  {
    RolledBackCyclesCounts(Passes(s, attempts));
  }

  /**
   * When a call of `$next` throws, the exception goes through and the
   * transaction it ran in is neither committed nor rolled back.
   */
  lemma RaisedLeavesTransactionOpen(s: Config.Settings, routeName: Option<string>, request: Request,
                                                       attempts: Option<int>, next: nat -> NextOutcome)
    requires !Bypassed(s, routeName, request)
    requires FirstSettled(s, next, Passes(s, attempts)) < Passes(s, attempts)
    requires next(FirstSettled(s, next, Passes(s, attempts))).Raised?
    ensures HandleResult(s, routeName, request, attempts, next).Failure?
    ensures var e := HandleEffects(s, routeName, request, attempts, next);
      |e| > 0 && e[|e| - 1] == DbBegin && Count(e, DbBegin) == Count(e, DbRollback) + 1
  {
    var j := FirstSettled(s, next, Passes(s, attempts));
    RolledBackCyclesCounts(j);
    TailCounts(j, [DbBegin], DbBegin);
    TailCounts(j, [DbBegin], DbRollback);
  }

  // ---------------------------------------------------------------------------
  // The shipped configuration
  // ---------------------------------------------------------------------------

  /** With the shipped settings every 1xx, 4xx and 5xx response, and every non-response, is rolled back. */
  lemma DefaultRollsBackErrors(reply: Reply)
    requires reply.Response? ==> reply.status < 200 || reply.status >= 400
    ensures !ShouldCommitTransaction(Config.Default, reply)
  {
    if reply.Response? && reply.status in Config.Default.commitHttpStatuses {
      Config.DefaultCommitStatusesAreSuccessOrRedirect(reply.status);
    }
  }

  /**
   * With the shipped settings a 302 redirect is committed, such as the
   * redirect a validation or authentication failure is rendered into on a
   * web route.
   */
  lemma DefaultCommitsRedirect()
    ensures ShouldCommitTransaction(Config.Default, Response(302))
  {
    Config.DefaultCommitStatuses(302);
  }

  /** With the shipped settings exactly the GET requests, in any letter case, are passed straight through. */
  lemma DefaultIgnoresOnlyGet(routeName: Option<string>, request: Request)
    ensures Bypassed(Config.Default, routeName, request) <==> Upper(request.httpMethod) == "GET"
  {
    assert Config.Default.ignoreRequestMethods == ["get"];
    assert Upper("get") == "GET";
    if Upper(request.httpMethod) == "GET" {
      assert IsMethod(request, Config.Default.ignoreRequestMethods[0]);
    }
  }

  /** The shipped settings ignore no route name. */
  lemma DefaultIgnoresNoRoute(routeName: Option<string>)
    ensures !ShouldIgnoreCurrentRoute(Config.Default, routeName)
  {
    assert Config.Default.ignoreRouteNames == [];
  }

  /** With the shipped settings and no route parameter, the middleware makes a single pass: no retry. */
  lemma DefaultSinglePass(routeName: Option<string>, request: Request, next: nat -> NextOutcome)
    requires !Bypassed(Config.Default, routeName, request)
    ensures HandleCalls(Config.Default, routeName, request, None, next) == 1
    ensures Count(HandleEffects(Config.Default, routeName, request, None, next), DbBegin) == 1
  {
    BeginsMatchCalls(Config.Default, routeName, request, None, next);
  }
}
