/**
 * The static transaction helper: an "active" flag, an attempt counter and the
 * hooks registered for the current attempt, with begin/commit/rollback that
 * run hooks and dispatch events around the database primitive, and a
 * bounded retry-on-exception `transaction`.
 */
module TransactionHelper {
  import opened Wrappers
  import opened Effects
  import Config

  // ---------------------------------------------------------------------------
  // Phase names, hook names and event keys
  // ---------------------------------------------------------------------------

  function TimingName(t: Timing): string
  {
    match t
    case Before => "before"
    case After => "after"
  }

  function PhaseName(p: Phase): string
  {
    match p
    case BeginTransaction => "begin_transaction"
    case Commit => "commit"
    case Rollback => "rollback"
    case EveryRollback => "every_rollback"
  }

  /** The key under which hooks for `p` are kept, e.g. `before_commit`. */
  function HookName(t: Timing, p: Phase): string
  {
    TimingName(t) + "_" + PhaseName(p)
  }

  /** The config key of the event class dispatched at `t` of `p`, e.g. `before_commit_event`. */
  function EventKey(t: Timing, p: Phase): string
  {
    HookName(t, p) + "_event"
  }

  lemma BeginEventKeys()
    ensures EventKey(Before, BeginTransaction) == "before_begin_transaction_event"
    ensures EventKey(After, BeginTransaction) == "after_begin_transaction_event"
  {
  }

  lemma CommitEventKeys()
    ensures EventKey(Before, Commit) == "before_commit_event"
    ensures EventKey(After, Commit) == "after_commit_event"
  {
  }

  lemma RollbackEventKeys()
    ensures EventKey(Before, Rollback) == "before_rollback_event"
    ensures EventKey(After, Rollback) == "after_rollback_event"
  {
  }

  lemma EveryRollbackEventKeys()
    ensures EventKey(Before, EveryRollback) == "before_every_rollback_event"
    ensures EventKey(After, EveryRollback) == "after_every_rollback_event"
  {
  }

  /** Every key the helper builds names an event class in the shipped configuration. */
  lemma EventKeysConfigured(t: Timing, p: Phase)
    ensures EventKey(t, p) in Config.Default.eventClasses
  {
    BeginEventKeys();
    CommitEventKeys();
    RollbackEventKeys();
    EveryRollbackEventKeys();
    hide EventKey;
    match t
    case Before =>
      match p {
        case BeginTransaction =>
        case Commit =>
        case Rollback =>
        case EveryRollback =>
      }
    case After =>
      match p {
        case BeginTransaction =>
        case Commit =>
        case Rollback =>
        case EveryRollback =>
      }
  }

  /** `rollback($request, $latest)` runs the `rollback` phase on the last attempt and `every_rollback` otherwise. */
  function RollbackPhase(latest: bool): Phase
  {
    if latest then Rollback else EveryRollback
  }

  // ---------------------------------------------------------------------------
  // Name normalisation (ASCII camelCase to snake_case)
  // ---------------------------------------------------------------------------

  predicate IsUpper(c: char) { 'A' <= c <= 'Z' }

  predicate NoUpper(s: string) { forall i :: 0 <= i < |s| ==> !IsUpper(s[i]) }

  function Lower(c: char): char
  {
    if IsUpper(c) then (c as int + 32) as char else c
  }

  /** `Str::snake`: lower-cases every letter and puts `_` before each upper-case letter that does not start the name. */
  function Snake(name: string): (r: string)
    ensures NoUpper(r)
  {
    if name == [] then [] else [Lower(name[0])] + SnakeRest(name[1..])
  }

  function SnakeRest(s: string): (r: string)
    ensures NoUpper(r)
  {
    if s == [] then []
    else (if IsUpper(s[0]) then ['_', Lower(s[0])] else [s[0]]) + SnakeRest(s[1..])
  }

  lemma {:induction false} SnakeRestAppend(a: string, b: string)
    ensures SnakeRest(a + b) == SnakeRest(a) + SnakeRest(b)
  {
    if a == [] {
      assert a + b == b;
    } else {
      assert (a + b)[1..] == a[1..] + b;
      SnakeRestAppend(a[1..], b);
    }
  }

  lemma {:induction false} SnakeRestKeeps(s: string)
    requires NoUpper(s)
    ensures SnakeRest(s) == s
  {
    if s != [] {
      SnakeRestKeeps(s[1..]);
    }
  }

  /** A name already in snake_case is its own normal form, so `before_commit` and `beforeCommit` share one hook list. */
  lemma SnakeKeepsSnakeCase(name: string)
    requires NoUpper(name)
    ensures Snake(name) == name
  {
    if name != [] {
      SnakeRestKeeps(name[1..]);
    }
  }

  /** An upper-case letter inside a name becomes `_` and its lower-case form; the words around it are kept. */
  lemma {:induction false} SnakeAtCapital(w: string, c: char, rest: string)
    requires w != [] && NoUpper(w) && IsUpper(c)
    ensures Snake(w + [c] + rest) == w + ['_', Lower(c)] + SnakeRest(rest)
  {
    assert SnakeRest([c]) == ['_', Lower(c)] by {
      assert [c][1..] == [];
    }
    hide SnakeRest;
    var n := w + [c] + rest;
    var tail := w[1..];
    assert n[1..] == tail + [c] + rest;
    SnakeRestAppend(tail + [c], rest);
    SnakeRestAppend(tail, [c]);
    SnakeRestKeeps(tail);
    assert SnakeRest(n[1..]) == tail + ['_', Lower(c)] + SnakeRest(rest);
    assert Lower(n[0]) == w[0];
    assert [w[0]] + tail == w;
  }

  /** camelCase with two words. */
  lemma SnakeTwoWords(w1: string, c: char, w2: string)
    requires w1 != [] && NoUpper(w1) && IsUpper(c) && NoUpper(w2)
    ensures Snake(w1 + [c] + w2) == w1 + ['_', Lower(c)] + w2
  {
    SnakeAtCapital(w1, c, w2);
    SnakeRestKeeps(w2);
  }

  /** camelCase with three words. */
  lemma SnakeThreeWords(w1: string, c1: char, w2: string, c2: char, w3: string)
    requires w1 != [] && NoUpper(w1) && IsUpper(c1) && NoUpper(w2) && IsUpper(c2) && NoUpper(w3)
    ensures Snake(w1 + [c1] + w2 + [c2] + w3) == w1 + ['_', Lower(c1)] + w2 + ['_', Lower(c2)] + w3
  {
    var rest := w2 + [c2] + w3;
    assert w1 + [c1] + w2 + [c2] + w3 == w1 + [c1] + rest;
    SnakeAtCapital(w1, c1, rest);
    SnakeRestAppend(w2 + [c2], w3);
    SnakeRestAppend(w2, [c2]);
    SnakeRestKeeps(w2);
    SnakeRestKeeps(w3);
    assert [c2][1..] == [];
  }

  /** `beforeCommit` and `afterCommit` register into the lists `commit` runs. */
  lemma CommitHookMethods()
    ensures Snake("beforeCommit") == HookName(Before, Commit)
    ensures Snake("afterCommit") == HookName(After, Commit)
  {
    hide Snake;
    hide SnakeRest;
    SnakeTwoWords("before", 'C', "ommit");
    assert "before" + ['C'] + "ommit" == "beforeCommit";
    assert "before" + ['_', Lower('C')] + "ommit" == HookName(Before, Commit);
    SnakeTwoWords("after", 'C', "ommit");
    assert "after" + ['C'] + "ommit" == "afterCommit";
    assert "after" + ['_', Lower('C')] + "ommit" == HookName(After, Commit);
  }

  /** `beforeRollback` and `afterRollback` register into the lists the final rollback runs. */
  lemma RollbackHookMethods()
    ensures Snake("beforeRollback") == HookName(Before, Rollback)
    ensures Snake("afterRollback") == HookName(After, Rollback)
  {
    hide Snake;
    hide SnakeRest;
    SnakeTwoWords("before", 'R', "ollback");
    assert "before" + ['R'] + "ollback" == "beforeRollback";
    assert "before" + ['_', Lower('R')] + "ollback" == HookName(Before, Rollback);
    SnakeTwoWords("after", 'R', "ollback");
    assert "after" + ['R'] + "ollback" == "afterRollback";
    assert "after" + ['_', Lower('R')] + "ollback" == HookName(After, Rollback);
  }

  /** `beforeEveryRollback` and `afterEveryRollback` register into the lists every non-final rollback runs. */
  lemma EveryRollbackHookMethods()
    ensures Snake("beforeEveryRollback") == HookName(Before, EveryRollback)
    ensures Snake("afterEveryRollback") == HookName(After, EveryRollback)
  {
    hide Snake;
    hide SnakeRest;
    SnakeThreeWords("before", 'E', "very", 'R', "ollback");
    assert "before" + ['E'] + "very" + ['R'] + "ollback" == "beforeEveryRollback";
    assert "before" + ['_', Lower('E')] + "very" + ['_', Lower('R')] + "ollback" == HookName(Before, EveryRollback);
    SnakeThreeWords("after", 'E', "very", 'R', "ollback");
    assert "after" + ['E'] + "very" + ['R'] + "ollback" == "afterEveryRollback";
    assert "after" + ['_', Lower('E')] + "very" + ['_', Lower('R')] + "ollback" == HookName(After, EveryRollback);
  }

  // ---------------------------------------------------------------------------
  // Hook registration
  // ---------------------------------------------------------------------------

  /** Hook name -> registered callables, in registration order. */
  type Hooks = map<string, seq<nat>>

  /** An argument of a registration call; callables are identified by a number. */
  datatype Arg = Callable(id: nat) | NotCallable

  datatype Error =
    | MiddlewareIsNotPassed      // MiddlewareIsNotPassedException
    | InvalidCallableParameter   // InvalidCallableParameterException
    | Thrown(code: int)          // anything a user closure throws

  /** `Arr::first($arguments)`: the first argument, or null (not callable) when there is none. */
  function First(arguments: seq<Arg>): Arg
  {
    if arguments == [] then NotCallable else arguments[0]
  }

  /** The hooks registered under `name` (none when the key is absent). */
  function Registered(h: Hooks, name: string): seq<nat>
  {
    if name in h then h[name] else []
  }

  /** The hooks that run at `t` of phase `p`: `execute('before_commit')` and the like. */
  function HooksFor(h: Hooks, t: Timing, p: Phase): seq<nat>
  {
    Registered(h, HookName(t, p))
  }

  /**
   * What `__callStatic($name, $arguments)` does to the hook map. It throws
   * `MiddlewareIsNotPassed` outside the middleware, whatever the arguments;
   * inside it, `InvalidCallableParameter` when the first argument is not
   * callable; and succeeds otherwise.
   */
  function Register(started: bool, h: Hooks, name: string, arguments: seq<Arg>): (r: Result<Hooks, Error>)
    ensures r == Failure(MiddlewareIsNotPassed) <==> !started
    ensures r == Failure(InvalidCallableParameter) <==> started && !First(arguments).Callable?
    ensures r.Success? <==> started && First(arguments).Callable?
  {
    if !started then Failure(MiddlewareIsNotPassed)
    else if !First(arguments).Callable? then Failure(InvalidCallableParameter)
    else
      var key := Snake(name);
      Success(h[key := Registered(h, key) + [First(arguments).id]])
  }

  /**
   * A successful registration appends the callable to the end of the list
   * under the snake_case name and leaves every other list as it was.
   */
  lemma RegisterAppends(started: bool, h: Hooks, name: string, arguments: seq<Arg>)
    requires Register(started, h, name, arguments).Success?
    ensures var h' := Register(started, h, name, arguments).value;
      && Registered(h', Snake(name)) == Registered(h, Snake(name)) + [First(arguments).id]
      && forall k :: k != Snake(name) ==> Registered(h', k) == Registered(h, k)
  {
  }

  // ---------------------------------------------------------------------------
  // Effects of begin, commit and rollback
  // ---------------------------------------------------------------------------

  /** Running the hooks `ids` registered under `name`, in order. */
  function HookRuns(t: Timing, p: Phase, ids: seq<nat>): seq<Effect>
  {
    if ids == [] then [] else HookRuns(t, p, ids[..|ids| - 1]) + [RunHook(t, p, ids[|ids| - 1])]
  }

  /** Hooks run exactly once each, in registration order. */
  lemma {:induction false} HookRunsInOrder(t: Timing, p: Phase, ids: seq<nat>)
    ensures |HookRuns(t, p, ids)| == |ids|
    ensures forall i :: 0 <= i < |ids| ==> HookRuns(t, p, ids)[i] == RunHook(t, p, ids[i])
  {
    if ids != [] {
      HookRunsInOrder(t, p, ids[..|ids| - 1]);
    }
  }

  /** Running hooks touches neither the database nor the event bus. */
  lemma {:induction false} HookRunsUnobserved(timing: Timing, p: Phase, ids: seq<nat>, t: Timing, q: Phase)
    ensures DbOps(HookRuns(timing, p, ids)) == []
    ensures Attempts(HookRuns(timing, p, ids), t, q) == []
  {
    if ids != [] {
      var pre := HookRuns(timing, p, ids[..|ids| - 1]);
      HookRunsUnobserved(timing, p, ids[..|ids| - 1], t, q);
      assert HookRuns(timing, p, ids)[..|HookRuns(timing, p, ids)| - 1] == pre;
    }
  }

  function Dispatch(t: Timing, p: Phase, request: Option<Request>, attempt: int): Effect
  {
    Fire(LifecycleEvent(t, p, request, attempt))
  }

  /** `beginTransaction`: before event, DB begin, after event, all carrying the new attempt. */
  function BeginEffects(request: Option<Request>, attempt: int): seq<Effect>
  {
    [Dispatch(Before, BeginTransaction, request, attempt), DbBegin, Dispatch(After, BeginTransaction, request, attempt)]
  }

  /** `commit` / `rollback`: before hooks, before event, the primitive, after hooks, after event. */
  function PhaseEffects(before: seq<nat>, after: seq<nat>, p: Phase, primitive: Effect, request: Option<Request>, attempt: int): seq<Effect>
  {
    HookRuns(Before, p, before)
    + [Dispatch(Before, p, request, attempt), primitive]
    + HookRuns(After, p, after)
    + [Dispatch(After, p, request, attempt)]
  }

  lemma OneEffectObserved(e: Effect, t: Timing, q: Phase)
    ensures DbOps([e]) == if e.IsDbOp() then [e] else []
    ensures Attempts([e], t, q) ==
      if e.Fire? && e.event.timing == t && e.event.phase == q then [e.event.currentAttempt] else []
  {
    assert [e][..0] == [];
  }

  /** Beginning performs one DB begin and dispatches one before and one after begin event carrying `attempt`. */
  lemma BeginObserved(request: Option<Request>, attempt: int, t: Timing, q: Phase)
    ensures DbOps(BeginEffects(request, attempt)) == [DbBegin]
    ensures Attempts(BeginEffects(request, attempt), t, q) ==
      if q == BeginTransaction then [attempt] else []
  {
    hide DbOps;
    hide Attempts;
    var b := Dispatch(Before, BeginTransaction, request, attempt);
    var a := Dispatch(After, BeginTransaction, request, attempt);
    var s := [b] + [DbBegin] + [a];
    assert BeginEffects(request, attempt) == s;
    OneEffectObserved(b, t, q);
    OneEffectObserved(DbBegin, t, q);
    OneEffectObserved(a, t, q);
    assert DbOps(s) == [DbBegin] by {
      DbOpsAppend([b] + [DbBegin], [a]);
      DbOpsAppend([b], [DbBegin]);
    }
    assert Attempts(s, t, q) == Attempts([b], t, q) + Attempts([DbBegin], t, q) + Attempts([a], t, q) by {
      AttemptsAppend([b] + [DbBegin], [a], t, q);
      AttemptsAppend([b], [DbBegin], t, q);
    }
  }

  /** A commit or rollback performs its primitive exactly once, between its before and after hooks. */
  lemma PhaseDbOps(before: seq<nat>, after: seq<nat>, p: Phase, primitive: Effect, request: Option<Request>, attempt: int)
    requires primitive.IsDbOp()
    ensures DbOps(PhaseEffects(before, after, p, primitive, request, attempt)) == [primitive]
  {
    var hb := HookRuns(Before, p, before);
    var ha := HookRuns(After, p, after);
    var b := Dispatch(Before, p, request, attempt);
    var a := Dispatch(After, p, request, attempt);
    var s2 := hb + [b, primitive];
    assert PhaseEffects(before, after, p, primitive, request, attempt) == s2 + ha + [a];
    HookRunsUnobserved(Before, p, before, Before, p);
    HookRunsUnobserved(After, p, after, Before, p);
    assert DbOps(s2) == [primitive] by {
      DbOpsAppend(hb, [b, primitive]);
      assert DbOps([b, primitive]) == [primitive] by {
        assert [b, primitive] == [b] + [primitive];
        DbOpsAppend([b], [primitive]);
        OneEffectObserved(b, Before, p);
        OneEffectObserved(primitive, Before, p);
      }
    }
    assert DbOps(s2 + ha + [a]) == [primitive] by {
      DbOpsAppend(s2, ha);
      assert (s2 + ha + [a])[..|s2 + ha + [a]| - 1] == s2 + ha;
    }
  }

  lemma PhaseEffectsPieces(before: seq<nat>, after: seq<nat>, p: Phase, primitive: Effect, request: Option<Request>, attempt: int)
    ensures PhaseEffects(before, after, p, primitive, request, attempt) ==
      HookRuns(Before, p, before) + [Dispatch(Before, p, request, attempt)] + [primitive]
      + HookRuns(After, p, after) + [Dispatch(After, p, request, attempt)]
  {
    assert [Dispatch(Before, p, request, attempt), primitive] == [Dispatch(Before, p, request, attempt)] + [primitive];
  }

  /** A commit or rollback dispatches exactly one before and one after event of its own phase, carrying `attempt`. */
  lemma PhaseEvents(before: seq<nat>, after: seq<nat>, p: Phase, primitive: Effect, request: Option<Request>, attempt: int, t: Timing, q: Phase)
    requires primitive.IsDbOp()
    ensures q == p ==> Attempts(PhaseEffects(before, after, p, primitive, request, attempt), t, q) == [attempt]
    ensures q != p ==> Attempts(PhaseEffects(before, after, p, primitive, request, attempt), t, q) == []
  {
    var hb := HookRuns(Before, p, before);
    var ha := HookRuns(After, p, after);
    var b := Dispatch(Before, p, request, attempt);
    var a := Dispatch(After, p, request, attempt);
    PhaseEffectsPieces(before, after, p, primitive, request, attempt);
    AttemptsOfFive(hb, [b], [primitive], ha, [a], t, q);
    HookRunsUnobserved(Before, p, before, t, q);
    HookRunsUnobserved(After, p, after, t, q);
    OneEffectObserved(b, t, q);
    OneEffectObserved(primitive, t, q);
    OneEffectObserved(a, t, q);
  }

  // ---------------------------------------------------------------------------
  // User closures for `transaction`, as oracles
  // ---------------------------------------------------------------------------

  /** One hook registration a closure makes, e.g. `WithDBTransactions::afterCommit($f)`. */
  datatype HookCall = HookCall(name: string, arguments: seq<Arg>)

  datatype ClosureOutcome = Returns(value: int) | Throws(code: int)

  /** What one call of the user closure does: the registrations it makes, then how it ends. */
  datatype ClosureRun = ClosureRun(calls: seq<HookCall>, outcome: ClosureOutcome)

  /** The registrations of a closure, in order; the first failing one throws and ends the closure. */
  function RunCalls(started: bool, h: Hooks, calls: seq<HookCall>): (Hooks, Option<Error>)
    decreases |calls|
  {
    if calls == [] then (h, None)
    else
      match Register(started, h, calls[0].name, calls[0].arguments)
      case Failure(e) => (h, Some(e))
      case Success(h') => RunCalls(started, h', calls[1..])
  }

  /** What one closure call leaves behind: the hooks registered by then, and its return value or exception. */
  datatype Called = Called(hooks: Hooks, result: Result<int, Error>)

  /** One call of the user closure, starting from the hooks `h`. */
  function CallClosure(started: bool, h: Hooks, run: ClosureRun): Called
  {
    var (h', failed) := RunCalls(started, h, run.calls);
    Called(h', if failed.Some? then Failure(failed.value)
               else match run.outcome
                    case Returns(v) => Success(v)
                    case Throws(c) => Failure(Thrown(c)))
  }

  // ---------------------------------------------------------------------------
  // Specification of `transaction($closure, $attempts)`, over the closure calls
  // ---------------------------------------------------------------------------

  /** Whether the try block of an attempt (closure, then commit) completes. */
  predicate Succeeds(c: Called)
  {
    c.result.Success?
  }

  /** The index of the first successful call among the first `n`, or `n` when all of them throw. */
  function FirstSuccess(calls: nat -> Called, n: nat): (j: nat)
    ensures j <= n
    ensures forall p :: 0 <= p < j ==> !Succeeds(calls(p))
    ensures j < n ==> Succeeds(calls(j))
  {
    if n == 0 then 0
    else
      var j := FirstSuccess(calls, n - 1);
      if j < n - 1 then j else if Succeeds(calls(n - 1)) then n - 1 else n
  }

  /** The phase an attempt closes with. */
  function ClosingPhase(c: Called, latest: bool): Phase
  {
    if Succeeds(c) then Commit else RollbackPhase(latest)
  }

  /**
   * One attempt, numbered `attempt`, whose closure call went as `c`: begin,
   * then commit, or roll back (finally when `latest`), running the hooks the
   * call registered.
   */
  function AttemptEffects(c: Called, attempt: int, latest: bool): seq<Effect>
  {
    var p := ClosingPhase(c, latest);
    BeginEffects(None, attempt)
    + PhaseEffects(HooksFor(c.hooks, Before, p), HooksFor(c.hooks, After, p), p,
                   if Succeeds(c) then DbCommit else DbRollback, None, attempt)
  }

  lemma AttemptPieces(c: Called, attempt: int, latest: bool)
    ensures var p := ClosingPhase(c, latest);
      AttemptEffects(c, attempt, latest) == BeginEffects(None, attempt) +
        PhaseEffects(HooksFor(c.hooks, Before, p), HooksFor(c.hooks, After, p), p,
                     if Succeeds(c) then DbCommit else DbRollback, None, attempt)
  {
  }

  /** Attempt `i`, rolled back with `latest = false`. */
  function FailedAttempt(calls: nat -> Called, a0: int): nat -> seq<Effect>
  {
    (i: nat) => AttemptEffects(calls(i), a0 + i + 1, false)
  }

  /** The first `k` attempts, each rolled back with `latest = false`. */
  function FailedAttempts(calls: nat -> Called, a0: int, k: nat): seq<Effect>
  {
    Concat(FailedAttempt(calls, a0), k)
  }

  /** How many attempts `transaction` makes. */
  function AttemptsMade(calls: nat -> Called, attempts: int): (k: nat)
    ensures 1 <= k <= Budget(attempts)
  {
    var n := Budget(attempts);
    var j := FirstSuccess(calls, n);
    if j < n then j + 1 else n
  }

  /**
   * What `transaction` returns or rethrows: the first successful call's
   * value, or, when every permitted call throws, the last call's exception.
   */
  function TransactionResult(calls: nat -> Called, attempts: int): (r: Result<int, Error>)
    ensures r.Success? <==> exists p :: 0 <= p < Budget(attempts) && Succeeds(calls(p))
    ensures r.Success? ==>
      exists p :: 0 <= p < Budget(attempts) && r == calls(p).result &&
        forall q :: 0 <= q < p ==> !Succeeds(calls(q))
    ensures r.Failure? ==> r == calls(Budget(attempts) - 1).result
  {
    var n := Budget(attempts);
    var j := FirstSuccess(calls, n);
    calls(if j < n then j else n - 1).result
  }

  /** One attempt performs one begin, then one commit (the closure returned) or one rollback (it threw). */
  lemma AttemptDbOps(c: Called, attempt: int, latest: bool)
    ensures DbOps(AttemptEffects(c, attempt, latest)) ==
      [DbBegin, if Succeeds(c) then DbCommit else DbRollback]
  {
    var p := ClosingPhase(c, latest);
    var prim := if Succeeds(c) then DbCommit else DbRollback;
    var close := PhaseEffects(HooksFor(c.hooks, Before, p), HooksFor(c.hooks, After, p), p, prim, None, attempt);
    assert AttemptEffects(c, attempt, latest) == BeginEffects(None, attempt) + close;
    BeginObserved(None, attempt, Before, p);
    PhaseDbOps(HooksFor(c.hooks, Before, p), HooksFor(c.hooks, After, p), p, prim, None, attempt);
    DbOpsAppend(BeginEffects(None, attempt), close);
  }

  /** One attempt dispatches the begin events and the events of the phase it closes with, all carrying its number. */
  lemma AttemptEvents(c: Called, attempt: int, latest: bool, t: Timing, q: Phase)
    ensures q == BeginTransaction || q == ClosingPhase(c, latest) ==>
      Attempts(AttemptEffects(c, attempt, latest), t, q) == [attempt]
    ensures q != BeginTransaction && q != ClosingPhase(c, latest) ==>
      Attempts(AttemptEffects(c, attempt, latest), t, q) == []
  {
    var p := ClosingPhase(c, latest);
    var prim := if Succeeds(c) then DbCommit else DbRollback;
    var begin := BeginEffects(None, attempt);
    var close := PhaseEffects(HooksFor(c.hooks, Before, p), HooksFor(c.hooks, After, p), p, prim, None, attempt);
    assert AttemptEffects(c, attempt, latest) == begin + close;
    BeginObserved(None, attempt, t, q);
    PhaseEvents(HooksFor(c.hooks, Before, p), HooksFor(c.hooks, After, p), p, prim, None, attempt, t, q);
    AttemptsAppend(begin, close, t, q);
    var x := Attempts(begin, t, q);
    var y := Attempts(close, t, q);
    if q == BeginTransaction {
      assert p != BeginTransaction;
      assert x == [attempt] && y == [];
    } else if q == p {
      assert x == [] && y == [attempt];
    } else {
      assert x == [] && y == [];
    }
  }

  lemma AttemptBeginEvent(c: Called, attempt: int, latest: bool, t: Timing)
    ensures Attempts(AttemptEffects(c, attempt, latest), t, BeginTransaction) == [attempt]
  {
    AttemptEvents(c, attempt, latest, t, BeginTransaction);
  }

  lemma AttemptCloseEvent(c: Called, attempt: int, latest: bool, t: Timing, q: Phase)
    requires q == ClosingPhase(c, latest)
    ensures Attempts(AttemptEffects(c, attempt, latest), t, q) == [attempt]
  {
    AttemptEvents(c, attempt, latest, t, q);
  }

  lemma AttemptNoEvent(c: Called, attempt: int, latest: bool, t: Timing, q: Phase)
    requires q != BeginTransaction && q != ClosingPhase(c, latest)
    ensures Attempts(AttemptEffects(c, attempt, latest), t, q) == []
  {
    AttemptEvents(c, attempt, latest, t, q);
  }

  /** `k` failed attempts perform `k` begin/rollback pairs. */
  lemma FailedAttemptsDbOps(calls: nat -> Called, a0: int, k: nat)
    requires forall p :: 0 <= p < k ==> !Succeeds(calls(p))
    ensures DbOps(FailedAttempts(calls, a0, k)) == RolledBackCycles(k)
  {
    var f := FailedAttempt(calls, a0);
    forall i | 0 <= i < k
      ensures DbOps(f(i)) == [DbBegin, DbRollback]
    {
      FailedAttemptDbOps(calls, a0, i);
    }
    ConcatDbOps(f, k);
  }

  lemma FailedAttemptDbOps(calls: nat -> Called, a0: int, i: nat)
    requires !Succeeds(calls(i))
    ensures DbOps(FailedAttempt(calls, a0)(i)) == [DbBegin, DbRollback]
  {
    AttemptDbOps(calls(i), a0 + i + 1, false);
  }

  lemma FailedAttemptEvent(calls: nat -> Called, a0: int, i: nat, t: Timing, q: Phase)
    requires !Succeeds(calls(i))
    requires q == BeginTransaction || q == EveryRollback
    ensures Attempts(FailedAttempt(calls, a0)(i), t, q) == [a0 + 1 + i]
  {
    AttemptEvents(calls(i), a0 + i + 1, false, t, q);
  }

  lemma FailedAttemptNoCloseEvent(calls: nat -> Called, a0: int, i: nat, t: Timing, q: Phase)
    requires !Succeeds(calls(i))
    requires q == Commit || q == Rollback
    ensures Attempts(FailedAttempt(calls, a0)(i), t, q) == []
  {
    AttemptEvents(calls(i), a0 + i + 1, false, t, q);
  }

  /** `k` failed attempts dispatch one begin event and one `every_rollback` event per attempt, numbered a0+1 .. a0+k. */
  lemma FailedAttemptsEvents(calls: nat -> Called, a0: int, k: nat, t: Timing, q: Phase)
    requires forall p :: 0 <= p < k ==> !Succeeds(calls(p))
    requires q == BeginTransaction || q == EveryRollback
    ensures Attempts(FailedAttempts(calls, a0, k), t, q) == Range(a0 + 1, a0 + 1 + k)
  {
    var f := FailedAttempt(calls, a0);
    forall i | 0 <= i < k
      ensures Attempts(f(i), t, q) == [a0 + 1 + i]
    {
      FailedAttemptEvent(calls, a0, i, t, q);
    }
    ConcatEventsHit(f, k, t, q, a0 + 1);
  }

  /** ... and no `commit` or final `rollback` event. */
  lemma FailedAttemptsNoCloseEvents(calls: nat -> Called, a0: int, k: nat, t: Timing, q: Phase)
    requires forall p :: 0 <= p < k ==> !Succeeds(calls(p))
    requires q == Commit || q == Rollback
    ensures Attempts(FailedAttempts(calls, a0, k), t, q) == []
  {
    var f := FailedAttempt(calls, a0);
    forall i | 0 <= i < k
      ensures Attempts(f(i), t, q) == []
    {
      FailedAttemptNoCloseEvent(calls, a0, i, t, q);
    }
    ConcatEventsNone(f, k, t, q);
  }

  /** Whether one of the permitted calls succeeds, so that `transaction` commits. */
  predicate Committed(calls: nat -> Called, attempts: int)
  {
    FirstSuccess(calls, Budget(attempts)) < Budget(attempts)
  }

  /** `transaction` commits exactly when it returns normally. */
  lemma CommittedIffReturns(calls: nat -> Called, attempts: int)
    ensures Committed(calls, attempts) <==> TransactionResult(calls, attempts).Success?
  {
  }

  /** The attempts before the last one `transaction` makes, all of which threw. */
  function FailedBefore(calls: nat -> Called, attempts: int): (k: nat)
    ensures k + 1 == AttemptsMade(calls, attempts)
    ensures forall p :: 0 <= p < k ==> !Succeeds(calls(p))
  {
    AttemptsMade(calls, attempts) - 1
  }

  /** The last attempt commits exactly when `transaction` does; otherwise it is the last permitted one. */
  lemma LastAttempt(calls: nat -> Called, attempts: int)
    ensures Committed(calls, attempts) <==> Succeeds(calls(FailedBefore(calls, attempts)))
    ensures !Committed(calls, attempts) ==> AttemptsMade(calls, attempts) == Budget(attempts)
  {
  }

  /** `k` failed attempts, then attempt `k`, closed finally when `latest`. */
  function Attempted(calls: nat -> Called, a0: int, k: nat, latest: bool): seq<Effect>
  {
    FailedAttempts(calls, a0, k) + AttemptEffects(calls(k), a0 + k + 1, latest)
  }

  /** Everything `transaction` appends to the trace. */
  function TransactionEffects(calls: nat -> Called, a0: int, attempts: int): seq<Effect>
  {
    Attempted(calls, a0, FailedBefore(calls, attempts), !Committed(calls, attempts))
  }

  lemma AttemptedDbOps(calls: nat -> Called, a0: int, k: nat, latest: bool)
    requires forall p :: 0 <= p < k ==> !Succeeds(calls(p))
    ensures Succeeds(calls(k)) ==> DbOps(Attempted(calls, a0, k, latest)) == RolledBackCycles(k) + [DbBegin, DbCommit]
    ensures !Succeeds(calls(k)) ==> DbOps(Attempted(calls, a0, k, latest)) == RolledBackCycles(k + 1)
  {
    hide AttemptEffects;
    hide FailedAttempts;
    FailedAttemptsDbOps(calls, a0, k);
    AttemptDbOps(calls(k), a0 + k + 1, latest);
    DbOpsAppend(FailedAttempts(calls, a0, k), AttemptEffects(calls(k), a0 + k + 1, latest));
  }

  lemma AttemptedBeginEvents(calls: nat -> Called, a0: int, k: nat, latest: bool, t: Timing)
    requires forall p :: 0 <= p < k ==> !Succeeds(calls(p))
    ensures Attempts(Attempted(calls, a0, k, latest), t, BeginTransaction) == Range(a0 + 1, a0 + 1 + (k + 1))
  {
    hide AttemptEffects;
    hide FailedAttempts;
    var F := FailedAttempts(calls, a0, k);
    var A := AttemptEffects(calls(k), a0 + k + 1, latest);
    FailedAttemptsEvents(calls, a0, k, t, BeginTransaction);
    AttemptBeginEvent(calls(k), a0 + k + 1, latest, t);
    AttemptsAppend(F, A, t, BeginTransaction);
    assert Range(a0 + 1, a0 + 1 + (k + 1)) == Range(a0 + 1, a0 + 1 + k) + [a0 + k + 1];
  }

  lemma AttemptedEveryRollbackEvents(calls: nat -> Called, a0: int, k: nat, latest: bool, t: Timing)
    requires forall p :: 0 <= p < k ==> !Succeeds(calls(p))
    requires ClosingPhase(calls(k), latest) != EveryRollback
    ensures Attempts(Attempted(calls, a0, k, latest), t, EveryRollback) == Range(a0 + 1, a0 + 1 + k)
  {
    hide AttemptEffects;
    hide FailedAttempts;
    var F := FailedAttempts(calls, a0, k);
    var A := AttemptEffects(calls(k), a0 + k + 1, latest);
    FailedAttemptsEvents(calls, a0, k, t, EveryRollback);
    AttemptNoEvent(calls(k), a0 + k + 1, latest, t, EveryRollback);
    AttemptsAppend(F, A, t, EveryRollback);
    assert Attempts(F, t, EveryRollback) + [] == Attempts(F, t, EveryRollback);
  }

  lemma AttemptedCloseEvent(calls: nat -> Called, a0: int, k: nat, latest: bool, t: Timing, q: Phase)
    requires forall p :: 0 <= p < k ==> !Succeeds(calls(p))
    requires q == Commit || q == Rollback
    ensures q == ClosingPhase(calls(k), latest) ==> Attempts(Attempted(calls, a0, k, latest), t, q) == [a0 + k + 1]
    ensures q != ClosingPhase(calls(k), latest) ==> Attempts(Attempted(calls, a0, k, latest), t, q) == []
  {
    hide AttemptEffects;
    hide FailedAttempts;
    var F := FailedAttempts(calls, a0, k);
    var A := AttemptEffects(calls(k), a0 + k + 1, latest);
    FailedAttemptsNoCloseEvents(calls, a0, k, t, q);
    AttemptsAppend(F, A, t, q);
    if q == ClosingPhase(calls(k), latest) {
      AttemptCloseEvent(calls(k), a0 + k + 1, latest, t, q);
    } else {
      AttemptNoEvent(calls(k), a0 + k + 1, latest, t, q);
    }
  }

  lemma FailedAttemptsStep(calls: nat -> Called, a0: int, i: nat)
    ensures FailedAttempts(calls, a0, i + 1) == FailedAttempts(calls, a0, i) + AttemptEffects(calls(i), a0 + i + 1, false)
  {
    assert FailedAttempt(calls, a0)(i) == AttemptEffects(calls(i), a0 + i + 1, false);
  }

  /** Whether an attempt is its transaction's last chance does not matter once the closure has returned. */
  lemma SuccessIgnoresLatest(c: Called, attempt: int, latest: bool)
    requires Succeeds(c)
    ensures AttemptEffects(c, attempt, latest) == AttemptEffects(c, attempt, false)
  {
  }

  /** Attempt `i` of `transaction` is its first successful call. */
  lemma CommitsAt(calls: nat -> Called, a0: int, attempts: int, i: nat)
    requires i < Budget(attempts)
    requires forall p :: 0 <= p < i ==> !Succeeds(calls(p))
    requires Succeeds(calls(i))
    ensures AttemptsMade(calls, attempts) == i + 1
    ensures TransactionEffects(calls, a0, attempts) == FailedAttempts(calls, a0, i) + AttemptEffects(calls(i), a0 + i + 1, false)
    ensures TransactionResult(calls, attempts) == calls(i).result
  {
    var n := Budget(attempts);
    var j := FirstSuccess(calls, n);
    assert j == i;
  }

  /** Attempt `i` of `transaction` is the last permitted one, and every call up to it threw. */
  lemma ExhaustedAt(calls: nat -> Called, a0: int, attempts: int, i: nat)
    requires i + 1 == Budget(attempts)
    requires forall p :: 0 <= p <= i ==> !Succeeds(calls(p))
    ensures AttemptsMade(calls, attempts) == i + 1
    ensures TransactionEffects(calls, a0, attempts) == FailedAttempts(calls, a0, i) + AttemptEffects(calls(i), a0 + i + 1, true)
    ensures TransactionResult(calls, attempts) == calls(i).result
  {
    var n := Budget(attempts);
    var j := FirstSuccess(calls, n);
    assert j == n;
  }

  /**
   * The database primitives of `transaction`: rolled-back cycles, then one
   * begin/commit pair when a call succeeds, or nothing more when every
   * permitted call threw.
   */
  lemma TransactionDbOps(calls: nat -> Called, a0: int, attempts: int)
    ensures Committed(calls, attempts) ==>
      DbOps(TransactionEffects(calls, a0, attempts)) == RolledBackCycles(AttemptsMade(calls, attempts) - 1) + [DbBegin, DbCommit]
    ensures !Committed(calls, attempts) ==>
      DbOps(TransactionEffects(calls, a0, attempts)) == RolledBackCycles(AttemptsMade(calls, attempts))
  {
    hide Attempted;
    hide DbOps;
    hide RolledBackCycles;
    LastAttempt(calls, attempts);
    AttemptedDbOps(calls, a0, FailedBefore(calls, attempts), !Committed(calls, attempts));
  }

  /** Every attempt of `transaction` dispatches one begin event, numbered a0+1 onwards. */
  lemma TransactionBeginEvents(calls: nat -> Called, a0: int, attempts: int, t: Timing)
    ensures Attempts(TransactionEffects(calls, a0, attempts), t, BeginTransaction) ==
      Range(a0 + 1, a0 + 1 + AttemptsMade(calls, attempts))
  {
    hide Attempted;
    hide Attempts;
    hide Range;
    AttemptedBeginEvents(calls, a0, FailedBefore(calls, attempts), !Committed(calls, attempts), t);
  }

  /** Every attempt but the last dispatches one `every_rollback` event, numbered a0+1 onwards. */
  lemma TransactionEveryRollbackEvents(calls: nat -> Called, a0: int, attempts: int, t: Timing)
    ensures Attempts(TransactionEffects(calls, a0, attempts), t, EveryRollback) ==
      Range(a0 + 1, a0 + AttemptsMade(calls, attempts))
  {
    hide Attempted;
    hide Attempts;
    hide Range;
    LastAttempt(calls, attempts);
    AttemptedEveryRollbackEvents(calls, a0, FailedBefore(calls, attempts), !Committed(calls, attempts), t);
  }

  /** A `commit` event is dispatched once, on the successful attempt, and only when `transaction` commits. */
  lemma TransactionCommitEvents(calls: nat -> Called, a0: int, attempts: int, t: Timing)
    ensures Committed(calls, attempts) ==>
      Attempts(TransactionEffects(calls, a0, attempts), t, Commit) == [a0 + AttemptsMade(calls, attempts)]
    ensures !Committed(calls, attempts) ==>
      Attempts(TransactionEffects(calls, a0, attempts), t, Commit) == []
  {
    hide Attempted;
    hide Attempts;
    hide Range;
    LastAttempt(calls, attempts);
    AttemptedCloseEvent(calls, a0, FailedBefore(calls, attempts), !Committed(calls, attempts), t, Commit);
  }

  /** The final `rollback` event is dispatched once, on the last permitted attempt, and only when every call threw. */
  lemma TransactionRollbackEvents(calls: nat -> Called, a0: int, attempts: int, t: Timing)
    ensures Committed(calls, attempts) ==>
      Attempts(TransactionEffects(calls, a0, attempts), t, Rollback) == []
    ensures !Committed(calls, attempts) ==>
      Attempts(TransactionEffects(calls, a0, attempts), t, Rollback) == [a0 + Budget(attempts)]
  {
    hide Attempted;
    hide Attempts;
    hide Range;
    LastAttempt(calls, attempts);
    AttemptedCloseEvent(calls, a0, FailedBefore(calls, attempts), !Committed(calls, attempts), t, Rollback);
  }

  // ---------------------------------------------------------------------------
  // The helper's static state and operations
  // ---------------------------------------------------------------------------

  class WithDBTransactions {
    var middlewareStarted: bool
    var currentAttempt: int
    var closures: Hooks
    /** What the helper has done to the outside world so far. */
    var trace: seq<Effect>

    constructor ()
      ensures !middlewareStarted && currentAttempt == 0 && closures == map[] && trace == []
    {
      middlewareStarted := false;
      currentAttempt := 0;
      closures := map[];
      trace := [];
    }

    /** `isMiddlewareStarted()`: whether registrations are accepted rather than refused with `MiddlewareIsNotPassed`. */
    function IsMiddlewareStarted(): (r: bool)
      reads this
      ensures !r ==> forall name, arguments :: Register(middlewareStarted, closures, name, arguments) == Failure(MiddlewareIsNotPassed)
      ensures r ==> forall name, arguments :: Register(middlewareStarted, closures, name, arguments) != Failure(MiddlewareIsNotPassed)
    {
      middlewareStarted
    }

    method StartMiddleware()
      modifies this`middlewareStarted
      ensures IsMiddlewareStarted()
    {
      middlewareStarted := true;
    }

    method StopMiddleware()
      modifies this`middlewareStarted
      ensures !IsMiddlewareStarted()
    {
      middlewareStarted := false;
    }

    /** `__callStatic($name, $arguments)`: a hook registration such as `afterCommit($f)`; `Some(e)` means it threw `e`. */
    method CallStatic(name: string, arguments: seq<Arg>) returns (thrown: Option<Error>)
      modifies this`closures
      ensures thrown.Some? ==>
        Register(middlewareStarted, old(closures), name, arguments) == Failure(thrown.value) &&
        closures == old(closures)
      ensures thrown.None? ==>
        Register(middlewareStarted, old(closures), name, arguments) == Success(closures)
    {
      if !IsMiddlewareStarted() {
        return Some(MiddlewareIsNotPassed);
      }
      var closure := First(arguments);
      if !closure.Callable? {
        return Some(InvalidCallableParameter);
      }
      var key := Snake(name);
      closures := closures[key := Registered(closures, key) + [closure.id]];
      return None;
    }

    /** `event($key, $request)`: dispatch the event class configured under `EventKey(timing, phase)`. */
    method Event(timing: Timing, phase: Phase, request: Option<Request>)
      modifies this`trace
      ensures trace == old(trace) + [Dispatch(timing, phase, request, currentAttempt)]
    {
      trace := trace + [Fire(LifecycleEvent(timing, phase, request, currentAttempt))];
    }

    /** `execute($name)`: run the hooks registered under `name`, in order; the hook map is left alone. */
    method Execute(timing: Timing, phase: Phase)
      modifies this`trace
      ensures trace == old(trace) + HookRuns(timing, phase, HooksFor(closures, timing, phase))
    {
      var hooks := Registered(closures, HookName(timing, phase));
      for i := 0 to |hooks|
        invariant trace == old(trace) + HookRuns(timing, phase, hooks[..i])
      {
        assert hooks[..i + 1][..i] == hooks[..i];
        trace := trace + [RunHook(timing, phase, hooks[i])];
      }
      assert hooks[..|hooks|] == hooks;
    }

    method BeginTransaction(request: Option<Request> := None)
      modifies this`closures, this`currentAttempt, this`trace
      ensures closures == map[]
      ensures currentAttempt == old(currentAttempt) + 1
      ensures trace == old(trace) + BeginEffects(request, currentAttempt)
    {
      closures := map[];
      currentAttempt := currentAttempt + 1;
      Event(Before, Phase.BeginTransaction, request);
      trace := trace + [DbBegin];
      Event(After, Phase.BeginTransaction, request);
    }

    method Commit(request: Option<Request> := None)
      modifies this`trace
      ensures trace == old(trace) +
        PhaseEffects(HooksFor(closures, Before, Phase.Commit), HooksFor(closures, After, Phase.Commit),
                     Phase.Commit, DbCommit, request, currentAttempt)
    {
      Execute(Before, Phase.Commit);
      Event(Before, Phase.Commit, request);
      trace := trace + [DbCommit];
      Execute(After, Phase.Commit);
      Event(After, Phase.Commit, request);
    }

    method Rollback(request: Option<Request> := None, latest: bool := true)
      modifies this`trace
      ensures var p := RollbackPhase(latest);
        trace == old(trace) +
        PhaseEffects(HooksFor(closures, Before, p), HooksFor(closures, After, p), p, DbRollback, request, currentAttempt)
    {
      var phase := RollbackPhase(latest);
      Execute(Before, phase);
      Event(Before, phase, request);
      trace := trace + [DbRollback];
      Execute(After, phase);
      Event(After, phase, request);
    }

    /** `$closure()`: the registrations it makes, then its return value or exception. */
    method RunClosure(run: ClosureRun) returns (result: Result<int, Error>)
      modifies this`closures
      ensures Called(closures, result) == CallClosure(middlewareStarted, old(closures), run)
    {
      var i := 0;
      while i < |run.calls|
        invariant 0 <= i <= |run.calls|
        invariant RunCalls(middlewareStarted, old(closures), run.calls) ==
          RunCalls(middlewareStarted, closures, run.calls[i..])
      {
        assert run.calls[i..][1..] == run.calls[i + 1..];
        var thrown := CallStatic(run.calls[i].name, run.calls[i].arguments);
        if thrown.Some? {
          return Failure(thrown.value);
        }
        i := i + 1;
      }
      match run.outcome {
        case Returns(v) => result := Success(v);
        case Throws(c) => result := Failure(Thrown(c));
      }
    }

    /**
     * One pass of the do/while body of `transaction`: begin, call the
     * closure, then commit, or, when it throws, roll back (finally when
     * `latest`).
     */
    method Attempt(runs: nat -> ClosureRun, i: nat, latest: bool, ghost calls: nat -> Called) returns (result: Result<int, Error>)
      requires forall j: nat {:trigger runs(j)} :: calls(j) == CallClosure(true, map[], runs(j))
      requires middlewareStarted
      modifies this`closures, this`currentAttempt, this`trace
      ensures currentAttempt == old(currentAttempt) + 1
      ensures closures == calls(i).hooks && result == calls(i).result
      ensures trace == old(trace) + AttemptEffects(calls(i), currentAttempt, latest)
    {
      hide AttemptEffects;
      hide BeginEffects;
      hide PhaseEffects;
      hide CallClosure;
      BeginTransaction(None);
      ghost var begin := BeginEffects(None, currentAttempt);
      result := RunClosure(runs(i));
      var p := if result.Success? then Phase.Commit else RollbackPhase(latest);
      ghost var close := PhaseEffects(HooksFor(closures, Before, p), HooksFor(closures, After, p), p,
                                      if result.Success? then DbCommit else DbRollback, None, currentAttempt);
      if result.Success? {
        Commit(None);
      } else {
        Rollback(None, latest);
      }
      AttemptPieces(calls(i), currentAttempt, latest);
      assert old(trace) + begin + close == old(trace) + (begin + close);
    }

    /**
     * `transaction($closure, $attempts)`: call i of the closure behaves as
     * `runs(i)`, and `calls(i)` is what that call leaves behind. Retries on
     * exception; the do/while guard is reached only when attempts remain, so
     * the trailing `return null` cannot be reached.
     */
    method Transaction(runs: nat -> ClosureRun, attempts: int := 1, ghost calls: nat -> Called) returns (r: Result<int, Error>)
      requires forall i: nat {:trigger runs(i)} :: calls(i) == CallClosure(true, map[], runs(i))
      modifies this`middlewareStarted, this`closures, this`currentAttempt, this`trace
      ensures middlewareStarted
      ensures currentAttempt == old(currentAttempt) + AttemptsMade(calls, attempts)
      ensures trace == old(trace) + TransactionEffects(calls, old(currentAttempt), attempts)
      ensures r == TransactionResult(calls, attempts)
      ensures closures == calls(FailedBefore(calls, attempts)).hooks
    {
      hide AttemptEffects;
      hide TransactionEffects;
      hide TransactionResult;
      hide CallClosure;
      StartMiddleware();
      ghost var a0 := currentAttempt;
      ghost var n := Budget(attempts);
      var remaining := attempts;
      var i: nat := 0;
      while true
        invariant middlewareStarted
        invariant remaining == attempts - i && i < n
        invariant forall p :: 0 <= p < i ==> !Succeeds(calls(p))
        invariant currentAttempt == a0 + i
        invariant trace == old(trace) + FailedAttempts(calls, a0, i)
        decreases n - i
      {
        var latest := remaining - 1 <= 0;
        var result := Attempt(runs, i, latest, calls);
        ghost var done := FailedAttempts(calls, a0, i);
        ghost var last := AttemptEffects(calls(i), a0 + i + 1, latest);
        assert old(trace) + done + last == old(trace) + (done + last);
        if result.Success? {
          CommitsAt(calls, a0, attempts, i);
          SuccessIgnoresLatest(calls(i), a0 + i + 1, latest);
          return result;
        }
        if latest {
          ExhaustedAt(calls, a0, attempts, i);
          return result;
        }
        FailedAttemptsStep(calls, a0, i);
        remaining := remaining - 1;
        // The do/while guard `--$attempts > 0` holds whenever a pass ends without
        // returning or rethrowing, so the trailing `return null` cannot be reached.
        assert remaining > 0;
        i := i + 1;
      }
    }
  }
}
