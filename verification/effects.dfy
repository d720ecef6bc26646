/**
 * The observable effects of the transaction helper and of the middleware.
 *
 * The database facade, the event bus and user callables are not modelled; each
 * call to them becomes one entry of an effect trace instead.
 */
module Effects {
  import opened Wrappers

  /** The parts of an HTTP request the core looks at. */
  datatype Request = Request(httpMethod: string)

  /** When, relative to a database primitive, an event is dispatched or a hook runs. */
  datatype Timing = Before | After

  /** The lifecycle points that have events; the last three also have hooks. */
  datatype Phase = BeginTransaction | Commit | Rollback | EveryRollback

  /**
   * A dispatched lifecycle event: which of the eight event classes it is (by
   * timing and phase) and the two fields every event class carries (the
   * request, possibly null, and the attempt number at the time of dispatch).
   */
  datatype LifecycleEvent = LifecycleEvent(timing: Timing, phase: Phase, request: Option<Request>, currentAttempt: int)

  datatype Effect =
    | DbBegin                                  // DB::beginTransaction()
    | DbCommit                                 // DB::commit()
    | DbRollback                               // DB::rollBack()
    | RunHook(timing: Timing, phase: Phase, callable: nat)  // one registered hook invoked
    | Fire(event: LifecycleEvent)              // event(new $class(...))
  {
    predicate IsDbOp() { DbBegin? || DbCommit? || DbRollback? }
  }

  /** The database primitives of a trace, in order. */
  function DbOps(t: seq<Effect>): seq<Effect>
  {
    if t == [] then []
    else DbOps(t[..|t| - 1]) + (if t[|t| - 1].IsDbOp() then [t[|t| - 1]] else [])
  }

  lemma {:induction false} DbOpsAppend(a: seq<Effect>, b: seq<Effect>)
    ensures DbOps(a + b) == DbOps(a) + DbOps(b)
  {
    if b == [] {
      assert a + b == a;
    } else {
      var b' := b[..|b| - 1];
      assert (a + b)[..|a + b| - 1] == a + b';
      DbOpsAppend(a, b');
    }
  }

  /** The attempt numbers carried by the events of class (`timing`, `phase`), in order. */
  function Attempts(t: seq<Effect>, timing: Timing, phase: Phase): seq<int>
  {
    if t == [] then []
    else
      var e := t[|t| - 1];
      Attempts(t[..|t| - 1], timing, phase) +
        (if e.Fire? && e.event.timing == timing && e.event.phase == phase then [e.event.currentAttempt] else [])
  }

  lemma {:induction false} AttemptsAppend(a: seq<Effect>, b: seq<Effect>, timing: Timing, phase: Phase)
    ensures Attempts(a + b, timing, phase) == Attempts(a, timing, phase) + Attempts(b, timing, phase)
  {
    if b == [] {
      assert a + b == a;
    } else {
      var b' := b[..|b| - 1];
      assert (a + b)[..|a + b| - 1] == a + b';
      AttemptsAppend(a, b', timing, phase);
    }
  }

  /** The events of five consecutive pieces of a trace. */
  lemma AttemptsOfFive(a: seq<Effect>, b: seq<Effect>, c: seq<Effect>, d: seq<Effect>, e: seq<Effect>, timing: Timing, phase: Phase)
    ensures Attempts(a + b + c + d + e, timing, phase) ==
      Attempts(a, timing, phase) + Attempts(b, timing, phase) + Attempts(c, timing, phase)
      + Attempts(d, timing, phase) + Attempts(e, timing, phase)
  {
    AttemptsAppend(a, b, timing, phase);
    AttemptsAppend(a + b, c, timing, phase);
    AttemptsAppend(a + b + c, d, timing, phase);
    AttemptsAppend(a + b + c + d, e, timing, phase);
  }

  /** How often `e` occurs in `t`. */
  function Count(t: seq<Effect>, e: Effect): nat
  {
    if t == [] then 0
    else Count(t[..|t| - 1], e) + (if t[|t| - 1] == e then 1 else 0)
  }

  lemma {:induction false} CountAppend(a: seq<Effect>, b: seq<Effect>, e: Effect)
    ensures Count(a + b, e) == Count(a, e) + Count(b, e)
  {
    if b == [] {
      assert a + b == a;
    } else {
      var b' := b[..|b| - 1];
      assert (a + b)[..|a + b| - 1] == a + b';
      CountAppend(a, b', e);
    }
  }

  /** `k` transactions, each begun and then rolled back. */
  function RolledBackCycles(k: nat): seq<Effect>
  {
    if k == 0 then [] else RolledBackCycles(k - 1) + [DbBegin, DbRollback]
  }

  /**
   * Rolled-back cycles alternate strictly: every even position is a begin and
   * every odd position the rollback closing it.
   */
  lemma {:induction false} RolledBackCyclesShape(k: nat)
    ensures |RolledBackCycles(k)| == 2 * k
    ensures forall i :: 0 <= i < 2 * k ==>
      RolledBackCycles(k)[i] == if i % 2 == 0 then DbBegin else DbRollback
  {
    if k > 0 {
      RolledBackCyclesShape(k - 1);
      var r := RolledBackCycles(k);
      forall i | 0 <= i < 2 * k
        ensures r[i] == if i % 2 == 0 then DbBegin else DbRollback
      {
        if i == 2 * k - 2 {
          assert i % 2 == 0;
        } else if i == 2 * k - 1 {
          assert i % 2 == 1;
        }
      }
    }
  }

  /** `k` rolled-back cycles hold `k` begins, `k` rollbacks, no commit and nothing but database primitives. */
  lemma {:induction false} RolledBackCyclesCounts(k: nat)
    ensures Count(RolledBackCycles(k), DbBegin) == k
    ensures Count(RolledBackCycles(k), DbRollback) == k
    ensures Count(RolledBackCycles(k), DbCommit) == 0
    ensures DbOps(RolledBackCycles(k)) == RolledBackCycles(k)
  {
    if k > 0 {
      RolledBackCyclesCounts(k - 1);
      var p := RolledBackCycles(k - 1);
      var c := [DbBegin, DbRollback];
      CountAppend(p, c, DbBegin);
      CountAppend(p, c, DbRollback);
      CountAppend(p, c, DbCommit);
      DbOpsAppend(p, c);
      assert c[..1] == [DbBegin];
      assert [DbBegin][..0] == [];
    }
  }

  /**
   * Begins and closes alternate: a begin at every even position, a close of
   * the transaction just begun at every odd one, a rollback except for a
   * commit as the very last primitive.
   */
  predicate Alternates(t: seq<Effect>)
  {
    forall i :: 0 <= i < |t| ==>
      (t[i] == DbBegin <==> i % 2 == 0) &&
      (i % 2 == 1 ==> t[i] == DbRollback || (t[i] == DbCommit && i == |t| - 1))
  }

  /** Rolled-back cycles followed by nothing, an open begin, or a committed begin alternate. */
  lemma CyclesThenAlternate(k: nat, tail: seq<Effect>)
    requires tail == [] || tail == [DbBegin] || tail == [DbBegin, DbCommit]
    ensures Alternates(RolledBackCycles(k) + tail)
  {
    RolledBackCyclesShape(k);
    var c := RolledBackCycles(k);
    var t := c + tail;
    forall i | 0 <= i < |t|
      ensures (t[i] == DbBegin <==> i % 2 == 0) &&
        (i % 2 == 1 ==> t[i] == DbRollback || (t[i] == DbCommit && i == |t| - 1))
    {
      if i < 2 * k {
        assert t[i] == c[i];
      } else if i == 2 * k {
        assert t[i] == DbBegin && i % 2 == 0;
      } else {
        assert i == 2 * k + 1 && t[i] == DbCommit && i % 2 == 1;
      }
    }
  }

  /** The integers lo, lo + 1, ..., hi - 1. */
  function Range(lo: int, hi: int): seq<int>
    decreases hi - lo
  {
    if hi <= lo then [] else Range(lo, hi - 1) + [hi - 1]
  }

  /** The traces `f(0)`, `f(1)`, ..., `f(k - 1)`, one after another. */
  function Concat(f: nat -> seq<Effect>, k: nat): seq<Effect>
  {
    if k == 0 then [] else Concat(f, k - 1) + f(k - 1)
  }

  /** Pieces that each begin and roll back once make up rolled-back cycles. */
  lemma {:induction false} ConcatDbOps(f: nat -> seq<Effect>, k: nat)
    requires forall i :: 0 <= i < k ==> DbOps(f(i)) == [DbBegin, DbRollback]
    ensures DbOps(Concat(f, k)) == RolledBackCycles(k)
  {
    if k > 0 {
      ConcatDbOps(f, k - 1);
      DbOpsAppend(Concat(f, k - 1), f(k - 1));
    }
  }

  lemma {:induction false} ConcatEventsHit(f: nat -> seq<Effect>, k: nat, timing: Timing, phase: Phase, lo: int)
    requires forall i :: 0 <= i < k ==> Attempts(f(i), timing, phase) == [lo + i]
    ensures Attempts(Concat(f, k), timing, phase) == Range(lo, lo + k)
  {
    if k > 0 {
      var prefix := Concat(f, k - 1);
      assert Concat(f, k) == prefix + f(k - 1);
      ConcatEventsHit(f, k - 1, timing, phase, lo);
      AttemptsAppend(prefix, f(k - 1), timing, phase);
      assert Attempts(f(k - 1), timing, phase) == [lo + (k - 1)];
      assert Range(lo, lo + k) == Range(lo, lo + (k - 1)) + [lo + (k - 1)];
    }
  }

  lemma {:induction false} ConcatEventsNone(f: nat -> seq<Effect>, k: nat, timing: Timing, phase: Phase)
    requires forall i :: 0 <= i < k ==> Attempts(f(i), timing, phase) == []
    ensures Attempts(Concat(f, k), timing, phase) == []
  {
    if k > 0 {
      ConcatEventsNone(f, k - 1, timing, phase);
      AttemptsAppend(Concat(f, k - 1), f(k - 1), timing, phase);
    }
  }

  /**
   * How many passes a retry loop of the form `do { ... } while (--$attempts > 0)`
   * may make: the body runs at least once, so a budget below 1 counts as 1.
   */
  function Budget(attempts: int): (n: nat)
    ensures n >= 1 && n >= attempts
    ensures attempts >= 1 ==> n == attempts
    ensures attempts < 1 ==> n == 1
  {
    if attempts < 1 then 1 else attempts
  }
}
