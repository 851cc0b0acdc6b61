/**
 * The UnitOfWorkListener callback protocol, seen from one listener registered
 * with one unit of work: which sequences of `onPrepareCommit`, `afterCommit` and
 * `onRollback` calls the interface's documentation allows. Aggregate roots are
 * opaque (type parameter A).
 */
module UnitOfWorkListener {
  import opened Results

  /**
   * One callback delivered to the listener. For `onPrepareCommit`, `threw`
   * records whether the prepare phase was vetoed (a listener's prepare callback
   * raised an exception). For `afterCommit`, `threw` records whether the
   * after-commit notification of the unit of work raised an exception, in this
   * listener or in another one: either way the commit counts as failed and the
   * unit of work may go on to call `onRollback`.
   */
  datatype Callback<A> =
    | OnPrepareCommit(aggregateRoots: set<A>, threw: bool)
    | AfterCommit(threw: bool)
    | OnRollback

  /** Where a listener stands in the lifecycle of its unit of work. */
  datatype Phase =
    | Registered         // nothing delivered yet
    | Prepared           // prepare phase passed
    | PrepareFailed      // the listener vetoed the prepare phase
    | Committed          // commit done and after-commit handled
    | PostCommitFailed   // commit done but the after-commit notification raised an exception
    | RolledBack

  /**
   * The transitions the documentation allows:
   * - `onPrepareCommit` comes first, before aggregates are committed;
   * - `afterCommit` follows a prepare phase that did not fail (a failing prepare
   *   prevents dispatching);
   * - `onRollback` ends a rollback, may end a failed commit, and may follow an
   *   `afterCommit` whose notification round raised an exception.
   * Every allowed callback brings the listener closer to the end of the lifecycle.
   */
  function Step<A>(p: Phase, c: Callback<A>): (r: Option<Phase>)
    ensures c.OnPrepareCommit? && r.Some? ==> p.Registered?
    ensures c.AfterCommit? && r.Some? ==> p.Prepared?
    ensures c.OnRollback? ==> (r.Some? <==> !p.Committed? && !p.RolledBack?)
    ensures r.Some? ==> Budget(r.value) < Budget(p)
  {
    match c
    case OnPrepareCommit(_, threw) =>
      if p.Registered? then Some(if threw then PrepareFailed else Prepared) else None
    case AfterCommit(threw) =>
      if p.Prepared? then Some(if threw then PostCommitFailed else Committed) else None
    case OnRollback =>
      if p.Registered? || p.Prepared? || p.PrepareFailed? || p.PostCommitFailed? then Some(RolledBack)
      else None
  }

  /** Delivers `trace` in order starting in phase `p`; None once a callback is not allowed. */
  function Run<A>(p: Phase, trace: seq<Callback<A>>): Option<Phase>
    decreases |trace|
  {
    if |trace| == 0 then Some(p)
    else match Step(p, trace[0])
      case None => None
      case Some(q) => Run(q, trace[1..])
  }

  /** The callbacks a listener may have received so far; never more than three. */
  predicate ValidTrace<A>(trace: seq<Callback<A>>)
    ensures ValidTrace(trace) ==> |trace| <= 3
  {
    var ok := Run(Registered, trace).Some?;
    if ok then RunWithinBudget(Registered, trace); ok else ok
  }

  /** How many more callbacks a listener in phase `p` can still receive. */
  function Budget(p: Phase): nat
  {
    match p
    case Registered => 3
    case Prepared => 2
    case PrepareFailed => 1
    case PostCommitFailed => 1
    case Committed => 0
    case RolledBack => 0
  }

  /**
   * An independent description of the same traces, listing the lifecycle shapes
   * outright (each together with its prefixes):
   *   [onRollback]                                       rollback
   *   [onPrepareCommit(failed), onRollback]              vetoed commit
   *   [onPrepareCommit, onRollback]                      commit failed later
   *   [onPrepareCommit, afterCommit]                     commit
   *   [onPrepareCommit, afterCommit(failed), onRollback] commit whose after-commit failed
   * The rollback after a failed commit is optional: the unit of work "may choose" it.
   */
  predicate IsLifecyclePrefix<A>(t: seq<Callback<A>>)
  {
    || |t| == 0
    || (|t| == 1 && (t[0].OnRollback? || t[0].OnPrepareCommit?))
    || (|t| == 2 && t[0].OnPrepareCommit? && t[1].OnRollback?)
    || (|t| == 2 && t[0].OnPrepareCommit? && !t[0].threw && t[1].AfterCommit?)
    || (|t| == 3 && t[0].OnPrepareCommit? && !t[0].threw
                 && t[1].AfterCommit? && t[1].threw && t[2].OnRollback?)
  }

  /** No phase lets a listener receive more callbacks than its budget. */
  lemma {:induction false} RunWithinBudget<A>(p: Phase, t: seq<Callback<A>>)
    requires Run(p, t).Some?
    ensures |t| <= Budget(p)
    decreases |t|
  {
    if |t| > 0 {
      var q := Step(p, t[0]).value;
      RunWithinBudget(q, t[1..]);
    }
  }

  /** The step machine and the list of lifecycle shapes describe the same traces. */
  lemma ValidTraceIffLifecycle<A>(t: seq<Callback<A>>)
    ensures ValidTrace(t) <==> IsLifecyclePrefix(t)
  {
    if ValidTrace(t) {
      RunWithinBudget(Registered, t);
    }
    if 0 < |t| <= 3 {
      var s0 := Step(Registered, t[0]);
      if s0.None? {
        assert Run(Registered, t).None?;
      } else if |t| == 1 {
        assert Run(Registered, t) == Run(s0.value, t[1..]);
        assert |t[1..]| == 0;
      } else {
        assert t[1..][0] == t[1];
        var s1 := Step(s0.value, t[1]);
        if s1.None? {
          assert Run(s0.value, t[1..]).None?;
        } else {
          assert Run(s0.value, t[1..]) == Run(s1.value, t[1..][1..]);
          if |t| == 2 {
            assert |t[1..][1..]| == 0;
          } else {
            var rest := t[1..][1..];
            assert rest == [t[2]] && rest[0] == t[2];
            assert Run(s1.value, rest).Some? <==> Step(s1.value, t[2]).Some?;
          }
        }
      }
    }
  }

  /** Every prefix of a valid trace is valid: a listener's history only grows. */
  lemma {:induction false} ValidTracePrefixClosed<A>(p: Phase, t: seq<Callback<A>>, u: seq<Callback<A>>)
    requires Run(p, t + u).Some?
    ensures Run(p, t).Some?
    decreases |t|
  {
    if |t| > 0 {
      assert (t + u)[0] == t[0];
      assert (t + u)[1..] == t[1..] + u;
      ValidTracePrefixClosed(Step(p, t[0]).value, t[1..], u);
    }
  }

  /**
   * `afterCommit` is only ever the second callback, right after an
   * `onPrepareCommit` that did not fail.
   */
  lemma AfterCommitFollowsSuccessfulPrepare<A>(t: seq<Callback<A>>, j: nat)
    requires ValidTrace(t) && j < |t| && t[j].AfterCommit?
    ensures j == 1 && t[0].OnPrepareCommit? && !t[0].threw
  {
    ValidTraceIffLifecycle(t);
  }

  /** A failing prepare phase prevents dispatching: no `afterCommit` after it. */
  lemma FailedPrepareBlocksAfterCommit<A>(t: seq<Callback<A>>, i: nat, j: nat)
    requires ValidTrace(t) && i < j < |t|
    requires t[i].OnPrepareCommit? && t[i].threw
    ensures !t[j].AfterCommit?
  {
    ValidTraceIffLifecycle(t);
  }

  /** `onRollback` directly after `afterCommit` only when that after-commit notification raised an exception. */
  lemma RollbackAfterCommitOnlyIfItThrew<A>(t: seq<Callback<A>>, j: nat)
    requires ValidTrace(t) && 0 < j < |t|
    requires t[j].OnRollback? && t[j - 1].AfterCommit?
    ensures t[j - 1].threw
  {
    ValidTraceIffLifecycle(t);
  }

  /** After an after-commit notification that raised nothing, the listener receives no further callback. */
  lemma SuccessfulAfterCommitIsFinal<A>(t: seq<Callback<A>>, j: nat)
    requires ValidTrace(t) && j < |t|
    requires t[j].AfterCommit? && !t[j].threw
    ensures j == |t| - 1
  {
    ValidTraceIffLifecycle(t);
  }

  /** Each kind of callback reaches a listener at most once per unit of work. */
  lemma EachCallbackAtMostOnce<A>(t: seq<Callback<A>>, i: nat, j: nat)
    requires ValidTrace(t) && i < j < |t|
    ensures !(t[i].OnPrepareCommit? && t[j].OnPrepareCommit?)
    ensures !(t[i].AfterCommit? && t[j].AfterCommit?)
    ensures !(t[i].OnRollback? && t[j].OnRollback?)
  {
    ValidTraceIffLifecycle(t);
  }

  /**
   * `onRollback` is allowed both when the unit of work is rolled back and when
   * committing it failed: after nothing, after a vetoed or a passed prepare, and
   * after an `afterCommit` whose notification round raised an exception.
   */
  lemma RollbackAllowedOnRollbackAndFailedCommit<A>(roots: set<A>)
    ensures ValidTrace<A>([OnRollback])
    ensures ValidTrace([OnPrepareCommit(roots, true), OnRollback])
    ensures ValidTrace([OnPrepareCommit(roots, false), OnRollback])
    ensures ValidTrace([OnPrepareCommit(roots, false), AfterCommit(true), OnRollback])
    ensures !ValidTrace([OnPrepareCommit(roots, false), AfterCommit(false), OnRollback])
  {
    var good := [OnPrepareCommit(roots, false), AfterCommit(true), OnRollback];
    var bad := [OnPrepareCommit(roots, false), AfterCommit(false), OnRollback];
    ValidTraceIffLifecycle(good);
    ValidTraceIffLifecycle(bad);
  }
}
