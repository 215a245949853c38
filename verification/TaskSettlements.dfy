/** What a worker does to its job's row once its handler has returned, told or not told to stop. */
module TaskSettlements {
  import opened TaskLeases
  import opened Wrappers

  // ---- What a worker settles by ----

  /** What the handler had been told when it returned, and how it returned. A first lease attempt that
      errored (not leased) counts as an error nobody told the handler to stop for. steps counts the steps
      the settlement has taken, and token is what the worker's claim object held at the first of them. */
  datatype Verdict = Verdict(cause: Cause, outcome: Outcome, leased: bool, steps: nat, token: Claim)

  function Heard(s: State, e: Event, w: Worker, last: Option<Verdict>): Option<Verdict> {
    if !e.By? || e.worker != w || w !in s.workers then last
    else
      var p := s.workers[w];
      match e.step
      case FirstLease(ok) => if ok then None else Some(Verdict(NoCause, OtherError, false, 0, 0))
      case Decide => if p.Returned? then Some(Verdict(p.cause, p.outcome, true, 0, 0)) else None
      case Settle(ok) =>
        if last.None? then None
        else
          var v := last.value;
          Some(v.(steps := v.steps + 1, token := if v.steps == 0
              && p.claim in s.tokens then s.tokens[p.claim] else v.token))
      case _ => last
  }

  /** The verdict w last came to in a run. */
  function VerdictOf(s: State, run: seq<Event>, w: Worker): Option<Verdict> {
    if run == [] then None
    else
      var before, e := run[..|run| - 1], run[|run| - 1];
      match After(s, before)
      case None => None
      case Some(mid) => Heard(mid, e, w, VerdictOf(s, before, w))
  }

  // ---- What it does to the row ----

  /** One step of a settlement, answered by the store or not: the row it leaves and whether it is the last. */
  predicate Settles(v: Verdict, row: Row, ok: bool, row': Row, over: bool) {
    if v.outcome == Succeeded then over && row' == if ok then row.(status := Completed) else row
    else match v.cause
      case JobCancelled => over && row' == row
      case LeaseLost => over && row' == row
      case PoolStopped =>
        if v.steps == 0 then !over && row' == row
        else over && row' == if ok && Holds(row, v.token) then row.(lease := None) else row
      case NoCause =>
        if v.outcome == PermanentError || v.steps > 0 then over && row' == if ok then row.(status := Failed) else row
        else if ok && row.retries < row.maxRetries then
          over && row' == row.(status := Pending, claim := 0, lease := None, retries := row.retries + 1)
        else !over && row' == row
  }

  /** A worker about to take a step of its settlement does so by its verdict. */
  predicate Bears(p: Phase, v: Verdict)
    requires p.Settling?
  {
    && p.leased == v.leased
    && (v.steps == 0 ==> p.action == ActionFor(v.cause, v.outcome))
    && (v.steps > 0 ==> match ActionFor(v.cause, v.outcome)
          case Release => p.action == ReleaseUnder(v.token)
          case Retry => p.action == Fail
          case _ => false)
  }

  predicate Borne(s: State, w: Worker, verdict: Option<Verdict>) {
    w in s.workers && s.workers[w].Settling? ==> verdict.Some? && Bears(s.workers[w], verdict.value)
  }

  ghost predicate AllBorne(s0: State, run: seq<Event>, s: State) {
    forall w :: Borne(s, w, VerdictOf(s0, run, w))
  }

  lemma VerdictNext(s: State, run: seq<Event>, e: Event, mid: State, w: Worker)
    requires After(s, run) == Some(mid)
    ensures VerdictOf(s, run + [e], w) == Heard(mid, e, w, VerdictOf(s, run, w))
  {
    assert (run + [e])[..|run + [e]| - 1] == run;
  }

  lemma SettlerBears(s: State, w: Worker, ok: bool, s': State, verdict: Option<Verdict>)
    requires Borne(s, w, verdict) && TokensOwned(s) && WorkerApply(s, w, Settle(ok)) == Some(s')
    ensures Borne(s', w, Heard(s, By(w, Settle(ok)), w, verdict))
    ensures verdict.Some? && Settles(verdict.value, s.row, ok, s'.row, s'.workers[w].Settled?)
    ensures s'.workers[w].Settled? || s'.workers[w].Settling?
  {
    assert Owns(s.workers[w]);
  }

  lemma MoverBears(s: State, w: Worker, step: WorkerStep, s': State, verdict: Option<Verdict>)
    requires Borne(s, w, verdict) && TokensOwned(s) && WorkerApply(s, w, step) == Some(s')
    ensures Borne(s', w, Heard(s, By(w, step), w, verdict))
  {
    if step.Settle? {
      SettlerBears(s, w, step.ok, s', verdict);
    }
  }

  lemma StepBears(s: State, e: Event, s': State, w: Worker, verdict: Option<Verdict>)
    requires Borne(s, w, verdict) && TokensOwned(s) && Apply(s, e) == Some(s')
    ensures Borne(s', w, Heard(s, e, w, verdict))
  {
    match e
    case Env(step) =>
    case For(c, step) => WatchersMoveNobody(s, c, step, s');
    case By(v, step) =>
      if v == w {
        MoverBears(s, w, step, s', verdict);
      } else {
        OneStays(s, v, step, s', w);
      }
  }

  lemma {:induction false} RunBears(maxRetries: nat, ttl: nat, run: seq<Event>)
    requires After(Init(maxRetries, ttl), run).Some?
    ensures AllBorne(Init(maxRetries, ttl), run, After(Init(maxRetries, ttl), run).value)
  {
    var s0 := Init(maxRetries, ttl);
    if run != [] {
      var before, e := run[..|run| - 1], run[|run| - 1];
      assert before + [e] == run;
      RunBears(maxRetries, ttl, before);
      RunForetells(maxRetries, ttl, before);
      var mid, s' := After(s0, before).value, After(s0, run).value;
      forall w ensures Borne(s', w, VerdictOf(s0, run, w)) {
        VerdictNext(s0, before, e, mid, w);
        StepBears(mid, e, s', w, VerdictOf(s0, before, w));
      }
    }
  }

  /** In any run, whatever comes between a handler's return and each step of its worker's settlement, the
      step leaves the row as the handler's outcome and what it had been told say: completed after success;
      untouched once told of a cancel or a lost lease; running but unleased once its pool stopped; failed
      for good; or requeued while a retry is left and failed after that. Nothing else changes. */
  lemma SettlementsFollowTheHandler(maxRetries: nat, ttl: nat, run: seq<Event>, s: State, w: Worker, ok: bool,
      s': State)
    requires After(Init(maxRetries, ttl), run) == Some(s) && Apply(s, By(w, Settle(ok))) == Some(s')
    ensures var verdict := VerdictOf(Init(maxRetries, ttl), run, w);
            verdict.Some? && Settles(verdict.value, s.row, ok, s'.row, s'.workers[w].Settled?)
    ensures s' == s.(row := s'.row, workers := s.workers[w := s'.workers[w]])
  {
    RunBears(maxRetries, ttl, run);
    RunForetells(maxRetries, ttl, run);
    assert Borne(s, w, VerdictOf(Init(maxRetries, ttl), run, w));
    SettlerBears(s, w, ok, s', VerdictOf(Init(maxRetries, ttl), run, w));
  }

  // ---- Which rows a settlement rewrites ----

  /** The settlement's next answered step completes, fails or requeues the row whatever its status. */
  predicate Overwrites(v: Verdict, row: Row) {
    || v.outcome == Succeeded
    || (v.cause == NoCause && (v.outcome == PermanentError || v.steps > 0 || row.retries < row.maxRetries))
  }

  /** By its verdict, e is the step with which a worker overwrites the row. */
  predicate OverwritesAt(s0: State, run: seq<Event>, s: State, e: Event) {
    && e.By? && e.step == Settle(true)
    && var verdict := VerdictOf(s0, run, e.worker); verdict.Some? && Overwrites(verdict.value, s.row)
  }

  /** Without a settlement only an operator's retry changes a cancelled row. */
  lemma CancelledUntilSettled(s: State, e: Event, s': State)
    requires Apply(s, e) == Some(s') && s.row.status == Cancelled && !(e.By? && e.step.Settle?)
    ensures if e == Env(OperatorRetry) then s'.row.status == Pending else s'.row == s.row
  {
  }

  /** In any run a step changes a cancelled row exactly when it is an operator's retry, or the settlement of
      a worker whose handler succeeded or failed without having been told of the cancel, or had its first
      lease attempt error. A handler that was told, and did not succeed, leaves it cancelled. */
  lemma CancelledRowStands(maxRetries: nat, ttl: nat, run: seq<Event>, s: State, e: Event, s': State)
    requires After(Init(maxRetries, ttl), run) == Some(s) && Apply(s, e) == Some(s') && s.row.status == Cancelled
    ensures s'.row != s.row <==> e == Env(OperatorRetry) || OverwritesAt(Init(maxRetries, ttl), run, s, e)
    ensures s'.row != s.row ==> s'.row.status != Cancelled
  {
    if e.By? && e.step.Settle? {
      SettlementsFollowTheHandler(maxRetries, ttl, run, s, e.worker, e.step.ok, s');
    } else {
      CancelledUntilSettled(s, e, s');
    }
  }

  /** The handler erred, and nobody had told it to stop. */
  predicate Errs(v: Verdict) {
    v.outcome != Succeeded && v.cause == NoCause
  }

  predicate Fails(v: Verdict) {
    Errs(v) && (v.outcome == PermanentError || v.steps > 0)
  }

  predicate Requeues(v: Verdict, row: Row) {
    Errs(v) && !Fails(v) && row.retries < row.maxRetries
  }

  /** The verdict by which e, answered, settles. */
  function SettledBy(s0: State, run: seq<Event>, e: Event): Option<Verdict> {
    if e.By? && e.step == Settle(true) then VerdictOf(s0, run, e.worker) else None
  }

  /** How e leaves a running row, by the verdict it settles by. */
  ghost predicate Ends(e: Event, at: Option<Verdict>, row: Row, row': Row) {
    && (row'.status == Completed <==> at.Some? && at.value.outcome == Succeeded)
    && (row'.status == Failed <==> at.Some? && Fails(at.value))
    && (row'.status == Pending <==>
        e == Env(Recover) || e == Env(OperatorRetry) || (at.Some? && Requeues(at.value, row)))
    && (row'.status == Cancelled <==> e == Env(Cancel))
    && row'.retries == row.retries + if row'.status == Pending && e != Env(Recover) then 1 else 0
  }

  lemma SettlesEnds(w: Worker, v: Verdict, row: Row, ok: bool, row': Row, over: bool)
    requires row.status == Running && Settles(v, row, ok, row', over)
    ensures Ends(By(w, Settle(ok)), if ok then Some(v) else None, row, row')
  {
  }

  lemma SettlementEnds(maxRetries: nat, ttl: nat, run: seq<Event>, s: State, w: Worker, ok: bool, s': State)
    requires After(Init(maxRetries, ttl), run) == Some(s) && WorkerApply(s, w, Settle(ok)) == Some(s')
    requires s.row.status == Running
    ensures var e := By(w, Settle(ok)); Ends(e, SettledBy(Init(maxRetries, ttl), run, e), s.row, s'.row)
  {
    SettlementsFollowTheHandler(maxRetries, ttl, run, s, w, ok, s');
    SettlesEnds(w, VerdictOf(Init(maxRetries, ttl), run, w).value, s.row, ok, s'.row, s'.workers[w].Settled?);
  }

  lemma RunsUntilSettled(s: State, e: Event, s': State)
    requires Apply(s, e) == Some(s') && s.row.status == Running && !(e.By? && e.step.Settle?)
    ensures Ends(e, None, s.row, s'.row)
  {
  }

  /** In any run a running row is completed exactly when a worker whose handler succeeded settles it, failed
      exactly when one does whose handler erred for good or was refused its retry, and requeued exactly by
      stale recovery, an operator's retry, or a worker whose handler erred with a retry left; and a handler
      that erred counts only if it had not been told to stop. */
  lemma RunningRowEnds(maxRetries: nat, ttl: nat, run: seq<Event>, s: State, e: Event, s': State)
    requires After(Init(maxRetries, ttl), run) == Some(s) && Apply(s, e) == Some(s') && s.row.status == Running
    ensures Ends(e, SettledBy(Init(maxRetries, ttl), run, e), s.row, s'.row)
  {
    if e.By? && e.step.Settle? {
      SettlementEnds(maxRetries, ttl, run, s, e.worker, e.step.ok, s');
    } else {
      RunsUntilSettled(s, e, s');
    }
  }

  // ---- A settlement from its start to its end ----

  /** The row when a handler that returned has settled, the store answering, with token what its claim
      object holds. */
  function SettledRow(row: Row, cause: Cause, outcome: Outcome, token: Claim): Row {
    match (outcome, cause)
    case (Succeeded, _) => row.(status := Completed)
    case (_, JobCancelled) => row
    case (_, LeaseLost) => row
    case (_, PoolStopped) => if Holds(row, token) then row.(lease := None) else row
    case (PermanentError, NoCause) => row.(status := Failed)
    case (OtherError, NoCause) =>
      if row.retries < row.maxRetries
      then row.(status := Pending, claim := 0, lease := None, retries := row.retries + 1)
      else row.(status := Failed)
  }

  /** s once w's handler has settled. */
  function SettledState(s: State, w: Worker): State
    requires w in s.workers && s.workers[w].Returned? && s.workers[w].claim in s.tokens
  {
    var p := s.workers[w];
    MoveTo(s, w, Settled(p.claim)).(row := SettledRow(s.row, p.cause, p.outcome, s.tokens[p.claim]))
  }

  lemma MovesTwice(s: State, w: Worker, p: Phase, q: Phase)
    ensures MoveTo(MoveTo(s, w, p), w, q) == MoveTo(s, w, q)
  {
  }

  lemma SettlesInTwo(s: State, w: Worker) returns (s1: State, s2: State)
    requires w in s.workers && s.workers[w].Returned? && s.workers[w].claim in s.tokens
    ensures Apply(s, By(w, Decide)) == Some(s1) && Apply(s1, By(w, Settle(true))) == Some(s2) && w in s2.workers
    ensures if s2.workers[w].Settled? then s2 == SettledState(s, w)
        else Apply(s2, By(w, Settle(true))) == Some(SettledState(s, w))
  {
    s1 := WorkerApply(s, w, Decide).value;
    s2 := WorkerApply(s1, w, Settle(true)).value;
    MovesTwice(s, w, s1.workers[w], s2.workers[w]);
    MovesTwice(s, w, s2.workers[w], Settled(s.workers[w].claim));
  }

  lemma OneMore(s: State, run: seq<Event>, mid: State, w: Worker, step: WorkerStep, s': State)
    returns (run': seq<Event>)
    requires After(s, run) == Some(mid) && Apply(mid, By(w, step)) == Some(s')
    requires forall e :: e in run ==> e.By? && e.worker == w
    ensures After(s, run') == Some(s') && |run'| == |run| + 1 && forall e :: e in run' ==> e.By? && e.worker == w
  {
    AfterOne(s, run, By(w, step), mid, s');
    run' := run + [By(w, step)];
  }

  /** Left to itself, with the store answering, a worker whose handler has returned settles in at most three
      steps and leaves the pool, its in-flight entry gone. */
  lemma HandlerSettles(s: State, w: Worker) returns (run: seq<Event>, s': State)
    requires w in s.workers && s.workers[w].Returned? && s.workers[w].claim in s.tokens
    ensures |run| <= 4 && After(s, run) == Some(s') && forall e :: e in run ==> e.By? && e.worker == w
    ensures s'.row == SettledRow(s.row, s.workers[w].cause, s.workers[w].outcome, s.tokens[s.workers[w].claim])
    ensures s' == s.(row := s'.row, workers := s.workers - {w}, inflight := s.inflight - {w.pool})
  {
    var s1, s2 := SettlesInTwo(s, w);
    var done := SettledState(s, w);
    run := OneMore(s, [], s, w, Decide, s1);
    run := OneMore(s, run, s1, w, Settle(true), s2);
    if !s2.workers[w].Settled? {
      run := OneMore(s, run, s2, w, Settle(true), done);
    }
    s' := WorkerApply(done, w, Leave).value;
    run := OneMore(s, run, done, w, Leave, s');
  }
}
