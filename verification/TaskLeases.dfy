/** Task-job leases: one job row shared by any number of worker pools. The state machine follows one
    job; jobs do not interact, since rows and in-flight entries are kept per job id. */
module TaskLeases {
  import opened Wrappers

  type Pool = nat

  datatype Worker = Worker(pool: Pool, index: nat)

  /** A claim token; 0 is the empty one. */
  type Claim = nat

  datatype Status = Pending | Running | Completed | Failed | Cancelled

  datatype Row = Row(status: Status, claim: Claim, lease: Option<int>, retries: nat, maxRetries: nat)

  /** Why a handler's context was cancelled, if it was. */
  datatype Cause = NoCause | JobCancelled | LeaseLost | PoolStopped

  datatype Outcome = Succeeded | PermanentError | OtherError

  /** Release reads the claim object's token first and then asks the store to release under it. */
  datatype Action = Complete | Fail | Retry | Release | ReleaseUnder(token: Claim) | Nothing

  /** Where a worker is in runTask. claim is the one it acquired; it also names the claim object its
      in-flight entry points at. A settlement is leased unless it follows a failed first lease. */
  datatype Phase =
    | Acquired(claim: Claim)
    | TakingOver(claim: Claim, handler: Claim)
    | Extending(claim: Claim)
    | Registered(claim: Claim)
    | Handling(claim: Claim, cause: Cause)
    | Returned(claim: Claim, cause: Cause, outcome: Outcome)
    | Settling(claim: Claim, action: Action, leased: bool)
    | Settled(claim: Claim)

  /** Where a handler's watcher is; it may outlive runTask by the renewal it is in. A renewal that did not
      hold (Unheld) has its token compared, then the job's status asked, then the handler told. */
  datatype Watch =
    | Ticking
    | Renewing(token: Claim)
    | Unheld(token: Claim)
    | Asking
    | Telling(cause: Cause)
    | Ended

  datatype Watcher = Watcher(owner: Worker, watch: Watch)

  datatype State = State(
    row: Row,
    workers: map<Worker, Phase>,     // the workers busy with this job
    inflight: map<Pool, Claim>,      // each pool's in-flight entry, by the claim its object was made with
    tokens: map<Claim, Claim>,       // the token each claim object holds now
    watchers: map<Claim, Watcher>,   // by the claim object they renew under
    stopped: set<Pool>,
    minted: Claim,                   // claims are minted in order, so none repeats
    now: int,
    ttl: nat)

  /** Cancel and OperatorRetry are an operator's. */
  datatype EnvStep = Tick(d: nat) | Recover | Cancel | OperatorRetry | Crash(pool: Pool) | Stop(pool: Pool)

  datatype WorkerStep =
    | Acquire | LoadOrStore | SetToken | LeaseTaken(ok: bool) | FirstLease(ok: bool)
    | Return(outcome: Outcome) | Decide | Settle(ok: bool) | Leave

  datatype WatcherStep = ReadToken | Renew(ok: bool) | Compare | Ask(ok: bool) | Poll | SeeStop | Tell

  datatype Event = Env(env: EnvStep) | By(worker: Worker, step: WorkerStep) | For(handler: Claim, watch: WatcherStep)

  function Init(maxRetries: nat, ttl: nat): State {
    State(Row(Pending, 0, None, 0, maxRetries), map[], map[], map[], map[], {}, 0, 0, ttl)
  }

  // ---- The job store ----

  /** ExtendLease and ReleaseLease act only on a row running under the claim. */
  predicate Holds(row: Row, claim: Claim) {
    claim != 0 && row.status == Running && row.claim == claim
  }

  function ExtendLease(row: Row, claim: Claim, until: int): Row {
    if Holds(row, claim) then row.(lease := Some(until)) else row
  }

  function ReleaseLease(row: Row, claim: Claim): Row {
    if Holds(row, claim) then row.(lease := None) else row
  }

  /** Stale recovery takes an unleased running row (at startup at once) and one whose lease ran out. */
  predicate Recoverable(row: Row, now: int) {
    row.status == Running && (row.lease.Some? ==> row.lease.value <= now)
  }

  function Requeued(row: Row): Row {
    row.(status := Pending, claim := 0, lease := None)
  }

  /** A retry requeues the row whatever its status. */
  function Retried(row: Row): Row {
    Requeued(row).(retries := row.retries + 1)
  }

  // ---- The steps: the state after each, or None when the code cannot take it ----

  function EnvApply(s: State, step: EnvStep): Option<State> {
    match step
    case Tick(d) => Some(s.(now := s.now + d))
    case Recover => if Recoverable(s.row, s.now) then Some(s.(row := Requeued(s.row))) else None
    case Cancel =>
      if s.row.status == Pending || s.row.status == Running then Some(s.(row := s.row.(status := Cancelled))) else None
    case OperatorRetry => if s.row.retries < s.row.maxRetries then Some(s.(row := Retried(s.row))) else None
    case Crash(p) =>
      Some(s.(workers := map w | w in s.workers && w.pool != p :: s.workers[w],
              inflight := s.inflight - {p},
              watchers := map c | c in s.watchers && s.watchers[c].owner.pool != p :: s.watchers[c]))
    case Stop(p) => Some(s.(stopped := s.stopped + {p}))
  }

  /** What runTask does with the handler's outcome. */
  function ActionFor(cause: Cause, outcome: Outcome): Action {
    if outcome == Succeeded then Complete
    else if cause == JobCancelled || cause == LeaseLost then Nothing
    else if cause == PoolStopped then Release
    else if outcome == PermanentError then Fail
    else Retry
  }

  function MoveTo(s: State, w: Worker, p: Phase): State {
    s.(workers := s.workers[w := p])
  }

  /** Settlement writes the row by id alone. A retry that is refused fails the job instead. */
  function SettleApply(s: State, w: Worker, p: Phase, ok: bool): State
    requires p.Settling?
  {
    var done := MoveTo(s, w, Settled(p.claim));
    match p.action
    case Complete => if ok then done.(row := s.row.(status := Completed)) else done
    case Fail => if ok then done.(row := s.row.(status := Failed)) else done
    case Retry =>
      if ok && s.row.retries < s.row.maxRetries then done.(row := Retried(s.row))
      else MoveTo(s, w, Settling(p.claim, Fail, p.leased))
    case Release =>
      if p.claim in s.tokens then MoveTo(s, w, Settling(p.claim, ReleaseUnder(s.tokens[p.claim]), p.leased)) else done
    case ReleaseUnder(token) => if ok then done.(row := ReleaseLease(s.row, token)) else done
    case Nothing => done
  }

  function WorkerApply(s: State, w: Worker, step: WorkerStep): Option<State> {
    if step.Acquire? then
      var c := s.minted + 1;
      if w in s.workers || w.pool in s.stopped || s.row.status != Pending then None
      else Some(MoveTo(s, w, Acquired(c)).(row := s.row.(status := Running, claim := c, lease := None), minted := c))
    else if w !in s.workers then None
    else
      var p := s.workers[w];
      match step
      case LoadOrStore =>
        if !p.Acquired? then None
        else if w.pool in s.inflight then Some(MoveTo(s, w, TakingOver(p.claim, s.inflight[w.pool])))
        else Some(MoveTo(s, w, Registered(p.claim)).(inflight := s.inflight[w.pool := p.claim],
                                                     tokens := s.tokens[p.claim := p.claim]))
      case SetToken =>
        if !p.TakingOver? then None
        else Some(MoveTo(s, w, Extending(p.claim)).(tokens := s.tokens[p.handler := p.claim]))
      case LeaseTaken(ok) =>
        if !p.Extending? then None
        else Some(s.(workers := s.workers - {w},
                     row := if ok then ExtendLease(s.row, p.claim, s.now + s.ttl) else s.row))
      case FirstLease(ok) =>
        if !p.Registered? then None
        else if !ok then Some(MoveTo(s, w, Settling(p.claim, Retry, false)))
        else if !Holds(s.row, p.claim) then Some(MoveTo(s, w, Settled(p.claim)))
        else Some(MoveTo(s, w, Handling(p.claim, NoCause)).(watchers := s.watchers[p.claim := Watcher(w, Ticking)],
                                                            row := ExtendLease(s.row, p.claim, s.now + s.ttl)))
      case Return(outcome) =>
        if !p.Handling? then None else Some(MoveTo(s, w, Returned(p.claim, p.cause, outcome)))
      case Decide =>
        if !p.Returned? then None else Some(MoveTo(s, w, Settling(p.claim, ActionFor(p.cause, p.outcome), true)))
      case Settle(ok) =>
        if !p.Settling? then None else Some(SettleApply(s, w, p, ok))
      case Leave =>
        if !p.Settled? then None else Some(s.(workers := s.workers - {w}, inflight := s.inflight - {w.pool}))
      case _ => None
  }

  function WatchTo(s: State, c: Claim, watch: Watch): State
    requires c in s.watchers
  {
    s.(watchers := s.watchers[c := Watcher(s.watchers[c].owner, watch)])
  }

  /** The watcher cancels the handler's context and ends; a context keeps its first cause. */
  function CancelHandler(s: State, c: Claim, cause: Cause): State
    requires c in s.watchers
  {
    var w := s.watchers[c].owner;
    var s' := WatchTo(s, c, Ended);
    if w !in s.workers || s.workers[w].claim != c then s'
    else match s.workers[w]
      case Handling(_, NoCause) => MoveTo(s', w, Handling(c, cause))
      case Returned(_, NoCause, outcome) => MoveTo(s', w, Returned(c, cause, outcome))
      case _ => s'
  }

  function WatcherApply(s: State, c: Claim, step: WatcherStep): Option<State> {
    if c !in s.watchers || c !in s.tokens then None
    else
      var watch := s.watchers[c].watch;
      match step
      case ReadToken => if watch.Ticking? then Some(WatchTo(s, c, Renewing(s.tokens[c]))) else None
      case Renew(ok) =>
        if !watch.Renewing? then None
        else if ok && !Holds(s.row, watch.token) then Some(WatchTo(s, c, Unheld(watch.token)))
        else Some(WatchTo(s, c, Ticking).(row := if ok then ExtendLease(s.row, watch.token, s.now + s.ttl) else s.row))
      case Compare =>
        if !watch.Unheld? then None else Some(WatchTo(s, c, if s.tokens[c] != watch.token then Ticking else Asking))
      case Ask(ok) =>
        if !watch.Asking? then None
        else Some(WatchTo(s, c, Telling(if ok && s.row.status == Cancelled then JobCancelled else LeaseLost)))
      case Poll =>
        if watch.Ticking? && s.row.status == Cancelled then Some(WatchTo(s, c, Telling(JobCancelled))) else None
      case SeeStop =>
        if watch.Ticking? && s.watchers[c].owner.pool in s.stopped
        then Some(WatchTo(s, c, Telling(PoolStopped)))
        else None
      case Tell => if watch.Telling? then Some(CancelHandler(s, c, watch.cause)) else None
  }

  function Apply(s: State, e: Event): Option<State> {
    match e
    case Env(step) => EnvApply(s, step)
    case By(w, step) => WorkerApply(s, w, step)
    case For(c, step) => WatcherApply(s, c, step)
  }

  /** The state after a run of events, or None when one of them could not happen. */
  function After(s: State, run: seq<Event>): Option<State> {
    if run == [] then Some(s)
    else match After(s, run[..|run| - 1])
      case None => None
      case Some(mid) => Apply(mid, run[|run| - 1])
  }

  // ---- Inside one pool ----

  /** The phases from which runTask's deferred in-flight delete is still to come. */
  predicate Owns(p: Phase) {
    p.Registered? || p.Handling? || p.Returned? || p.Settling? || p.Settled?
  }

  /** A handler runs, or ran under a lease and its settlement is outstanding. */
  predicate Active(p: Phase) {
    p.Handling? || p.Returned? || (p.Settling? && p.leased)
  }

  /** All a worker that never got its lease can do to the row. */
  predicate SettlesUnleased(a: Action) {
    a == Retry || a == Fail
  }

  ghost predicate ClaimsUnique(s: State) {
    && s.row.claim <= s.minted
    && (forall w :: w in s.workers ==> 0 < s.workers[w].claim <= s.minted)
    && (forall v, w :: v in s.workers && w in s.workers && s.workers[v].claim == s.workers[w].claim ==> v == w)
    && (forall w :: w in s.workers && s.workers[w].Settling? && !s.workers[w].leased ==>
        SettlesUnleased(s.workers[w].action))
  }

  ghost predicate EntriesOwned(s: State) {
    forall w :: w in s.workers && Owns(s.workers[w]) ==>
        w.pool in s.inflight && s.inflight[w.pool] == s.workers[w].claim
  }

  /** A watcher's step leaves every worker in its place but for the cause it sees. */
  ghost predicate SamePlaces(s: State, s': State) {
    && s'.workers.Keys == s.workers.Keys && s'.minted == s.minted && s'.inflight == s.inflight
    && (forall w :: w in s.workers ==>
          && s'.workers[w].claim == s.workers[w].claim
          && (s'.workers[w].Settling? ==> s'.workers[w] == s.workers[w])
          && Owns(s'.workers[w]) == Owns(s.workers[w]) && Active(s'.workers[w]) == Active(s.workers[w]))
    && (s'.row == s.row || s'.row == s.row.(lease := Some(s.now + s.ttl)))
  }

  lemma WatchersMoveNobody(s: State, c: Claim, step: WatcherStep, s': State)
    requires WatcherApply(s, c, step) == Some(s')
    ensures SamePlaces(s, s')
  {
  }

  lemma ClaimsKept(s: State, s': State)
    requires ClaimsUnique(s) && s.minted <= s'.minted && s'.row.claim <= s'.minted
    requires forall w :: w in s'.workers ==> w in s.workers && s'.workers[w].claim == s.workers[w].claim
    requires forall w :: w in s'.workers && s'.workers[w].Settling? ==> s'.workers[w] == s.workers[w]
    ensures ClaimsUnique(s')
  {
  }

  /** Only w moved. */
  ghost predicate OthersStay(s: State, w: Worker, s': State) {
    forall v :: v != w ==> (v in s'.workers <==> v in s.workers) && (v in s.workers ==> s'.workers[v] == s.workers[v])
  }

  lemma OneStaysSettling(s: State, w: Worker, p: Phase, ok: bool, v: Worker)
    requires p.Settling? && v != w
    ensures v in SettleApply(s, w, p, ok).workers <==> v in s.workers
    ensures v in s.workers ==> SettleApply(s, w, p, ok).workers[v] == s.workers[v]
  {
  }

  lemma OneStays(s: State, w: Worker, step: WorkerStep, s': State, v: Worker)
    requires WorkerApply(s, w, step) == Some(s') && v != w
    ensures v in s'.workers <==> v in s.workers
    ensures v in s.workers ==> s'.workers[v] == s.workers[v]
  {
    if step.Settle? {
      OneStaysSettling(s, w, s.workers[w], step.ok, v);
    }
  }

  lemma OnlyOneMoves(s: State, w: Worker, step: WorkerStep, s': State)
    requires WorkerApply(s, w, step) == Some(s')
    ensures OthersStay(s, w, s')
  {
    forall v: Worker | v != w
      ensures v in s'.workers <==> v in s.workers
      ensures v in s.workers ==> s'.workers[v] == s.workers[v]
    {
      OneStays(s, w, step, s', v);
    }
  }

  lemma MoverKeepsClaim(s: State, w: Worker, step: WorkerStep, s': State)
    requires s.row.claim <= s.minted && WorkerApply(s, w, step) == Some(s')
    requires w in s.workers && s.workers[w].Settling? && !s.workers[w].leased ==> SettlesUnleased(s.workers[w].action)
    ensures s.minted <= s'.minted && s'.row.claim <= s'.minted
    ensures w in s'.workers && !step.Acquire? ==> w in s.workers && s'.workers[w].claim == s.workers[w].claim
    ensures step.Acquire? ==> w !in s.workers && s'.workers[w] == Acquired(s.minted + 1) && s'.minted == s.minted + 1
    ensures w in s'.workers && s'.workers[w].Settling? && !s'.workers[w].leased ==>
        SettlesUnleased(s'.workers[w].action)
  {
  }

  /** One worker moving, at most to the claim just minted, leaves claims unique. */
  lemma ClaimsWithMover(s: State, w: Worker, s': State)
    requires ClaimsUnique(s) && OthersStay(s, w, s') && s.minted <= s'.minted && s'.row.claim <= s'.minted
    requires w in s'.workers ==>
               || (w in s.workers && s'.workers[w].claim == s.workers[w].claim)
               || (s'.workers[w].claim == s.minted + 1 == s'.minted)
    requires w in s'.workers && s'.workers[w].Settling? && !s'.workers[w].leased ==>
        SettlesUnleased(s'.workers[w].action)
    ensures ClaimsUnique(s')
  {
  }

  lemma ClaimsAfterMove(s: State, w: Worker, step: WorkerStep, s': State)
    requires ClaimsUnique(s) && WorkerApply(s, w, step) == Some(s')
    ensures ClaimsUnique(s')
  {
    OnlyOneMoves(s, w, step, s');
    MoverKeepsClaim(s, w, step, s');
    ClaimsWithMover(s, w, s');
  }

  /** A worker enters its pool only where no entry is, and leaves by dropping its own. */
  lemma EntriesOfMove(s: State, w: Worker, step: WorkerStep, s': State)
    requires EntriesOwned(s) && WorkerApply(s, w, step) == Some(s')
    ensures || s'.inflight == s.inflight
            || (w.pool !in s.inflight && s'.inflight == s.inflight[w.pool := s'.workers[w].claim])
            || (w in s.workers && Owns(s.workers[w]) && w !in s'.workers && s'.inflight == s.inflight - {w.pool})
    ensures w in s'.workers && Owns(s'.workers[w]) ==>
        w.pool in s'.inflight && s'.inflight[w.pool] == s'.workers[w].claim
  {
    if step.Settle? {
      SettlerKeepsEntry(s, w, s.workers[w], step.ok);
    }
  }

  lemma SettlerKeepsEntry(s: State, w: Worker, p: Phase, ok: bool)
    requires p.Settling?
    ensures var s' := SettleApply(s, w, p, ok);
            s'.inflight == s.inflight && w in s'.workers && s'.workers[w].claim == p.claim
  {
  }

  lemma EntriesAfterMove(s: State, w: Worker, step: WorkerStep, s': State)
    requires ClaimsUnique(s) && EntriesOwned(s) && WorkerApply(s, w, step) == Some(s')
    ensures EntriesOwned(s')
  {
    EntriesOfMove(s, w, step, s');
    forall v | v in s'.workers && Owns(s'.workers[v])
      ensures v.pool in s'.inflight && s'.inflight[v.pool] == s'.workers[v].claim
    {
      if v != w {
        OneStays(s, w, step, s', v);
      }
    }
  }

  lemma WorkersKeepClaims(s: State, w: Worker, step: WorkerStep, s': State)
    requires ClaimsUnique(s) && EntriesOwned(s) && WorkerApply(s, w, step) == Some(s')
    ensures ClaimsUnique(s') && EntriesOwned(s')
  {
    ClaimsAfterMove(s, w, step, s');
    EntriesAfterMove(s, w, step, s');
  }

  lemma EnvKeepsClaims(s: State, step: EnvStep, s': State)
    requires ClaimsUnique(s) && EntriesOwned(s) && EnvApply(s, step) == Some(s')
    ensures ClaimsUnique(s') && EntriesOwned(s')
  {
    ClaimsKept(s, s');
  }

  lemma WatchersKeepClaims(s: State, c: Claim, step: WatcherStep, s': State)
    requires ClaimsUnique(s) && EntriesOwned(s) && SamePlaces(s, s')
    ensures ClaimsUnique(s') && EntriesOwned(s')
  {
    ClaimsKept(s, s');
  }

  lemma PoolStep(s: State, e: Event, s': State)
    requires ClaimsUnique(s) && EntriesOwned(s) && Apply(s, e) == Some(s')
    ensures ClaimsUnique(s') && EntriesOwned(s')
  {
    match e
    case Env(step) => EnvKeepsClaims(s, step, s');
    case By(w, step) => WorkersKeepClaims(s, w, step, s');
    case For(c, step) =>
      WatchersMoveNobody(s, c, step, s');
      WatchersKeepClaims(s, c, step, s');
  }

  lemma {:induction false} PoolRun(maxRetries: nat, ttl: nat, run: seq<Event>)
    requires After(Init(maxRetries, ttl), run).Some?
    ensures ClaimsUnique(After(Init(maxRetries, ttl), run).value)
        && EntriesOwned(After(Init(maxRetries, ttl), run).value)
  {
    if run != [] {
      PoolRun(maxRetries, ttl, run[..|run| - 1]);
      var mid := After(Init(maxRetries, ttl), run[..|run| - 1]).value;
      PoolStep(mid, run[|run| - 1], After(Init(maxRetries, ttl), run).value);
    }
  }

  /** Whatever happens, renewed or not: a pool that re-acquires the job it is still running never
      starts a second handler for it. */
  lemma OneHandlerPerPool(maxRetries: nat, ttl: nat, run: seq<Event>, v: Worker, w: Worker)
    requires After(Init(maxRetries, ttl), run).Some?
    requires var s := After(Init(maxRetries, ttl), run).value;
             v in s.workers && w in s.workers && Owns(s.workers[v]) && Owns(s.workers[w]) && v.pool == w.pool
    ensures v == w
  {
    PoolRun(maxRetries, ttl, run);
  }

  // ---- Across pools ----

  ghost predicate ActiveAt(s: State, w: Worker) {
    w in s.workers && Active(s.workers[w])
  }

  ghost predicate SomeoneActive(s: State) {
    exists w :: ActiveAt(s, w)
  }

  /** While a worker is active nobody else is, and the row is its own, leased, or already settled. */
  ghost predicate Exclusive(s: State) {
    && ClaimsUnique(s)
    && (forall v, w :: ActiveAt(s, v) && ActiveAt(s, w) ==> v == w)
    && (forall w :: ActiveAt(s, w) ==> RowIsFor(s.row, s.workers[w].claim))
  }

  predicate RowIsFor(row: Row, claim: Claim) {
    row.status != Pending && (row.status == Running ==> row.claim == claim && row.lease.Some?)
  }

  /** A worker whose first lease attempt errored requeues the job by id. */
  predicate StrayRetry(s: State, e: Event) {
    && e.By? && e.worker in s.workers && s.workers[e.worker].Settling?
    && s.workers[e.worker].action == Retry && !s.workers[e.worker].leased
    && e.step == Settle(true) && s.row.retries < s.row.maxRetries
  }

  /** The three ways an active handler can lose its row: its lease ran out before it was renewed, and
      stale recovery came by; a stray retry requeued it; or an operator's did. */
  ghost predicate Hazard(s: State, e: Event) {
    SomeoneActive(s) && (e == Env(Recover) || e == Env(OperatorRetry) || StrayRetry(s, e))
  }

  /** Row row' is row leased until a whole ttl from now. */
  predicate Leased(s: State, row: Row) {
    row == s.row.(lease := Some(s.now + s.ttl))
  }

  /** Where w's step leaves it and the row: it becomes active only under a lease on its own row; while
      it stays active the row stays; and it rewrites another's row only to fail it or extend a lease. */
  ghost predicate ProperMove(s: State, w: Worker, s': State) {
    && (ActiveAt(s', w) && !ActiveAt(s, w) ==>
        Leased(s, s'.row) && s.row.status == Running && s.row.claim == s'.workers[w].claim)
    && (ActiveAt(s', w) && ActiveAt(s, w) ==> s'.row == s.row)
    && (!ActiveAt(s, w) && SomeoneActive(s) && s'.row != s.row ==> s'.row.status == Failed || Leased(s, s'.row))
  }

  /** An active worker's settlement that leaves it active leaves the row too. */
  lemma OwnSettleIsProper(s: State, w: Worker, ok: bool)
    requires w in s.workers && s.workers[w].Settling? && s.workers[w].leased
    ensures ProperMove(s, w, SettleApply(s, w, s.workers[w], ok))
  {
    assert ActiveAt(s, w);
  }

  lemma UnleasedSettleIsProper(s: State, w: Worker, ok: bool)
    requires w in s.workers && s.workers[w].Settling? && !s.workers[w].leased && SettlesUnleased(s.workers[w].action)
    requires !(SomeoneActive(s) && StrayRetry(s, By(w, Settle(ok))))
    ensures ProperMove(s, w, SettleApply(s, w, s.workers[w], ok))
  {
  }

  lemma SettleIsProper(s: State, w: Worker, ok: bool, s': State)
    requires Exclusive(s) && WorkerApply(s, w, Settle(ok)) == Some(s')
    requires !(SomeoneActive(s) && StrayRetry(s, By(w, Settle(ok))))
    ensures ProperMove(s, w, s')
  {
    if s.workers[w].leased {
      OwnSettleIsProper(s, w, ok);
    } else {
      UnleasedSettleIsProper(s, w, ok);
    }
  }

  lemma WorkIsProper(s: State, w: Worker, step: WorkerStep, s': State)
    requires Exclusive(s) && WorkerApply(s, w, step) == Some(s') && !step.Settle?
    ensures ProperMove(s, w, s')
  {
  }

  lemma WorkerIsProper(s: State, w: Worker, step: WorkerStep, s': State)
    requires Exclusive(s) && WorkerApply(s, w, step) == Some(s')
    requires !(SomeoneActive(s) && StrayRetry(s, By(w, step)))
    ensures ProperMove(s, w, s')
  {
    if step.Settle? {
      SettleIsProper(s, w, step.ok, s');
    } else {
      WorkIsProper(s, w, step, s');
    }
  }

  lemma ProperMoveStaysExclusive(s: State, w: Worker, s': State)
    requires Exclusive(s) && ClaimsUnique(s') && OthersStay(s, w, s') && ProperMove(s, w, s')
    requires ActiveAt(s', w) && ActiveAt(s, w) ==> s'.workers[w].claim == s.workers[w].claim
    ensures Exclusive(s')
  {
    forall v | ActiveAt(s', v) && v != w
      ensures ActiveAt(s, v) && s'.workers[v] == s.workers[v]
    {
    }
  }

  lemma WorkersStayExclusive(s: State, w: Worker, step: WorkerStep, s': State)
    requires Exclusive(s) && EntriesOwned(s) && WorkerApply(s, w, step) == Some(s')
    requires !(SomeoneActive(s) && StrayRetry(s, By(w, step)))
    ensures Exclusive(s')
  {
    ClaimsAfterMove(s, w, step, s');
    OnlyOneMoves(s, w, step, s');
    MoverKeepsClaim(s, w, step, s');
    WorkerIsProper(s, w, step, s');
    ProperMoveStaysExclusive(s, w, s');
  }

  lemma EnvStaysExclusive(s: State, step: EnvStep, s': State)
    requires Exclusive(s) && EntriesOwned(s) && EnvApply(s, step) == Some(s')
    requires !(SomeoneActive(s) && (step == Recover || step == OperatorRetry))
    ensures Exclusive(s')
  {
    EnvKeepsClaims(s, step, s');
    assert forall w :: ActiveAt(s', w) ==> ActiveAt(s, w) && s'.workers[w].claim == s.workers[w].claim;
  }

  lemma WatchersStayExclusive(s: State, c: Claim, step: WatcherStep, s': State)
    requires Exclusive(s) && EntriesOwned(s) && SamePlaces(s, s')
    ensures Exclusive(s')
  {
    WatchersKeepClaims(s, c, step, s');
    assert forall w :: ActiveAt(s', w) ==> ActiveAt(s, w) && s'.workers[w].claim == s.workers[w].claim;
  }

  lemma HazardBreaks(s: State, e: Event, s': State)
    requires Exclusive(s) && Apply(s, e) == Some(s') && Hazard(s, e)
    ensures !Exclusive(s')
  {
    var w :| ActiveAt(s, w);
    assert s'.row.status == Pending && ActiveAt(s', w);
  }

  /** A step breaks exclusion exactly when it is one of the three hazards. */
  lemma ExclusionBreaksOnlyByHazard(s: State, e: Event, s': State)
    requires Exclusive(s) && EntriesOwned(s) && Apply(s, e) == Some(s')
    ensures Exclusive(s') <==> !Hazard(s, e)
  {
    if Hazard(s, e) {
      HazardBreaks(s, e, s');
    } else {
      match e
      case Env(step) => EnvStaysExclusive(s, step, s');
      case By(w, step) => WorkersStayExclusive(s, w, step, s');
      case For(c, step) =>
        WatchersMoveNobody(s, c, step, s');
        WatchersStayExclusive(s, c, step, s');
    }
  }

  // ---- Renewing in time ----

  /** The store answered a renewal of handler c's lease, the first one included. It need not have held. */
  predicate Renews(s: State, e: Event, c: Claim) {
    || e == For(c, Renew(true))
    || (e.By? && e.step == FirstLease(true) && e.worker in s.workers && s.workers[e.worker].claim == c)
  }

  /** When that last happened in the run. */
  function RenewedAt(s: State, run: seq<Event>, c: Claim): int {
    if run == [] then 0
    else
      var before, e := run[..|run| - 1], run[|run| - 1];
      match After(s, before)
      case None => 0
      case Some(mid) => if Renews(mid, e, c) then mid.now else RenewedAt(s, before, c)
  }

  /** The watcher has not made up its mind to stop the handler. */
  predicate MayRenew(watch: Watch) {
    watch.Ticking? || watch.Renewing? || watch.Unheld?
  }

  /** w's handler is still being watched over. */
  predicate Watched(s: State, w: Worker) {
    w in s.workers && s.workers[w].claim in s.watchers && MayRenew(s.watchers[s.workers[w].claim].watch)
  }

  /** What a live pool does: no lease period passes over a watched handler without a renewal the store
      answers. It renews every third of one. */
  ghost predicate PunctualStep(s: State, run: seq<Event>, mid: State, e: Event) {
    e.Env? && e.env.Tick? ==> forall w :: ActiveAt(mid, w) && Watched(mid, w) ==>
        mid.now + e.env.d < RenewedAt(s, run, mid.workers[w].claim) + mid.ttl
  }

  ghost predicate PunctualRun(s: State, run: seq<Event>)
    requires After(s, run).Some?
  {
    run == [] || (PunctualRun(s, run[..|run| - 1])
        && PunctualStep(s, run[..|run| - 1], After(s, run[..|run| - 1]).value, run[|run| - 1]))
  }

  /** A handler no renewal can keep: its pool is stopping, which ends its renewals, or it renews with a
      claim handed over late, not its own. */
  predicate Unkept(s: State, w: Worker)
    requires w in s.workers
  {
    w.pool in s.stopped || (s.workers[w].claim in s.tokens && s.tokens[s.workers[w].claim] != s.workers[w].claim)
  }

  /** Such a handler is still running, and so is the row. */
  ghost predicate Outlived(s: State) {
    s.row.status == Running && exists w :: ActiveAt(s, w) && Unkept(s, w)
  }

  /** The ways a job under a handler is given away though its pool renews in time: recovery finds it
      outlived, or a worker that never got its lease or an operator retries it. */
  ghost predicate GivesAway(s: State, e: Event) {
    (e == Env(Recover) && Outlived(s)) || (SomeoneActive(s) && (StrayRetry(s, e) || e == Env(OperatorRetry)))
  }

  ghost predicate NeverGivesAway(s: State, run: seq<Event>)
    requires After(s, run).Some?
  {
    run == [] || (NeverGivesAway(s, run[..|run| - 1]) && !GivesAway(After(s, run[..|run| - 1]).value, run[|run| - 1]))
  }

  ghost predicate AlwaysExclusive(s: State, run: seq<Event>)
    requires After(s, run).Some?
  {
    Exclusive(After(s, run).value) && (run == [] || AlwaysExclusive(s, run[..|run| - 1]))
  }

  ghost predicate TokensOwned(s: State) {
    forall w :: w in s.workers && Owns(s.workers[w]) ==> s.workers[w].claim in s.tokens
  }

  /** How things stand for w's handler, renewed last at t: unless it is unkept its watcher is at work, and
      then its lease lasts a whole ttl from t. */
  predicate HandlerKept(s: State, w: Worker, t: int)
    requires w in s.workers
  {
    var c := s.workers[w].claim;
    && c in s.tokens && c in s.watchers && s.watchers[c].owner == w && t <= s.now
    && (var watch := s.watchers[c].watch;
        && (MayRenew(watch) ==> s.now < t + s.ttl)
        && (s.tokens[c] == c && s.row.status == Running ==> s.row.lease.Some? && t + s.ttl <= s.row.lease.value)
        && (s.tokens[c] == c && (watch.Renewing? || watch.Unheld?) ==> watch.token == c)
        && (!watch.Ticking? && !watch.Renewing? && s.row.status == Running ==> Unkept(s, w)))
  }

  ghost predicate Attended(s0: State, run: seq<Event>, s: State) {
    && TokensOwned(s)
    && forall w :: ActiveAt(s, w) ==> HandlerKept(s, w, RenewedAt(s0, run, s.workers[w].claim))
  }

  lemma TokensStayOwned(s: State, e: Event, s': State)
    requires TokensOwned(s) && Apply(s, e) == Some(s')
    ensures TokensOwned(s')
  {
    match e
    case Env(step) =>
    case By(w, step) => TokensOfMove(s, w, step, s');
    case For(c, step) =>
      WatchersMoveNobody(s, c, step, s');
      WatchersTakeNoClaim(s, c, step, s');
  }

  lemma TokensOfMove(s: State, w: Worker, step: WorkerStep, s': State)
    requires TokensOwned(s) && WorkerApply(s, w, step) == Some(s')
    ensures TokensOwned(s')
  {
    MoverOwnsToken(s, w, step, s');
    forall v | v in s'.workers && Owns(s'.workers[v]) ensures s'.workers[v].claim in s'.tokens {
      if v != w {
        OneStays(s, w, step, s', v);
      }
    }
  }

  lemma MoverOwnsToken(s: State, w: Worker, step: WorkerStep, s': State)
    requires TokensOwned(s) && WorkerApply(s, w, step) == Some(s')
    ensures s.tokens.Keys <= s'.tokens.Keys
    ensures w in s'.workers && Owns(s'.workers[w]) ==> s'.workers[w].claim in s'.tokens
  {
  }

  // ---- How each step leaves a handler ----

  lemma EnvKeepsHandler(s: State, step: EnvStep, s': State, w: Worker, t: int)
    requires EnvApply(s, step) == Some(s') && step != Recover && step != OperatorRetry
    requires ActiveAt(s', w) && ActiveAt(s, w) && HandlerKept(s, w, t)
    requires step.Tick? && Watched(s, w) ==> s.now + step.d < t + s.ttl
    ensures HandlerKept(s', w, t)
  {
  }

  /** Another worker's step may hand the handler a claim that is not its own; it takes none of its lease. */
  lemma OthersStepKeepsHandler(s: State, v: Worker, step: WorkerStep, s': State, w: Worker, t: int)
    requires ClaimsUnique(s) && WorkerApply(s, v, step) == Some(s') && v != w
    requires ActiveAt(s, w) && HandlerKept(s, w, t)
    requires s'.row == s.row || s'.row.status == Failed || Leased(s, s'.row)
    ensures HandlerKept(s', w, t)
  {
    OneStays(s, v, step, s', w);
    OthersLeaveWatcher(s, v, step, s', s.workers[w].claim, w);
  }

  lemma OthersLeaveWatcher(s: State, v: Worker, step: WorkerStep, s': State, c: Claim, w: Worker)
    requires ClaimsUnique(s) && WorkerApply(s, v, step) == Some(s') && v != w
    requires w in s.workers && s.workers[w].claim == c && c in s.watchers && c in s.tokens
    ensures c in s'.watchers && s'.watchers[c] == s.watchers[c]
    ensures c in s'.tokens && (s'.tokens[c] == s.tokens[c] || s'.tokens[c] != c)
    ensures s'.now == s.now && s'.ttl == s.ttl && s'.stopped == s.stopped
  {
  }

  lemma OwnStepKeepsHandler(s: State, w: Worker, step: WorkerStep, s': State, t: int)
    requires WorkerApply(s, w, step) == Some(s') && TokensOwned(s) && s.ttl > 0
    requires ActiveAt(s', w) && (ActiveAt(s, w) ==> HandlerKept(s, w, t))
    requires ProperMove(s, w, s')
    ensures HandlerKept(s', w, if Renews(s, By(w, step), s'.workers[w].claim) then s.now else t)
  {
    if step.Settle? {
      SettlerKeepsHandler(s, w, step.ok, s', t);
    }
  }

  lemma SettlerKeepsHandler(s: State, w: Worker, ok: bool, s': State, t: int)
    requires WorkerApply(s, w, Settle(ok)) == Some(s') && ActiveAt(s', w) && HandlerKept(s, w, t)
    requires s'.row == s.row
    ensures HandlerKept(s', w, t)
  {
  }

  lemma OtherWatchersKeepHandler(s: State, d: Claim, step: WatcherStep, s': State, w: Worker, t: int)
    requires WatcherApply(s, d, step) == Some(s') && SamePlaces(s, s')
    requires ActiveAt(s, w) && HandlerKept(s, w, t) && s.workers[w].claim != d
    ensures HandlerKept(s', w, t)
  {
    WatchersTakeNoClaim(s, d, step, s');
    WatchersKeepTime(s, d, step, s');
  }

  lemma WatchersKeepTime(s: State, d: Claim, step: WatcherStep, s': State)
    requires WatcherApply(s, d, step) == Some(s')
    ensures s'.now == s.now && s'.ttl == s.ttl && s'.stopped == s.stopped
    ensures s'.watchers.Keys == s.watchers.Keys
    ensures forall c :: c in s.watchers && c != d ==> s'.watchers[c] == s.watchers[c]
  {
  }

  lemma OwnWatcherKeepsHandler(s: State, c: Claim, step: WatcherStep, s': State, w: Worker, t: int)
    requires Exclusive(s) && WatcherApply(s, c, step) == Some(s') && SamePlaces(s, s') && s.ttl > 0
    requires ActiveAt(s, w) && HandlerKept(s, w, t) && s.workers[w].claim == c
    ensures HandlerKept(s', w, if step == Renew(true) then s.now else t)
  {
    WatchersKeepTime(s, c, step, s');
    WatchersTakeNoClaim(s, c, step, s');
  }

  lemma AfterOne(s: State, run: seq<Event>, e: Event, mid: State, s': State)
    requires After(s, run) == Some(mid) && Apply(mid, e) == Some(s')
    ensures After(s, run + [e]) == Some(s')
    ensures forall c :: RenewedAt(s, run + [e], c) == if Renews(mid, e, c) then mid.now else RenewedAt(s, run, c)
    ensures PunctualRun(s, run) && PunctualStep(s, run, mid, e) ==> PunctualRun(s, run + [e])
    ensures NeverGivesAway(s, run) && !GivesAway(mid, e) ==> NeverGivesAway(s, run + [e])
  {
    assert (run + [e])[..|run + [e]| - 1] == run;
  }

  // ---- The run ----

  lemma EnvAttends(s0: State, run: seq<Event>, s: State, step: EnvStep, s': State)
    requires After(s0, run) == Some(s) && EnvApply(s, step) == Some(s') && Attended(s0, run, s)
    requires PunctualStep(s0, run, s, Env(step)) && !((step == Recover || step == OperatorRetry) && SomeoneActive(s))
    ensures Attended(s0, run + [Env(step)], s')
  {
    AfterOne(s0, run, Env(step), s, s');
    TokensStayOwned(s, Env(step), s');
    forall w | ActiveAt(s', w) ensures HandlerKept(s', w, RenewedAt(s0, run + [Env(step)], s'.workers[w].claim)) {
      assert ActiveAt(s, w) && s'.workers[w] == s.workers[w];
      EnvKeepsHandler(s, step, s', w, RenewedAt(s0, run, s.workers[w].claim));
    }
  }

  lemma WorkerAttends(s0: State, run: seq<Event>, s: State, v: Worker, step: WorkerStep, s': State)
    requires After(s0, run) == Some(s) && WorkerApply(s, v, step) == Some(s') && Attended(s0, run, s)
    requires Exclusive(s) && s.ttl > 0 && !(SomeoneActive(s) && StrayRetry(s, By(v, step)))
    ensures Attended(s0, run + [By(v, step)], s')
  {
    AfterOne(s0, run, By(v, step), s, s');
    TokensStayOwned(s, By(v, step), s');
    WorkerIsProper(s, v, step, s');
    MoverKeepsClaim(s, v, step, s');
    forall w | ActiveAt(s', w) ensures HandlerKept(s', w, RenewedAt(s0, run + [By(v, step)], s'.workers[w].claim)) {
      if w == v {
        assert step.Acquire? ==> !ActiveAt(s', w);
        OwnStepKeepsHandler(s, w, step, s', RenewedAt(s0, run, s'.workers[w].claim));
      } else {
        OneStays(s, v, step, s', w);
        assert ActiveAt(s, w) && !ActiveAt(s, v);
        OthersStepKeepsHandler(s, v, step, s', w, RenewedAt(s0, run, s.workers[w].claim));
        assert !Renews(s, By(v, step), s.workers[w].claim);
      }
    }
  }

  lemma WatcherAttends(s0: State, run: seq<Event>, s: State, c: Claim, step: WatcherStep, s': State)
    requires After(s0, run) == Some(s) && WatcherApply(s, c, step) == Some(s') && Attended(s0, run, s)
    requires Exclusive(s) && s.ttl > 0
    ensures Attended(s0, run + [For(c, step)], s')
  {
    AfterOne(s0, run, For(c, step), s, s');
    TokensStayOwned(s, For(c, step), s');
    WatchersMoveNobody(s, c, step, s');
    forall w | ActiveAt(s', w) ensures HandlerKept(s', w, RenewedAt(s0, run + [For(c, step)], s'.workers[w].claim)) {
      assert ActiveAt(s, w) && s'.workers[w].claim == s.workers[w].claim;
      if s.workers[w].claim == c {
        OwnWatcherKeepsHandler(s, c, step, s', w, RenewedAt(s0, run, c));
      } else {
        OtherWatchersKeepHandler(s, c, step, s', w, RenewedAt(s0, run, s.workers[w].claim));
      }
    }
  }

  /** While a pool renews in time, stale recovery finds a running job under a handler only when no renewal
      could keep that handler's lease. */
  lemma RecoveryFindsOnlyOutlived(s0: State, run: seq<Event>, s: State, w: Worker)
    requires Attended(s0, run, s) && Exclusive(s) && ActiveAt(s, w) && s.row.status == Running
    ensures !Unkept(s, w) ==> s.row.lease.Some? && s.now < s.row.lease.value
    ensures Recoverable(s.row, s.now) ==> Outlived(s)
  {
  }

  lemma GivingAwayIsHazard(s0: State, run: seq<Event>, s: State, e: Event)
    requires Attended(s0, run, s) && Exclusive(s) && Apply(s, e).Some?
    ensures GivesAway(s, e) <==> Hazard(s, e)
  {
    if e == Env(Recover) && SomeoneActive(s) {
      var w :| ActiveAt(s, w);
      RecoveryFindsOnlyOutlived(s0, run, s, w);
    }
  }

  lemma StepUnderRenewal(s0: State, run: seq<Event>, s: State, e: Event, s': State)
    requires After(s0, run) == Some(s) && Apply(s, e) == Some(s') && s.ttl > 0
    requires Exclusive(s) && EntriesOwned(s) && Attended(s0, run, s) && PunctualStep(s0, run, s, e)
    ensures Exclusive(s') <==> !GivesAway(s, e)
    ensures Exclusive(s') ==> Attended(s0, run + [e], s')
  {
    ExclusionBreaksOnlyByHazard(s, e, s');
    GivingAwayIsHazard(s0, run, s, e);
    if !GivesAway(s, e) {
      match e
      case Env(step) => EnvAttends(s0, run, s, step, s');
      case By(w, step) => WorkerAttends(s0, run, s, w, step, s');
      case For(c, step) => WatcherAttends(s0, run, s, c, step, s');
    }
  }

  lemma TtlStays(s: State, e: Event, s': State)
    requires Apply(s, e) == Some(s')
    ensures s'.ttl == s.ttl
  {
    match e
    case Env(step) =>
    case By(w, step) => WorkersKeepTime(s, w, step, s');
    case For(c, step) => WatchersKeepTime(s, c, step, s');
  }

  lemma WorkersKeepTime(s: State, w: Worker, step: WorkerStep, s': State)
    requires WorkerApply(s, w, step) == Some(s')
    ensures s'.now == s.now && s'.ttl == s.ttl && s'.stopped == s.stopped
  {
    if step.Settle? {
      SettlingKeepsTime(s, w, s.workers[w], step.ok);
    }
  }

  lemma SettlingKeepsTime(s: State, w: Worker, p: Phase, ok: bool)
    requires p.Settling?
    ensures var s' := SettleApply(s, w, p, ok); s'.now == s.now && s'.ttl == s.ttl && s'.stopped == s.stopped
  {
  }

  lemma {:induction false} RunUnderRenewal(maxRetries: nat, ttl: nat, run: seq<Event>)
    requires After(Init(maxRetries, ttl), run).Some? && ttl > 0 && PunctualRun(Init(maxRetries, ttl), run)
    ensures AlwaysExclusive(Init(maxRetries, ttl), run) <==> NeverGivesAway(Init(maxRetries, ttl), run)
    ensures AlwaysExclusive(Init(maxRetries, ttl), run) ==>
        Attended(Init(maxRetries, ttl), run, After(Init(maxRetries, ttl), run).value)
    ensures After(Init(maxRetries, ttl), run).value.ttl == ttl
  {
    var s0 := Init(maxRetries, ttl);
    if run != [] {
      var before, e := run[..|run| - 1], run[|run| - 1];
      assert before + [e] == run;
      RunUnderRenewal(maxRetries, ttl, before);
      PoolRun(maxRetries, ttl, before);
      var mid, s' := After(s0, before).value, After(s0, run).value;
      TtlStays(mid, e, s');
      if AlwaysExclusive(s0, before) {
        StepUnderRenewal(s0, before, mid, e, s');
      }
    }
  }

  /** In any run in which live pools renew in time, for any number of pools, crashes, recoveries, cancels,
      shutdowns and take-overs: a job is always its one handler's if and only if no stray retry and no
      operator's strikes under a handler, and no handler that no renewal could keep, its pool stopping or its
      claim replaced by a late take-over, outlives its lease into a recovery. */
  lemma RenewalKeepsExclusion(maxRetries: nat, ttl: nat, run: seq<Event>)
    requires After(Init(maxRetries, ttl), run).Some? && ttl > 0 && PunctualRun(Init(maxRetries, ttl), run)
    ensures AlwaysExclusive(Init(maxRetries, ttl), run) <==> NeverGivesAway(Init(maxRetries, ttl), run)
  {
    RunUnderRenewal(maxRetries, ttl, run);
  }

  /** Then two handlers of the job never run at once, the row is not pending under a handler and runs only
      under its claim, and a handler that can be kept has a live lease. */
  lemma OneHandlerAcrossPools(maxRetries: nat, ttl: nat, run: seq<Event>, v: Worker, w: Worker)
    requires After(Init(maxRetries, ttl), run).Some? && ttl > 0 && PunctualRun(Init(maxRetries, ttl), run)
    requires NeverGivesAway(Init(maxRetries, ttl), run)
    requires ActiveAt(After(Init(maxRetries, ttl), run).value, v)
        && ActiveAt(After(Init(maxRetries, ttl), run).value, w)
    ensures v == w
    ensures var s := After(Init(maxRetries, ttl), run).value;
            && s.row.status != Pending && (s.row.status == Running ==> s.row.claim == s.workers[w].claim)
            && (s.row.status == Running && !Unkept(s, w) ==> s.row.lease.Some? && s.now < s.row.lease.value)
  {
    RunUnderRenewal(maxRetries, ttl, run);
    var s := After(Init(maxRetries, ttl), run).value;
    if s.row.status == Running {
      RecoveryFindsOnlyOutlived(Init(maxRetries, ttl), run, s, w);
    }
  }

  // ---- Who settles a handler's row ----

  /** A worker that never got its lease, and whose retry was refused or errored, fails the job by id. */
  predicate StrayFail(s: State, e: Event) {
    && e.By? && e.worker in s.workers && s.workers[e.worker].Settling?
    && s.workers[e.worker].action == Fail && !s.workers[e.worker].leased && e.step == Settle(true)
  }

  /** Worker v, which got its lease, completes or fails the job, by id. */
  predicate Settlement(s: State, e: Event, v: Worker) {
    && e == By(v, Settle(true)) && v in s.workers && s.workers[v].Settling? && s.workers[v].leased
    && (s.workers[v].action == Complete || s.workers[v].action == Fail)
  }

  ghost predicate SomeonesSettlement(s: State, e: Event) {
    exists v :: ActiveAt(s, v) && Settlement(s, e, v)
  }

  /** In any run a running row is completed or failed by a worker that handled the job or by a stray fail,
      and by nothing else. While exclusion holds that worker is the row's own handler. */
  lemma SettledByAHandlerOrAStrayFail(maxRetries: nat, ttl: nat, run: seq<Event>, s: State, e: Event, s': State)
    requires After(Init(maxRetries, ttl), run) == Some(s) && Apply(s, e) == Some(s') && s.row.status == Running
    ensures s'.row.status == Completed || s'.row.status == Failed <==> SomeonesSettlement(s, e) || StrayFail(s, e)
    ensures Exclusive(s) && SomeonesSettlement(s, e) ==> forall w :: ActiveAt(s, w) ==> Settlement(s, e, w)
  {
    PoolRun(maxRetries, ttl, run);
    StepSettles(s, e, s');
  }

  lemma StepSettles(s: State, e: Event, s': State)
    requires ClaimsUnique(s) && Apply(s, e) == Some(s') && s.row.status == Running
    ensures s'.row.status == Completed || s'.row.status == Failed <==> SomeonesSettlement(s, e) || StrayFail(s, e)
  {
    match e
    case Env(step) =>
    case For(c, step) => WatchersMoveNobody(s, c, step, s');
    case By(v, step) =>
      if step.Settle? {
        SettlerSettles(s, v, step.ok, s');
        assert Settlement(s, e, v) ==> SomeonesSettlement(s, e);
      } else {
        WorkKeepsStatus(s, v, step, s');
      }
  }

  lemma SettlerSettles(s: State, v: Worker, ok: bool, s': State)
    requires ClaimsUnique(s) && WorkerApply(s, v, Settle(ok)) == Some(s') && s.row.status == Running
    ensures s'.row.status == Completed || s'.row.status == Failed
       <==> Settlement(s, By(v, Settle(ok)), v) || StrayFail(s, By(v, Settle(ok)))
    ensures Settlement(s, By(v, Settle(ok)), v) ==> ActiveAt(s, v)
  {
  }

  lemma WorkKeepsStatus(s: State, v: Worker, step: WorkerStep, s': State)
    requires WorkerApply(s, v, step) == Some(s') && !step.Settle? && s.row.status == Running
    ensures s'.row.status == Running
  {
  }

  // ---- No job is lost ----

  /** A job left running with nobody on it (a crash, a shutdown, a lost lease, or a take-over handed to
      a handler that had just returned) is two steps from pending: its lease runs out, if it has one,
      and stale recovery requeues it. */
  lemma AbandonedJobIsRecoverable(s: State) returns (d: nat, s': State)
    requires s.row.status == Running && !SomeoneActive(s)
    ensures After(s, [Env(Tick(d)), Env(Recover)]) == Some(s')
    ensures PunctualRun(s, [Env(Tick(d)), Env(Recover)]) && NeverGivesAway(s, [Env(Tick(d)), Env(Recover)])
    ensures s'.row == Requeued(s.row) && s'.workers == s.workers
  {
    d := if s.row.lease.Some? && s.row.lease.value > s.now then s.row.lease.value - s.now else 0;
    var later := s.(now := s.now + d);
    s' := later.(row := Requeued(s.row));
    AfterOne(s, [], Env(Tick(d)), s, later);
    assert [] + [Env(Tick(d))] == [Env(Tick(d))];
    assert forall w :: ActiveAt(later, w) <==> ActiveAt(s, w);
    AfterOne(s, [Env(Tick(d))], Env(Recover), later, s');
    assert [Env(Tick(d))] + [Env(Recover)] == [Env(Tick(d)), Env(Recover)];
  }

  // ---- The premises are needed ----

  /** Worker w acquires the pending job, enters it in its pool and takes its first lease. */
  lemma StartHandler(s: State, run: seq<Event>, mid: State, w: Worker) returns (run': seq<Event>, s': State)
    requires After(s, run) == Some(mid)
    requires w !in mid.workers && w.pool !in mid.inflight && w.pool !in mid.stopped && mid.row.status == Pending
    ensures run' == run + [By(w, Acquire), By(w, LoadOrStore), By(w, FirstLease(true))] && After(s, run') == Some(s')
    ensures s'.workers == mid.workers[w := Handling(mid.minted + 1, NoCause)]
    ensures s'.row == Row(Running, mid.minted + 1, Some(mid.now + mid.ttl), mid.row.retries, mid.row.maxRetries)
    ensures s'.inflight == mid.inflight[w.pool := mid.minted + 1] && s'.minted == mid.minted + 1
    ensures s'.now == mid.now && s'.ttl == mid.ttl && s'.stopped == mid.stopped
    ensures s'.tokens == mid.tokens[mid.minted + 1 := mid.minted + 1]
    ensures s'.watchers == mid.watchers[mid.minted + 1 := Watcher(w, Ticking)]
    ensures PunctualRun(s, run) ==> PunctualRun(s, run')
    ensures NeverGivesAway(s, run) ==> NeverGivesAway(s, run')
    ensures RenewedAt(s, run', mid.minted + 1) == mid.now
  {
    var s1 := WorkerApply(mid, w, Acquire).value;
    AfterOne(s, run, By(w, Acquire), mid, s1);
    var s2 := WorkerApply(s1, w, LoadOrStore).value;
    AfterOne(s, run + [By(w, Acquire)], By(w, LoadOrStore), s1, s2);
    s' := WorkerApply(s2, w, FirstLease(true)).value;
    AfterOne(s, run + [By(w, Acquire)] + [By(w, LoadOrStore)], By(w, FirstLease(true)), s2, s');
    run' := run + [By(w, Acquire)] + [By(w, LoadOrStore)] + [By(w, FirstLease(true))];
  }

  /** No store call failed, and nothing was settled. */
  predicate AllAnswered(e: Event) {
    match e
    case Env(_) => true
    case By(_, FirstLease(ok)) => ok
    case By(_, LeaseTaken(ok)) => ok
    case By(_, step) => !step.Settle?
    case For(_, Renew(ok)) => ok
    case For(_, Ask(ok)) => ok
    case For(_, _) => true
  }

  /** u acquires the job but is slow; recovery requeues the still unleased row, and v starts a handler. */
  lemma SlowAcquirer(maxRetries: nat, ttl: nat, u: Worker, v: Worker) returns (run: seq<Event>, s: State)
    requires u != v
    ensures After(Init(maxRetries, ttl), run) == Some(s)
    ensures PunctualRun(Init(maxRetries, ttl), run) && NeverGivesAway(Init(maxRetries, ttl), run)
    ensures forall e :: e in run ==> AllAnswered(e) && (e.By? || e == Env(Recover))
    ensures s.workers == map[u := Acquired(1), v := Handling(2, NoCause)] && s.watchers == map[2 := Watcher(v, Ticking)]
    ensures s.tokens == map[2 := 2] && s.inflight == map[v.pool := 2] && s.stopped == {} && s.minted == 2
    ensures s.row == Row(Running, 2, Some(ttl), 0, maxRetries) && s.now == 0 && s.ttl == ttl
    ensures RenewedAt(Init(maxRetries, ttl), run, 2) == 0
  {
    var s0 := Init(maxRetries, ttl);
    var s1 := WorkerApply(s0, u, Acquire).value;
    AfterOne(s0, [], By(u, Acquire), s0, s1);
    var s2 := s1.(row := Requeued(s1.row));
    run := [] + [By(u, Acquire)];
    AfterOne(s0, run, Env(Recover), s1, s2);
    run := run + [Env(Recover)];
    run, s := StartHandler(s0, run, s2, v);
  }

  /** Time passes the end of the row's lease and recovery requeues the job. */
  lemma LeaseEnds(s: State, run: seq<Event>, mid: State, d: nat) returns (run': seq<Event>, s': State)
    requires After(s, run) == Some(mid) && mid.row.status == Running
    requires mid.row.lease.Some? ==> mid.row.lease.value <= mid.now + d
    ensures run' == run + [Env(Tick(d)), Env(Recover)] && After(s, run') == Some(s')
    ensures s' == mid.(now := mid.now + d, row := Requeued(mid.row))
    ensures PunctualRun(s, run) && (forall v :: ActiveAt(mid, v) ==> !Watched(mid, v)) ==> PunctualRun(s, run')
  {
    var later := mid.(now := mid.now + d);
    AfterOne(s, run, Env(Tick(d)), mid, later);
    s' := later.(row := Requeued(later.row));
    AfterOne(s, run + [Env(Tick(d))], Env(Recover), later, s');
    run' := run + [Env(Tick(d))] + [Env(Recover)];
  }

  /** Time passes the end of the row's lease, recovery requeues the job, and x of another pool starts a
      handler beside w's. That is punctual when nobody watches a handler any more. */
  lemma SecondHandlerStarts(s: State, run: seq<Event>, mid: State, d: nat, w: Worker, x: Worker)
    returns (run': seq<Event>, s': State)
    requires After(s, run) == Some(mid) && mid.row.status == Running
    requires mid.row.lease.Some? ==> mid.row.lease.value <= mid.now + d
    requires w in mid.workers && mid.workers[w].Handling?
    requires x !in mid.workers && x.pool !in mid.inflight && x.pool !in mid.stopped
    ensures After(s, run') == Some(s')
    ensures x != w && s'.workers == mid.workers[x := Handling(mid.minted + 1, NoCause)]
    ensures s'.row.status == Running && s'.row.claim == mid.minted + 1
    ensures PunctualRun(s, run) && (forall v :: ActiveAt(mid, v) ==> !Watched(mid, v)) ==> PunctualRun(s, run')
    ensures run' == run + [Env(Tick(d)), Env(Recover), By(x, Acquire), By(x, LoadOrStore), By(x, FirstLease(true))]
  {
    var pending;
    run', pending := LeaseEnds(s, run, mid, d);
    run', s' := StartHandler(s, run', pending, x);
  }

  /** Without renewal in time: the first handler's lease runs out, recovery requeues the job and a
      second pool starts it while the first is still at it. */
  lemma LateRenewalStartsSecondHandler(maxRetries: nat, ttl: nat, v: Worker, w: Worker)
    returns (run: seq<Event>, s: State)
    requires v.pool != w.pool
    ensures After(Init(maxRetries, ttl), run) == Some(s)
    ensures v in s.workers && w in s.workers && s.workers[v].Handling? && s.workers[w].Handling?
    ensures forall e :: e in run ==> e.By? || e == Env(Tick(ttl)) || e == Env(Recover)
  {
    var s0 := Init(maxRetries, ttl);
    var s1;
    run, s1 := StartHandler(s0, [], s0, v);
    run, s := SecondHandlerStarts(s0, run, s1, ttl, v, w);
  }

  /** A handler whose job has been given to another pool returns and completes it all the same. */
  lemma HandlerCompletes(s: State, run: seq<Event>, mid: State, v: Worker) returns (run': seq<Event>, s': State)
    requires After(s, run) == Some(mid) && v in mid.workers && mid.workers[v].Handling?
    ensures run' == run + [By(v, Return(Succeeded)), By(v, Decide), By(v, Settle(true))] && After(s, run') == Some(s')
    ensures s'.row == mid.row.(status := Completed) && s'.workers == mid.workers[v := Settled(mid.workers[v].claim)]
  {
    var s1 := WorkerApply(mid, v, Return(Succeeded)).value;
    AfterOne(s, run, By(v, Return(Succeeded)), mid, s1);
    var s2 := WorkerApply(s1, v, Decide).value;
    AfterOne(s, run + [By(v, Return(Succeeded))], By(v, Decide), s1, s2);
    s' := WorkerApply(s2, v, Settle(true)).value;
    AfterOne(s, run + [By(v, Return(Succeeded))] + [By(v, Decide)], By(v, Settle(true)), s2, s');
    run' := run + [By(v, Return(Succeeded))] + [By(v, Decide)] + [By(v, Settle(true))];
  }

  /** Without exclusion the settlement need not be the row's own handler's: the first handler's lease runs
      out, a second pool starts the job, and the first then completes it by id while the second is at it. */
  lemma RivalSettlesAnothersRun(maxRetries: nat, ttl: nat, v: Worker, w: Worker) returns (run: seq<Event>, s: State)
    requires v.pool != w.pool
    ensures After(Init(maxRetries, ttl), run) == Some(s) && s.row.status == Completed
    ensures w in s.workers && s.workers[w] == Handling(s.row.claim, NoCause)
  {
    var s0 := Init(maxRetries, ttl);
    var s1, s2;
    run, s1 := StartHandler(s0, [], s0, v);
    run, s2 := SecondHandlerStarts(s0, run, s1, ttl, v, w);
    run, s := HandlerCompletes(s0, run, s2, v);
  }

  /** An operator cancels a job and retries it before its handler's watcher looks: the row is pending under
      the handler, and another pool starts a second one. No time passes and every store call is answered. */
  lemma OperatorRetryStartsSecondHandler(maxRetries: nat, ttl: nat, w: Worker, x: Worker)
    returns (run: seq<Event>, s: State)
    requires w.pool != x.pool && maxRetries > 0
    ensures After(Init(maxRetries, ttl), run) == Some(s) && PunctualRun(Init(maxRetries, ttl), run)
    ensures forall e :: e in run ==> AllAnswered(e)
    ensures w in s.workers && x in s.workers && s.workers[w].Handling? && s.workers[x].Handling?
  {
    var s0 := Init(maxRetries, ttl);
    var s1;
    run, s1 := FirstHandler(maxRetries, ttl, w);
    var s2 := s1.(row := s1.row.(status := Cancelled));
    AfterOne(s0, run, Env(Cancel), s1, s2);
    run := run + [Env(Cancel)];
    var s3 := s2.(row := Retried(s2.row));
    AfterOne(s0, run, Env(OperatorRetry), s2, s3);
    run := run + [Env(OperatorRetry)];
    run, s := StartHandler(s0, run, s3, x);
  }

  /** A worker enters the job in its pool, but its first lease attempt errors. */
  lemma FirstLeaseErrors(s: State, run: seq<Event>, mid: State, u: Worker) returns (run': seq<Event>, s': State)
    requires After(s, run) == Some(mid)
    requires u in mid.workers && mid.workers[u].Acquired? && u.pool !in mid.inflight
    ensures run' == run + [By(u, LoadOrStore), By(u, FirstLease(false))] && After(s, run') == Some(s')
    ensures s'.workers == mid.workers[u := Settling(mid.workers[u].claim, Retry, false)]
    ensures s'.inflight == mid.inflight[u.pool := mid.workers[u].claim]
    ensures s'.row == mid.row && s'.stopped == mid.stopped && s'.minted == mid.minted && s'.now == mid.now
    ensures PunctualRun(s, run) ==> PunctualRun(s, run')
    ensures NeverGivesAway(s, run) ==> NeverGivesAway(s, run')
  {
    var s1 := WorkerApply(mid, u, LoadOrStore).value;
    AfterOne(s, run, By(u, LoadOrStore), mid, s1);
    s' := WorkerApply(s1, u, FirstLease(false)).value;
    AfterOne(s, run + [By(u, LoadOrStore)], By(u, FirstLease(false)), s1, s');
    run' := run + [By(u, LoadOrStore)] + [By(u, FirstLease(false))];
  }

  /** A worker that acquired an earlier claim, and whose first lease attempt now errors, requeues the
      job under whoever has it. */
  lemma StrayRetryRequeues(s: State, run: seq<Event>, mid: State, u: Worker) returns (run': seq<Event>, s': State)
    requires After(s, run) == Some(mid)
    requires u in mid.workers && mid.workers[u].Acquired? && u.pool !in mid.inflight
        && mid.row.retries < mid.row.maxRetries
    ensures run' == run + [By(u, LoadOrStore), By(u, FirstLease(false)), By(u, Settle(true))]
    ensures After(s, run') == Some(s')
    ensures s'.workers == mid.workers[u := Settled(mid.workers[u].claim)]
    ensures s'.row.status == Pending && s'.inflight == mid.inflight[u.pool := mid.workers[u].claim]
    ensures s'.stopped == mid.stopped && s'.minted == mid.minted && s'.now == mid.now
  {
    var tried, s2 := FirstLeaseErrors(s, run, mid, u);
    s' := WorkerApply(s2, u, Settle(true)).value;
    AfterOne(s, tried, By(u, Settle(true)), s2, s');
    run' := tried + [By(u, Settle(true))];
  }

  /** Renewing in time is not enough by itself. u acquires the job but is slow; recovery requeues the
      still unleased row, and v takes it and renews. When u's first lease attempt then errors, u
      requeues the job by its id, under v's handler, and w starts a second one. No time passes. */
  lemma StrayRetryStartsSecondHandler(maxRetries: nat, ttl: nat, u: Worker, v: Worker, w: Worker)
    returns (run: seq<Event>, s: State)
    requires maxRetries > 0 && u.pool != v.pool && v.pool != w.pool && u.pool != w.pool
    ensures After(Init(maxRetries, ttl), run) == Some(s)
    ensures v in s.workers && w in s.workers && s.workers[v].Handling? && s.workers[w].Handling?
    ensures s.now == 0 && forall e :: e in run ==> e.By? || e == Env(Recover)
  {
    var s1, s2;
    run, s1 := SlowAcquirer(maxRetries, ttl, u, v);
    run, s2 := StrayRetryRequeues(Init(maxRetries, ttl), run, s1, u);
    run, s := StartHandler(Init(maxRetries, ttl), run, s2, w);
  }

  // ---- What a handler is told ----

  /** Tokens are minted ones, and one found unheld stays so: no claim is handed out twice. */
  ghost predicate UnheldStays(s: State) {
    && (forall c :: c in s.tokens ==> s.tokens[c] <= s.minted)
    && (forall c :: c in s.watchers && s.watchers[c].watch.Renewing? ==> s.watchers[c].watch.token <= s.minted)
    && (forall c :: c in s.watchers && s.watchers[c].watch.Unheld? ==>
          s.watchers[c].watch.token <= s.minted && !Holds(s.row, s.watchers[c].watch.token))
  }

  /** A step that starts no run under an old claim and leaves tokens and watchers alone, or drops some. */
  ghost predicate NoOldClaim(s: State, s': State) {
    && s.minted <= s'.minted
    && (forall t: Claim :: t <= s.minted && Holds(s'.row, t) ==> Holds(s.row, t))
    && (forall c :: c in s'.watchers ==>
        (c in s.watchers && s'.watchers[c] == s.watchers[c]) || s'.watchers[c].watch == Ticking)
    && (forall c :: c in s'.tokens ==> (c in s.tokens && s'.tokens[c] == s.tokens[c]) || s'.tokens[c] <= s'.minted)
  }

  lemma NoOldClaimKeeps(s: State, s': State)
    requires UnheldStays(s) && NoOldClaim(s, s')
    ensures UnheldStays(s')
  {
  }

  lemma WorkerKeepsRowsClaim(s: State, w: Worker, step: WorkerStep, s': State, t: Claim)
    requires WorkerApply(s, w, step) == Some(s') && t <= s.minted && Holds(s'.row, t)
    ensures Holds(s.row, t)
  {
  }

  lemma WorkerKeepsTokens(s: State, w: Worker, step: WorkerStep, s': State)
    requires ClaimsUnique(s) && WorkerApply(s, w, step) == Some(s')
    ensures s.minted <= s'.minted
    ensures forall c :: c in s'.watchers ==>
        (c in s.watchers && s'.watchers[c] == s.watchers[c]) || s'.watchers[c].watch == Ticking
    ensures forall c :: c in s'.tokens ==> (c in s.tokens && s'.tokens[c] == s.tokens[c]) || s'.tokens[c] <= s'.minted
  {
  }

  lemma WorkerStartsNoOldClaim(s: State, w: Worker, step: WorkerStep, s': State)
    requires ClaimsUnique(s) && WorkerApply(s, w, step) == Some(s')
    ensures NoOldClaim(s, s')
  {
    WorkerKeepsTokens(s, w, step, s');
    forall t: Claim | t <= s.minted && Holds(s'.row, t) ensures Holds(s.row, t) {
      WorkerKeepsRowsClaim(s, w, step, s', t);
    }
  }

  lemma EnvStartsNoOldClaim(s: State, step: EnvStep, s': State)
    requires EnvApply(s, step) == Some(s')
    ensures NoOldClaim(s, s')
  {
  }

  lemma WatchersTakeNoClaim(s: State, c: Claim, step: WatcherStep, s': State)
    requires WatcherApply(s, c, step) == Some(s')
    ensures s'.minted == s.minted && s'.tokens == s.tokens
    ensures forall t: Claim :: Holds(s'.row, t) ==> Holds(s.row, t)
    ensures forall d :: d in s'.watchers && d != c ==> d in s.watchers && s'.watchers[d] == s.watchers[d]
  {
  }

  lemma WatcherKeepsUnheld(s: State, c: Claim, step: WatcherStep, s': State)
    requires UnheldStays(s) && WatcherApply(s, c, step) == Some(s')
    ensures UnheldStays(s')
  {
    WatchersTakeNoClaim(s, c, step, s');
  }

  lemma {:induction false} UnheldRun(maxRetries: nat, ttl: nat, run: seq<Event>)
    requires After(Init(maxRetries, ttl), run).Some?
    ensures UnheldStays(After(Init(maxRetries, ttl), run).value)
  {
    if run != [] {
      var before, e := run[..|run| - 1], run[|run| - 1];
      UnheldRun(maxRetries, ttl, before);
      PoolRun(maxRetries, ttl, before);
      var mid, s' := After(Init(maxRetries, ttl), before).value, After(Init(maxRetries, ttl), run).value;
      match e
      case Env(step) =>
        EnvStartsNoOldClaim(mid, step, s');
        NoOldClaimKeeps(mid, s');
      case By(w, step) =>
        WorkerStartsNoOldClaim(mid, w, step, s');
        NoOldClaimKeeps(mid, s');
      case For(c, step) => WatcherKeepsUnheld(mid, c, step, s');
    }
  }

  /** Why the context of w's handler is cancelled, while it is in it or has just returned. */
  function CauseOf(s: State, w: Worker): Cause {
    if w in s.workers && (s.workers[w].Handling? || s.workers[w].Returned?) then s.workers[w].cause else NoCause
  }

  /** What a handler is newly told is so in s. */
  ghost predicate ToldTruly(s: State, s': State, w: Worker) {
    CauseOf(s, w) == NoCause ==>
      match CauseOf(s', w)
      case NoCause => true
      case JobCancelled => s.row.status == Cancelled
      case PoolStopped => w.pool in s.stopped
      case LeaseLost => w in s.workers && s.workers[w].claim in s.tokens && !Holds(s.row, s.tokens[s.workers[w].claim])
  }

  // ---- Between the watcher's answer and its telling ----

  /** Worker e.worker hands its own claim to claim object c. */
  predicate HandsTo(s: State, e: Event, c: Claim) {
    && e.By? && e.step == SetToken && e.worker in s.workers
    && s.workers[e.worker].TakingOver? && s.workers[e.worker].handler == c
  }

  /** The claim last handed to claim object c since its watcher last compared its token. */
  function HandedSince(s: State, run: seq<Event>, c: Claim): Option<Claim> {
    if run == [] then None
    else
      var before, e := run[..|run| - 1], run[|run| - 1];
      match After(s, before)
      case None => None
      case Some(mid) =>
        if e == For(c, Compare) then None
        else if HandsTo(mid, e, c) then Some(mid.workers[e.worker].claim)
        else HandedSince(s, before, c)
  }

  /** A settlement or retry, by id, that takes effect whatever the row's status. */
  predicate Rewrites(s: State, e: Event) {
    || e == Env(OperatorRetry)
    || (&& e.By? && e.step == Settle(true) && e.worker in s.workers && s.workers[e.worker].Settling?
        && (var a := s.workers[e.worker].action;
            a == Complete || a == Fail || (a == Retry && s.row.retries < s.row.maxRetries)))
  }

  /** Once c's watcher is answered that the job is cancelled: that nobody has rewritten the row since, or
      it was cancelled again after that. */
  function StandsCancelled(s: State, run: seq<Event>, c: Claim): bool {
    if run == [] then false
    else
      var before, e := run[..|run| - 1], run[|run| - 1];
      match After(s, before)
      case None => false
      case Some(mid) =>
        if e == Env(Cancel) || Answers(e, c) then true else !Rewrites(mid, e) && StandsCancelled(s, before, c)
  }

  predicate Answers(e: Event, c: Claim) {
    e == For(c, Poll) || e == For(c, Ask(true))
  }

  lemma HistoryOfOne(s: State, run: seq<Event>, e: Event, mid: State, c: Claim)
    requires After(s, run) == Some(mid)
    ensures HandedSince(s, run + [e], c)
         == if e == For(c, Compare) then None
            else if HandsTo(mid, e, c) then Some(mid.workers[e.worker].claim) else HandedSince(s, run, c)
    ensures StandsCancelled(s, run + [e], c)
       <==> e == Env(Cancel) || Answers(e, c) || (!Rewrites(mid, e) && StandsCancelled(s, run, c))
  {
    assert (run + [e])[..|run + [e]| - 1] == run;
  }

  lemma CancelledUntilRewritten(s: State, e: Event, s': State)
    requires Apply(s, e) == Some(s')
    ensures s'.row.status == Cancelled <==> e == Env(Cancel) || (s.row.status == Cancelled && !Rewrites(s, e))
  {
    match e
    case Env(step) =>
    case By(w, step) =>
      if step.Settle? {
        SettlementRewrites(s, w, s.workers[w], step.ok);
      }
    case For(c, step) => WatchersMoveNobody(s, c, step, s');
  }

  lemma SettlementRewrites(s: State, w: Worker, p: Phase, ok: bool)
    requires w in s.workers && s.workers[w] == p && p.Settling?
    ensures var s' := SettleApply(s, w, p, ok);
            s'.row.status == Cancelled <==> s.row.status == Cancelled && !Rewrites(s, By(w, Settle(ok)))
  {
  }

  /** w's handler is at work or has just returned. */
  predicate AtWork(s: State, w: Worker) {
    w in s.workers && (s.workers[w].Handling? || s.workers[w].Returned?)
  }

  /** What w's watcher is about to tell, given the claim handed to its object since it compared, and whether
      the cancellation it was answered still stands. */
  predicate Foretold(s: State, w: Worker, handed: Option<Claim>, stands: bool)
    requires w in s.workers
  {
    var c := s.workers[w].claim;
    && c in s.tokens && c in s.watchers && s.watchers[c].owner == w
    && (var watch := s.watchers[c].watch;
        && (watch == Telling(JobCancelled) ==> (s.row.status == Cancelled <==> stands))
        && (watch == Telling(PoolStopped) ==> w.pool in s.stopped)
        && (watch == Asking || watch == Telling(LeaseLost) ==>
              if handed.Some? then s.tokens[c] == handed.value else !Holds(s.row, s.tokens[c])))
  }

  ghost predicate AllForetold(s0: State, run: seq<Event>, s: State) {
    forall w :: AtWork(s, w) ==> ForetoldAfter(s0, run, s, w)
  }

  lemma EnvForetells(s: State, step: EnvStep, s': State, w: Worker, handed: Option<Claim>, stands: bool)
    requires UnheldStays(s) && EnvApply(s, step) == Some(s') && AtWork(s, w) && AtWork(s', w)
        && Foretold(s, w, handed, stands)
    ensures Foretold(s', w, handed, step == Cancel || (step != OperatorRetry && stands))
  {
    CancelledUntilRewritten(s, Env(step), s');
    EnvStartsNoOldClaim(s, step, s');
  }

  lemma OthersForetell(s: State, v: Worker, step: WorkerStep, s': State, w: Worker, handed: Option<Claim>, stands: bool)
    requires ClaimsUnique(s) && UnheldStays(s) && WorkerApply(s, v, step) == Some(s') && v != w
    requires AtWork(s, w) && Foretold(s, w, handed, stands)
    ensures AtWork(s', w) && s'.workers[w] == s.workers[w]
    ensures Foretold(s', w, if HandsTo(s, By(v, step), s.workers[w].claim) then Some(s.workers[v].claim) else handed,
                     !Rewrites(s, By(v, step)) && stands)
  {
    OneStays(s, v, step, s', w);
    OthersLeaveWatcher(s, v, step, s', s.workers[w].claim, w);
    CancelledUntilRewritten(s, By(v, step), s');
    WorkerStartsNoOldClaim(s, v, step, s');
    TokenHanded(s, v, step, s', s.workers[w].claim, w);
  }

  lemma TokenHanded(s: State, v: Worker, step: WorkerStep, s': State, c: Claim, w: Worker)
    requires ClaimsUnique(s) && WorkerApply(s, v, step) == Some(s') && v != w
    requires w in s.workers && s.workers[w].claim == c && c in s.tokens
    ensures c in s'.tokens && s'.tokens[c] == if HandsTo(s, By(v, step), c) then s.workers[v].claim else s.tokens[c]
  {
  }

  lemma OwnStepForetells(s: State, w: Worker, step: WorkerStep, s': State, handed: Option<Claim>, stands: bool)
    requires TokensOwned(s) && WorkerApply(s, w, step) == Some(s') && AtWork(s', w)
    requires AtWork(s, w) ==> Foretold(s, w, handed, stands)
    ensures s.workers[w].claim == s'.workers[w].claim && Foretold(s', w, handed, stands)
    ensures !HandsTo(s, By(w, step), s'.workers[w].claim) && !Rewrites(s, By(w, step))
  {
  }

  lemma WatcherForetells(s: State, d: Claim, step: WatcherStep, s': State, w: Worker, handed: Option<Claim>,
      stands: bool)
    requires UnheldStays(s) && WatcherApply(s, d, step) == Some(s') && AtWork(s, w) && Foretold(s, w, handed, stands)
    ensures AtWork(s', w) && s'.workers[w].claim == s.workers[w].claim
    ensures var c := s.workers[w].claim;
            Foretold(s', w, if d == c && step == Compare then None else handed, Answers(For(d, step), c) || stands)
  {
    WatchersTakeNoClaim(s, d, step, s');
    WatchersKeepTime(s, d, step, s');
    CancelledUntilRewritten(s, For(d, step), s');
  }

  /** What is foretold for w after a run. */
  ghost predicate ForetoldAfter(s0: State, run: seq<Event>, s: State, w: Worker)
    requires w in s.workers
  {
    var c := s.workers[w].claim;
    Foretold(s, w, HandedSince(s0, run, c), StandsCancelled(s0, run, c))
  }

  lemma EnvForetellsNext(s0: State, run: seq<Event>, s: State, step: EnvStep, s': State, w: Worker)
    requires After(s0, run) == Some(s) && EnvApply(s, step) == Some(s') && AtWork(s', w) && UnheldStays(s)
    requires AtWork(s, w) ==> ForetoldAfter(s0, run, s, w)
    ensures ForetoldAfter(s0, run + [Env(step)], s', w)
  {
    var c := s'.workers[w].claim;
    assert AtWork(s, w) && s.workers[w].claim == c;
    HistoryOfOne(s0, run, Env(step), s, c);
    EnvForetells(s, step, s', w, HandedSince(s0, run, c), StandsCancelled(s0, run, c));
  }

  lemma WatcherForetellsNext(s0: State, run: seq<Event>, s: State, d: Claim, step: WatcherStep, s': State, w: Worker)
    requires After(s0, run) == Some(s) && WatcherApply(s, d, step) == Some(s') && AtWork(s', w) && UnheldStays(s)
    requires AtWork(s, w) ==> ForetoldAfter(s0, run, s, w)
    ensures ForetoldAfter(s0, run + [For(d, step)], s', w)
  {
    var c := s'.workers[w].claim;
    WatchersLeaveAtWork(s, d, step, s', w);
    HistoryOfOne(s0, run, For(d, step), s, c);
    WatcherForetells(s, d, step, s', w, HandedSince(s0, run, c), StandsCancelled(s0, run, c));
  }

  lemma WorkerForetellsNext(s0: State, run: seq<Event>, s: State, v: Worker, step: WorkerStep, s': State, w: Worker)
    requires After(s0, run) == Some(s) && WorkerApply(s, v, step) == Some(s') && AtWork(s', w)
    requires ClaimsUnique(s) && UnheldStays(s) && TokensOwned(s)
    requires AtWork(s, w) ==> ForetoldAfter(s0, run, s, w)
    ensures ForetoldAfter(s0, run + [By(v, step)], s', w)
  {
    var c := s'.workers[w].claim;
    var handed, stands := HandedSince(s0, run, c), StandsCancelled(s0, run, c);
    HistoryOfOne(s0, run, By(v, step), s, c);
    if v == w {
      OwnStepForetells(s, w, step, s', handed, stands);
    } else {
      OneStays(s, v, step, s', w);
      OthersForetell(s, v, step, s', w, handed, stands);
    }
  }

  lemma StepForetells(s0: State, run: seq<Event>, s: State, e: Event, s': State)
    requires After(s0, run) == Some(s) && Apply(s, e) == Some(s') && AllForetold(s0, run, s)
    requires ClaimsUnique(s) && UnheldStays(s) && TokensOwned(s)
    ensures AllForetold(s0, run + [e], s')
  {
    forall w | AtWork(s', w) ensures ForetoldAfter(s0, run + [e], s', w) {
      match e
      case Env(step) => EnvForetellsNext(s0, run, s, step, s', w);
      case For(d, step) => WatcherForetellsNext(s0, run, s, d, step, s', w);
      case By(v, step) => WorkerForetellsNext(s0, run, s, v, step, s', w);
    }
  }

  lemma WatchersLeaveAtWork(s: State, c: Claim, step: WatcherStep, s': State, w: Worker)
    requires WatcherApply(s, c, step) == Some(s') && AtWork(s', w)
    ensures AtWork(s, w) && s.workers[w].claim == s'.workers[w].claim
  {
  }

  lemma {:induction false} RunForetells(maxRetries: nat, ttl: nat, run: seq<Event>)
    requires After(Init(maxRetries, ttl), run).Some?
    ensures AllForetold(Init(maxRetries, ttl), run, After(Init(maxRetries, ttl), run).value)
    ensures TokensOwned(After(Init(maxRetries, ttl), run).value)
  {
    var s0 := Init(maxRetries, ttl);
    if run != [] {
      var before, e := run[..|run| - 1], run[|run| - 1];
      assert before + [e] == run;
      RunForetells(maxRetries, ttl, before);
      PoolRun(maxRetries, ttl, before);
      UnheldRun(maxRetries, ttl, before);
      var mid, s' := After(s0, before).value, After(s0, run).value;
      StepForetells(s0, before, mid, e, s');
      TokensStayOwned(mid, e, s');
    }
  }

  lemma EnvTellsNothing(s: State, step: EnvStep, s': State, w: Worker)
    requires EnvApply(s, step) == Some(s')
    ensures CauseOf(s', w) != NoCause ==> CauseOf(s', w) == CauseOf(s, w)
  {
  }

  lemma SettlerIsToldNothing(s: State, w: Worker, p: Phase, ok: bool)
    requires p.Settling?
    ensures CauseOf(SettleApply(s, w, p, ok), w) == NoCause
  {
  }

  lemma MoverIsToldNothing(s: State, w: Worker, step: WorkerStep, s': State)
    requires WorkerApply(s, w, step) == Some(s')
    ensures CauseOf(s', w) != NoCause ==> CauseOf(s', w) == CauseOf(s, w)
  {
    if step.Settle? {
      SettlerIsToldNothing(s, w, s.workers[w], step.ok);
    }
  }

  /** Only a handler's own watcher tells it anything, in its last step, and it tells what it made up its mind
      to tell. */
  lemma OnlyItsWatcherTells(s: State, e: Event, s': State, w: Worker)
    requires Apply(s, e) == Some(s') && CauseOf(s, w) == NoCause && CauseOf(s', w) != NoCause
    ensures AtWork(s, w) && e == For(s.workers[w].claim, Tell)
    ensures s.workers[w].claim in s.watchers && s.watchers[s.workers[w].claim].watch == Telling(CauseOf(s', w))
  {
    match e
    case Env(step) => EnvTellsNothing(s, step, s', w);
    case By(v, step) =>
      if v == w {
        MoverIsToldNothing(s, w, step, s');
      } else {
        OneStays(s, v, step, s', w);
      }
    case For(c, step) =>
  }

  /** What came between the watcher's answer and its telling: a job found cancelled was settled or retried
      and not cancelled again; or, since the token was compared, a worker of the pool handed the handler's
      claim object the claim the row runs under now. */
  predicate Overtaken(s0: State, run: seq<Event>, s: State, c: Claim, cause: Cause) {
    || (cause == JobCancelled && !StandsCancelled(s0, run, c))
    || (cause == LeaseLost && var handed := HandedSince(s0, run, c); handed.Some? && Holds(s.row, handed.value))
  }

  /** When a handler is told the truth. In any run what it is told is so at that moment, the row cancelled,
      its pool stopping, or the job not running under the token it renews with, if and only if nothing
      overtook the telling: no hand-over of the claim the row runs under since the token was compared, no
      rewriting of the row since it was found cancelled. */
  lemma HandlersAreToldTheTruth(maxRetries: nat, ttl: nat, run: seq<Event>, e: Event, s: State, s': State, w: Worker)
    requires After(Init(maxRetries, ttl), run) == Some(s) && Apply(s, e) == Some(s')
    requires CauseOf(s, w) == NoCause && CauseOf(s', w) != NoCause
    ensures w in s.workers && e == For(s.workers[w].claim, Tell)
    ensures ToldTruly(s, s', w) <==> !Overtaken(Init(maxRetries, ttl), run, s, s.workers[w].claim, CauseOf(s', w))
  {
    OnlyItsWatcherTells(s, e, s', w);
    RunForetells(maxRetries, ttl, run);
  }

  /** Worker v finds its pool running the job and hands the handler its own claim. */
  lemma HandOver(s: State, run: seq<Event>, mid: State, v: Worker) returns (run': seq<Event>, s': State)
    requires After(s, run) == Some(mid)
    requires v in mid.workers && mid.workers[v].Acquired? && v.pool in mid.inflight
    ensures run' == run + [By(v, LoadOrStore), By(v, SetToken)] && After(s, run') == Some(s')
    ensures var c := mid.workers[v].claim;
            s' == MoveTo(mid, v, Extending(c)).(tokens := mid.tokens[mid.inflight[v.pool] := c])
    ensures PunctualRun(s, run) ==> PunctualRun(s, run')
    ensures forall c :: RenewedAt(s, run', c) == RenewedAt(s, run, c)
  {
    var s1 := WorkerApply(mid, v, LoadOrStore).value;
    AfterOne(s, run, By(v, LoadOrStore), mid, s1);
    s' := WorkerApply(s1, v, SetToken).value;
    AfterOne(s, run + [By(v, LoadOrStore)], By(v, SetToken), s1, s');
    run' := run + [By(v, LoadOrStore)] + [By(v, SetToken)];
  }

  /** A handler's watcher renews under a token the row is not held by, and finds the token still its
      handler's. */
  lemma RenewUnheld(s: State, run: seq<Event>, mid: State, w: Worker, c: Claim) returns (run': seq<Event>, s': State)
    requires After(s, run) == Some(mid)
    requires c in mid.watchers && mid.watchers[c] == Watcher(w, Ticking) && c in mid.tokens
        && !Holds(mid.row, mid.tokens[c])
    ensures run' == run + [For(c, ReadToken), For(c, Renew(true)), For(c, Compare)] && After(s, run') == Some(s')
    ensures s' == mid.(watchers := mid.watchers[c := Watcher(w, Asking)])
    ensures PunctualRun(s, run) ==> PunctualRun(s, run')
  {
    var s1 := WatcherApply(mid, c, ReadToken).value;
    AfterOne(s, run, For(c, ReadToken), mid, s1);
    var s2 := WatcherApply(s1, c, Renew(true)).value;
    AfterOne(s, run + [For(c, ReadToken)], For(c, Renew(true)), s1, s2);
    s' := WatcherApply(s2, c, Compare).value;
    AfterOne(s, run + [For(c, ReadToken)] + [For(c, Renew(true))], For(c, Compare), s2, s');
    run' := run + [For(c, ReadToken)] + [For(c, Renew(true))] + [For(c, Compare)];
  }

  /** The job is not cancelled, so the watcher makes up its mind that the lease is lost. */
  lemma AskUncancelled(s: State, run: seq<Event>, mid: State, w: Worker, c: Claim) returns (run': seq<Event>, s': State)
    requires After(s, run) == Some(mid) && mid.row.status != Cancelled
    requires c in mid.watchers && mid.watchers[c] == Watcher(w, Asking) && c in mid.tokens
    ensures run' == run + [For(c, Ask(true))] && After(s, run') == Some(s')
    ensures s' == mid.(watchers := mid.watchers[c := Watcher(w, Telling(LeaseLost))])
    ensures PunctualRun(s, run) ==> PunctualRun(s, run')
  {
    s' := WatcherApply(mid, c, Ask(true)).value;
    run' := run + [For(c, Ask(true))];
    AfterOne(s, run, For(c, Ask(true)), mid, s');
  }

  lemma TellHandler(s: State, run: seq<Event>, mid: State, w: Worker, c: Claim, cause: Cause)
    returns (run': seq<Event>, s': State)
    requires After(s, run) == Some(mid) && w in mid.workers && mid.workers[w] == Handling(c, NoCause)
    requires c in mid.watchers && mid.watchers[c] == Watcher(w, Telling(cause)) && c in mid.tokens
    ensures run' == run + [For(c, Tell)] && After(s, run') == Some(s')
    ensures s' == mid.(workers := mid.workers[w := Handling(c, cause)],
        watchers := mid.watchers[c := Watcher(w, Ended)])
    ensures PunctualRun(s, run) ==> PunctualRun(s, run')
  {
    s' := WatcherApply(mid, c, Tell).value;
    run' := run + [For(c, Tell)];
    AfterOne(s, run, For(c, Tell), mid, s');
  }

  /** All of it: the handler loses a lease its token does not hold. */
  lemma LoseLease(s: State, run: seq<Event>, mid: State, w: Worker, c: Claim) returns (run': seq<Event>, s': State)
    requires After(s, run) == Some(mid) && w in mid.workers && mid.workers[w] == Handling(c, NoCause)
    requires c in mid.watchers && mid.watchers[c] == Watcher(w, Ticking) && c in mid.tokens
        && !Holds(mid.row, mid.tokens[c])
    requires mid.row.status != Cancelled
    ensures run' == run + [For(c, ReadToken), For(c, Renew(true)), For(c, Compare), For(c, Ask(true)), For(c, Tell)]
    ensures After(s, run') == Some(s')
    ensures s' == mid.(workers := mid.workers[w := Handling(c, LeaseLost)],
        watchers := mid.watchers[c := Watcher(w, Ended)])
    ensures PunctualRun(s, run) ==> PunctualRun(s, run')
  {
    var s1, s2;
    run', s1 := RenewUnheld(s, run, mid, w, c);
    run', s2 := AskUncancelled(s, run', s1, w, c);
    run', s' := TellHandler(s, run', s2, w, c, LeaseLost);
  }

  /** What a handler is told may be so only because of what its own pool did. v acquires the job but is
      slow; recovery requeues the still unleased row, and w of the same pool takes it and starts a
      handler. v then finds the pool running the job and hands that handler its own claim, which is no
      longer the row's: the next renewal fails and the handler is stopped, although the row runs under
      the claim it was started with, on a live lease. */
  lemma StaleTakeOverStopsHolder(maxRetries: nat, ttl: nat, v: Worker, w: Worker) returns (run: seq<Event>, s: State)
    requires v != w && v.pool == w.pool && ttl > 0
    ensures After(Init(maxRetries, ttl), run) == Some(s)
    ensures CauseOf(s, w) == LeaseLost
    ensures Holds(s.row, s.workers[w].claim) && s.row.lease == Some(s.now + s.ttl)
  {
    var s1;
    run, s1 := RivalGone(maxRetries, ttl, v, w, 0);
    run, s := LoseLease(Init(maxRetries, ttl), run, s1, w, 2);
  }

  /** v of w's pool takes the pending job that w is still running, hands it to w's handler and leaves it
      to that one, its lease renewed. */
  lemma PoolTakesOver(s: State, run: seq<Event>, mid: State, v: Worker, c: Claim) returns (run': seq<Event>, s': State)
    requires After(s, run) == Some(mid) && mid.row.status == Pending
    requires v !in mid.workers && v.pool !in mid.stopped && v.pool in mid.inflight && mid.inflight[v.pool] == c
    ensures run' == run + [By(v, Acquire), By(v, LoadOrStore), By(v, SetToken), By(v, LeaseTaken(true))]
    ensures After(s, run') == Some(s')
    ensures s' == mid.(minted := mid.minted + 1, tokens := mid.tokens[c := mid.minted + 1],
                       row := mid.row.(status := Running, claim := mid.minted + 1, lease := Some(mid.now + mid.ttl)))
  {
    var s1 := WorkerApply(mid, v, Acquire).value;
    AfterOne(s, run, By(v, Acquire), mid, s1);
    var s2;
    run', s2 := HandOver(s, run + [By(v, Acquire)], s1, v);
    s' := WorkerApply(s2, v, LeaseTaken(true)).value;
    assert s'.workers == mid.workers;
    AfterOne(s, run', By(v, LeaseTaken(true)), s2, s');
    run' := run' + [By(v, LeaseTaken(true))];
  }

  /** The handler's lease runs out, recovery requeues the job, and the watcher's renewal does not hold. */
  lemma LeaseRunsOut(maxRetries: nat, ttl: nat, w: Worker) returns (run: seq<Event>, s: State)
    ensures After(Init(maxRetries, ttl), run) == Some(s) && forall e :: e in run ==> AllAnswered(e)
    ensures s.workers == map[w := Handling(1, NoCause)] && s.inflight == map[w.pool := 1] && s.stopped == {}
    ensures 1 in s.watchers && s.watchers[1] == Watcher(w, Asking) && 1 in s.tokens && s.minted == 1
    ensures s.row.status == Pending && s.ttl == ttl
  {
    var s0 := Init(maxRetries, ttl);
    var s1, s2;
    run, s1 := FirstHandler(maxRetries, ttl, w);
    run, s2 := LeaseEnds(s0, run, s1, ttl);
    run, s := RenewUnheld(s0, run, s2, w, 1);
  }

  /** A take-over between the comparison and the telling makes LeaseLost false. The handler's lease ran out
      and its renewal did not hold; its token is compared, and only then v of its own pool acquires the job
      again, hands the handler the new claim, takes a live lease for it and leaves the job to it. The watcher
      tells the handler all the same, though the job runs under the very token it renews with, and nobody
      else has the job. */
  lemma TakeOverOvertakesTelling(maxRetries: nat, ttl: nat, v: Worker, w: Worker)
    returns (run: seq<Event>, s: State, s': State)
    requires v != w && v.pool == w.pool
    ensures After(Init(maxRetries, ttl), run) == Some(s) && Apply(s, For(1, Tell)) == Some(s')
    ensures forall e :: e in run ==> AllAnswered(e)
    ensures CauseOf(s, w) == NoCause && CauseOf(s', w) == LeaseLost && s.workers.Keys == {w}
    ensures s.workers[w].claim in s.tokens && Holds(s.row, s.tokens[s.workers[w].claim]) && !ToldTruly(s, s', w)
    ensures s'.row == s.row && s.row.lease == Some(s.now + s.ttl)
  {
    var s0 := Init(maxRetries, ttl);
    var s1, s2;
    run, s1 := LeaseRunsOut(maxRetries, ttl, w);
    run, s2 := PoolTakesOver(s0, run, s1, v, 1);
    run, s := AskUncancelled(s0, run, s2, w, 1);
    var told;
    told, s' := TellHandler(s0, run, s, w, 1, LeaseLost);
  }

  /** A retry between the status read and the telling makes JobCancelled false: the job is pending again. */
  lemma RetryOvertakesTelling(maxRetries: nat, ttl: nat, w: Worker) returns (run: seq<Event>, s: State, s': State)
    requires maxRetries > 0
    ensures After(Init(maxRetries, ttl), run) == Some(s) && Apply(s, For(1, Tell)) == Some(s')
    ensures CauseOf(s, w) == NoCause && CauseOf(s', w) == JobCancelled && s.row.status == Pending
  {
    var s0 := Init(maxRetries, ttl);
    var s1;
    run, s1 := FirstHandler(maxRetries, ttl, w);
    var s2 := s1.(row := s1.row.(status := Cancelled));
    AfterOne(s0, run, Env(Cancel), s1, s2);
    run := run + [Env(Cancel)];
    var s3 := WatcherApply(s2, 1, Poll).value;
    AfterOne(s0, run, For(1, Poll), s2, s3);
    run := run + [For(1, Poll)];
    s := s3.(row := Retried(s3.row));
    AfterOne(s0, run, Env(OperatorRetry), s3, s);
    run := run + [Env(OperatorRetry)];
    var told;
    told, s' := TellHandler(s0, run, s, w, 1, JobCancelled);
  }

  /** w's handler and one more worker's claim that v of the same pool acquired before it. */
  lemma HandlerWithLateRival(maxRetries: nat, ttl: nat, v: Worker, w: Worker) returns (run: seq<Event>, s: State)
    requires v != w && v.pool == w.pool && ttl > 0
    ensures After(Init(maxRetries, ttl), run) == Some(s) && PunctualRun(Init(maxRetries, ttl), run)
    ensures forall e :: e in run ==> AllAnswered(e)
    ensures s.workers == map[v := Extending(1), w := Handling(2, NoCause)]
        && s.watchers == map[2 := Watcher(w, Ticking)]
    ensures s.tokens == map[2 := 1] && s.inflight == map[w.pool := 2] && s.stopped == {} && s.minted == 2
    ensures s.row == Row(Running, 2, Some(ttl), 0, maxRetries) && s.now == 0 && s.ttl == ttl
    ensures RenewedAt(Init(maxRetries, ttl), run, 2) == 0
  {
    var s1;
    run, s1 := SlowAcquirer(maxRetries, ttl, v, w);
    run, s := HandOver(Init(maxRetries, ttl), run, s1, v);
  }

  /** The rival leaves with a lease call the store answered, and a third of the lease passes. */
  lemma RivalLeaves(s: State, run: seq<Event>, mid: State, v: Worker, w: Worker, d: nat)
    returns (run': seq<Event>, s': State)
    requires After(s, run) == Some(mid) && v != w && mid.workers == map[v := Extending(1), w := Handling(2, NoCause)]
    requires mid.row.claim == 2 && 2 in mid.watchers && RenewedAt(s, run, 2) == mid.now && d < mid.ttl
    ensures run' == run + [By(v, LeaseTaken(true)), Env(Tick(d))] && After(s, run') == Some(s')
    ensures s' == mid.(workers := map[w := Handling(2, NoCause)], now := mid.now + d)
    ensures PunctualRun(s, run) ==> PunctualRun(s, run')
  {
    var s1 := mid.(workers := map[w := Handling(2, NoCause)]);
    assert mid.workers - {v} == s1.workers;
    AfterOne(s, run, By(v, LeaseTaken(true)), mid, s1);
    s' := s1.(now := s1.now + d);
    AfterOne(s, run + [By(v, LeaseTaken(true))], Env(Tick(d)), s1, s');
    run' := run + [By(v, LeaseTaken(true))] + [Env(Tick(d))];
  }

  lemma RivalGone(maxRetries: nat, ttl: nat, v: Worker, w: Worker, d: nat) returns (run: seq<Event>, s: State)
    requires v != w && v.pool == w.pool && d < ttl
    ensures After(Init(maxRetries, ttl), run) == Some(s) && PunctualRun(Init(maxRetries, ttl), run)
    ensures forall e :: e in run ==> AllAnswered(e)
    ensures s.workers == map[w := Handling(2, NoCause)] && s.inflight.Keys == {w.pool} && s.stopped == {}
    ensures 2 in s.watchers && s.watchers[2] == Watcher(w, Ticking) && 2 in s.tokens && s.tokens[2] == 1
    ensures s.row == Row(Running, 2, Some(ttl), 0, maxRetries) && s.now == d && s.ttl == ttl
  {
    var s1;
    run, s1 := HandlerWithLateRival(maxRetries, ttl, v, w);
    run, s := RivalLeaves(Init(maxRetries, ttl), run, s1, v, w, d);
  }

  /** Renewing in time does not save a handler from a late take-over. v's claim replaces w's in w's own
      handler; a third of the lease later the renewal, answered but not held, stops the handler; it is
      slow to return, the rest of the lease runs out, recovery requeues the job and x of another pool
      starts a second handler. No store call failed and nothing was retried. */
  lemma StaleTakeOverStartsSecondHandler(maxRetries: nat, ttl: nat, v: Worker, w: Worker, x: Worker)
    returns (run: seq<Event>, s: State)
    requires v != w && v.pool == w.pool && x.pool != w.pool && ttl > 0
    ensures After(Init(maxRetries, ttl), run) == Some(s) && PunctualRun(Init(maxRetries, ttl), run)
    ensures w in s.workers && x in s.workers && s.workers[w].Handling? && s.workers[x].Handling?
    ensures forall e :: e in run ==> AllAnswered(e)
  {
    var s0 := Init(maxRetries, ttl);
    var s1, s2;
    run, s1 := RivalGone(maxRetries, ttl, v, w, ttl / 3);
    run, s2 := LoseLease(s0, run, s1, w, 2);
    run, s := SecondHandlerStarts(s0, run, s2, ttl - ttl / 3, w, x);
  }

  lemma FirstHandler(maxRetries: nat, ttl: nat, w: Worker) returns (run: seq<Event>, s: State)
    ensures After(Init(maxRetries, ttl), run) == Some(s) && PunctualRun(Init(maxRetries, ttl), run)
    ensures forall e :: e in run ==> AllAnswered(e)
    ensures s.workers == map[w := Handling(1, NoCause)] && s.watchers == map[1 := Watcher(w, Ticking)]
    ensures s.tokens == map[1 := 1] && s.inflight == map[w.pool := 1] && s.stopped == {} && s.minted == 1
    ensures s.row == Row(Running, 1, Some(ttl), 0, maxRetries) && s.now == 0 && s.ttl == ttl
  {
    run, s := StartHandler(Init(maxRetries, ttl), [], Init(maxRetries, ttl), w);
  }

  /** w's pool stops, its handler is told, and its watcher ends. */
  lemma PoolStops(s: State, run: seq<Event>, mid: State, w: Worker, c: Claim) returns (run': seq<Event>, s': State)
    requires After(s, run) == Some(mid) && w in mid.workers && mid.workers[w] == Handling(c, NoCause)
    requires c in mid.watchers && mid.watchers[c] == Watcher(w, Ticking) && c in mid.tokens
    ensures run' == run + [Env(Stop(w.pool)), For(c, SeeStop), For(c, Tell)] && After(s, run') == Some(s')
    ensures s' == mid.(stopped := mid.stopped + {w.pool}, workers := mid.workers[w := Handling(c, PoolStopped)],
                       watchers := mid.watchers[c := Watcher(w, Ended)])
    ensures PunctualRun(s, run) ==> PunctualRun(s, run')
  {
    var s1 := mid.(stopped := mid.stopped + {w.pool});
    AfterOne(s, run, Env(Stop(w.pool)), mid, s1);
    var s2 := WatcherApply(s1, c, SeeStop).value;
    AfterOne(s, run + [Env(Stop(w.pool))], For(c, SeeStop), s1, s2);
    run', s' := TellHandler(s, run + [Env(Stop(w.pool))] + [For(c, SeeStop)], s2, w, c, PoolStopped);
  }

  /** Nor does it save one whose pool is stopping: the stop ends the renewals, and a handler slow to
      return outlives its lease. */
  lemma StoppingHandlerMeetsSecondHandler(maxRetries: nat, ttl: nat, w: Worker, x: Worker)
    returns (run: seq<Event>, s: State)
    requires x.pool != w.pool && ttl > 0
    ensures After(Init(maxRetries, ttl), run) == Some(s) && PunctualRun(Init(maxRetries, ttl), run)
    ensures w in s.workers && x in s.workers && s.workers[w].Handling? && s.workers[x].Handling?
    ensures forall e :: e in run ==> AllAnswered(e)
  {
    var s0 := Init(maxRetries, ttl);
    var s1, s2;
    run, s1 := FirstHandler(maxRetries, ttl, w);
    run, s2 := PoolStops(s0, run, s1, w, 1);
    run, s := SecondHandlerStarts(s0, run, s2, ttl, w, x);
  }

  /** A settlement by id can settle another's run. u acquires the job but is slow; recovery requeues the
      still unleased row and v of another pool starts a handler. When u's first lease attempt then errors
      and no retry is left, u fails the job under v's handler, which nothing has stopped. Exclusion holds
      throughout. */
  lemma StrayFailSettlesAnothersRun(ttl: nat, u: Worker, v: Worker) returns (run: seq<Event>, s: State)
    requires u.pool != v.pool && ttl > 0
    ensures After(Init(0, ttl), run) == Some(s)
    ensures PunctualRun(Init(0, ttl), run) && NeverGivesAway(Init(0, ttl), run)
    ensures v in s.workers && s.workers[v] == Handling(2, NoCause) && s.row.status == Failed
  {
    var s1;
    run, s1 := SlowAcquirer(0, ttl, u, v);
    run, s := FailUnleased(Init(0, ttl), run, s1, u);
  }

  lemma RetryRefused(s: State, run: seq<Event>, mid: State, u: Worker) returns (run': seq<Event>, s': State)
    requires After(s, run) == Some(mid) && u in mid.workers && mid.workers[u].Settling?
    requires mid.workers[u].action == Retry && !mid.workers[u].leased && mid.row.retries >= mid.row.maxRetries
    ensures After(s, run') == Some(s') && s'.row == mid.row.(status := Failed)
    ensures s'.workers == mid.workers[u := Settled(mid.workers[u].claim)]
    ensures PunctualRun(s, run) ==> PunctualRun(s, run')
    ensures NeverGivesAway(s, run) ==> NeverGivesAway(s, run')
  {
    var s1 := WorkerApply(mid, u, Settle(true)).value;
    AfterOne(s, run, By(u, Settle(true)), mid, s1);
    s' := WorkerApply(s1, u, Settle(true)).value;
    run' := run + [By(u, Settle(true))] + [By(u, Settle(true))];
    AfterOne(s, run + [By(u, Settle(true))], By(u, Settle(true)), s1, s');
  }

  /** u's first lease attempt errors, its retry is refused, and it fails the job. */
  lemma FailUnleased(s: State, run: seq<Event>, mid: State, u: Worker) returns (run': seq<Event>, s': State)
    requires After(s, run) == Some(mid) && u in mid.workers && mid.workers[u].Acquired? && u.pool !in mid.inflight
    requires mid.row.retries >= mid.row.maxRetries
    ensures After(s, run') == Some(s') && s'.row == mid.row.(status := Failed)
    ensures s'.workers == mid.workers[u := Settled(mid.workers[u].claim)]
    ensures PunctualRun(s, run) ==> PunctualRun(s, run')
    ensures NeverGivesAway(s, run) ==> NeverGivesAway(s, run')
  {
    var tried, s2 := FirstLeaseErrors(s, run, mid, u);
    run', s' := RetryRefused(s, tried, s2, u);
  }
}
