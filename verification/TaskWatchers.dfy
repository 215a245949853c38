/** What a handler's watcher does for it, and what is left of a pool that stops or crashes. */
module TaskWatchers {
  import opened TaskLeases
  import opened Wrappers

  // ---- What a watcher does when nothing else happens ----

  /** w is at work under claim c, not told anything yet, its watcher waiting for its next tick. */
  predicate Listening(s: State, w: Worker, c: Claim) {
    && AtWork(s, w) && s.workers[w].claim == c && CauseOf(s, w) == NoCause
    && c in s.tokens && c in s.watchers && s.watchers[c] == Watcher(w, Ticking)
  }

  /** s once c's watcher has told w why to stop. */
  function ToldState(s: State, w: Worker, c: Claim, cause: Cause): State
    requires Listening(s, w, c)
  {
    s.(watchers := s.watchers[c := Watcher(w, Ended)],
       workers := s.workers[w := match s.workers[w]
         case Handling(_, _) => Handling(c, cause)
         case Returned(_, _, outcome) => Returned(c, cause, outcome)
         case p => p])
  }

  /** The steps of c's watcher, one after another. */
  ghost predicate Steps(s: State, c: Claim, steps: seq<WatcherStep>, s': State)
    decreases |steps|
  {
    if steps == [] then s' == s
    else match WatcherApply(s, c, steps[0])
      case None => false
      case Some(next) => Steps(next, c, steps[1..], s')
  }

  /** A watcher about to tell tells its handler, and ends. */
  lemma Tells(s: State, w: Worker, c: Claim, mid: State, cause: Cause)
    requires Listening(s, w, c) && mid == s.(watchers := s.watchers[c := Watcher(w, Telling(cause))])
    ensures Steps(mid, c, [Tell], ToldState(s, w, c, cause))
  {
    assert mid.watchers[c := Watcher(w, Ended)] == s.watchers[c := Watcher(w, Ended)];
    assert WatcherApply(mid, c, Tell) == Some(ToldState(s, w, c, cause));
    assert [Tell][1..] == [];
  }

  /** A cancel, or the pool's stop, reaches a handler at work at its watcher's next look: it is told of
      just that, and nothing else changes. */
  lemma LooksTell(s: State, w: Worker, c: Claim)
    requires Listening(s, w, c)
    ensures s.row.status == Cancelled ==> Steps(s, c, [Poll, Tell], ToldState(s, w, c, JobCancelled))
    ensures w.pool in s.stopped ==> Steps(s, c, [SeeStop, Tell], ToldState(s, w, c, PoolStopped))
  {
    assert [Poll, Tell][1..] == [Tell] && [SeeStop, Tell][1..] == [Tell];
    Tells(s, w, c, s.(watchers := s.watchers[c := Watcher(w, Telling(JobCancelled))]), JobCancelled);
    Tells(s, w, c, s.(watchers := s.watchers[c := Watcher(w, Telling(PoolStopped))]), PoolStopped);
  }

  function Turned(s: State, c: Claim, watch: Watch): State
    requires c in s.watchers
  {
    s.(watchers := s.watchers[c := Watcher(s.watchers[c].owner, watch)])
  }

  lemma TurnsAgain(s: State, c: Claim, a: Watch, b: Watch)
    requires c in s.watchers
    ensures Turned(Turned(s, c, a), c, b) == Turned(s, c, b)
  {
    assert s.watchers[c := Watcher(s.watchers[c].owner, a)][c := Watcher(s.watchers[c].owner, b)]
        == s.watchers[c := Watcher(s.watchers[c].owner, b)];
  }

  lemma StillTicking(s: State, c: Claim)
    requires c in s.watchers && s.watchers[c].watch == Ticking
    ensures Turned(s, c, Ticking) == s
  {
    assert s.watchers[c := s.watchers[c]] == s.watchers;
  }

  /** A renewal at work, left to itself and answered: while the job runs under the token of the handler's
      claim object its lease is a whole ttl again; else the handler is told, of the cancel if the job is
      cancelled, or that the lease is lost. */
  lemma RenewalExtendsOrTells(s: State, w: Worker, c: Claim)
    requires Listening(s, w, c)
    ensures var t := s.tokens[c];
            if t != 0 && s.row.status == Running && s.row.claim == t then
              Steps(s, c, [ReadToken, Renew(true)], s.(row := s.row.(lease := Some(s.now + s.ttl))))
            else
              Steps(s, c, [ReadToken, Renew(true), Compare, Ask(true), Tell],
                    ToldState(s, w, c, if s.row.status == Cancelled then JobCancelled else LeaseLost))
  {
    if Holds(s.row, s.tokens[c]) {
      HeldExtends(s, w, c);
    } else {
      UnheldTells(s, w, c);
    }
  }

  lemma RenewsHeld(s: State, c: Claim, t: Claim)
    requires c in s.watchers && c in s.tokens && s.watchers[c].watch == Renewing(t) && Holds(s.row, t)
    ensures var ticking := Turned(s, c, Ticking);
            WatcherApply(s, c, Renew(true)) == Some(ticking.(row := ticking.row.(lease := Some(s.now + s.ttl))))
  {
  }

  lemma RenewsBack(s: State, c: Claim, t: Claim, mid: State)
    requires c in s.watchers && c in s.tokens && s.watchers[c].watch == Ticking && Holds(s.row, t)
    requires mid == Turned(s, c, Renewing(t))
    ensures WatcherApply(mid, c, Renew(true)) == Some(s.(row := s.row.(lease := Some(s.now + s.ttl))))
  {
    assert Turned(mid, c, Ticking) == s by {
      TurnsAgain(s, c, Renewing(t), Ticking);
      StillTicking(s, c);
    }
    RenewsHeld(mid, c, t);
  }

  lemma ReadsToken(s: State, c: Claim)
    requires c in s.watchers && c in s.tokens && s.watchers[c].watch == Ticking
    ensures WatcherApply(s, c, ReadToken) == Some(Turned(s, c, Renewing(s.tokens[c])))
  {
  }

  lemma TwoSteps(s: State, c: Claim, a: WatcherStep, mid: State, b: WatcherStep, s': State)
    requires WatcherApply(s, c, a) == Some(mid) && WatcherApply(mid, c, b) == Some(s')
    ensures Steps(s, c, [a, b], s')
  {
    assert [a, b][1..] == [b] && [b][1..] == [];
    assert Steps(mid, c, [b], s');
  }

  lemma HeldExtends(s: State, w: Worker, c: Claim)
    requires Listening(s, w, c) && Holds(s.row, s.tokens[c])
    ensures Steps(s, c, [ReadToken, Renew(true)], s.(row := s.row.(lease := Some(s.now + s.ttl))))
  {
    var mid := Turned(s, c, Renewing(s.tokens[c]));
    ReadsToken(s, c);
    RenewsBack(s, c, s.tokens[c], mid);
    TwoSteps(s, c, ReadToken, mid, Renew(true), s.(row := s.row.(lease := Some(s.now + s.ttl))));
  }

  /** What else a renewal meets: with the store not answering, or another token handed to the claim object
      meanwhile, the watcher goes on to its next tick and nothing changes; not being told whether the job is
      cancelled, it takes the lease for lost. */
  lemma RenewalGoesOn(s: State, c: Claim, t: Claim)
    requires c in s.watchers && c in s.tokens
    ensures s.watchers[c].watch == Renewing(t) ==> WatcherApply(s, c, Renew(false)) == Some(Turned(s, c, Ticking))
    ensures s.watchers[c].watch == Unheld(t) && s.tokens[c] != t ==>
        WatcherApply(s, c, Compare) == Some(Turned(s, c, Ticking))
    ensures s.watchers[c].watch == Asking ==> WatcherApply(s, c, Ask(false)) == Some(Turned(s, c, Telling(LeaseLost)))
  {
  }

  lemma UnheldTells(s: State, w: Worker, c: Claim)
    requires Listening(s, w, c) && !Holds(s.row, s.tokens[c])
    ensures Steps(s, c, [ReadToken, Renew(true), Compare, Ask(true), Tell],
                  ToldState(s, w, c, if s.row.status == Cancelled then JobCancelled else LeaseLost))
  {
    var t, cause := s.tokens[c], if s.row.status == Cancelled then JobCancelled else LeaseLost;
    TurnsAgain(s, c, Renewing(t), Unheld(t));
    TurnsAgain(s, c, Unheld(t), Asking);
    TurnsAgain(s, c, Asking, Telling(cause));
    Tells(s, w, c, Turned(s, c, Telling(cause)), cause);
    var steps := [ReadToken, Renew(true), Compare, Ask(true), Tell];
    assert steps[1..] == [Renew(true), Compare, Ask(true), Tell] && steps[1..][1..] == [Compare, Ask(true), Tell];
    assert steps[1..][1..][1..] == [Ask(true), Tell] && steps[1..][1..][1..][1..] == [Tell];
    assert WatcherApply(s, c, ReadToken) == Some(Turned(s, c, Renewing(t)));
    assert WatcherApply(Turned(s, c, Renewing(t)), c, Renew(true)) == Some(Turned(s, c, Unheld(t)));
    assert WatcherApply(Turned(s, c, Unheld(t)), c, Compare) == Some(Turned(s, c, Asking));
    assert WatcherApply(Turned(s, c, Asking), c, Ask(true)) == Some(Turned(s, c, Telling(cause)));
  }

  /** Until its worker decides what to do, a handler's outcome is the one it returned, and what it was told
      first is what it was told. */
  lemma HandlerRemembers(s: State, e: Event, s': State, w: Worker)
    requires Apply(s, e) == Some(s') && AtWork(s, w) && AtWork(s', w)
    ensures s'.workers[w].claim == s.workers[w].claim
    ensures CauseOf(s, w) != NoCause ==> CauseOf(s', w) == CauseOf(s, w)
    ensures s'.workers[w].Returned? && s.workers[w].Returned? ==> s'.workers[w].outcome == s.workers[w].outcome
    ensures s'.workers[w].Returned? && !s.workers[w].Returned? ==> e == By(w, Return(s'.workers[w].outcome))
  {
    match e
    case Env(step) =>
    case For(c, step) =>
    case By(v, step) =>
      if v != w {
        OneStays(s, v, step, s', w);
      }
  }

  // ---- What is left of a pool ----

  ghost predicate EntryOwned(s: State, p: Pool) {
    p in s.inflight
    && exists w :: w in s.workers && w.pool == p && Owns(s.workers[w]) && s.workers[w].claim == s.inflight[p]
  }

  /** In any run an in-flight entry is that of a worker still to delete it: a job is handed over to a
      running handler only, never to one that is gone. */
  lemma {:induction false} NoDeadEntries(maxRetries: nat, ttl: nat, run: seq<Event>)
    requires After(Init(maxRetries, ttl), run).Some?
    ensures var s := After(Init(maxRetries, ttl), run).value; forall p :: p in s.inflight ==> EntryOwned(s, p)
  {
    var s0 := Init(maxRetries, ttl);
    if run != [] {
      var before, e := run[..|run| - 1], run[|run| - 1];
      NoDeadEntries(maxRetries, ttl, before);
      PoolRun(maxRetries, ttl, before);
      var s, s' := After(s0, before).value, After(s0, run).value;
      forall p | p in s'.inflight ensures EntryOwned(s', p) {
        EntryStaysOwned(s, e, s', p);
      }
    }
  }

  lemma EntryStaysOwned(s: State, e: Event, s': State, p: Pool)
    requires Apply(s, e) == Some(s') && ClaimsUnique(s) && EntriesOwned(s) && p in s'.inflight
    requires p in s.inflight ==> EntryOwned(s, p)
    ensures EntryOwned(s', p)
  {
    match e
    case Env(step) => EnvLeavesEntries(s, step, s', p);
    case For(c, step) =>
      WatchersMoveNobody(s, c, step, s');
      var w :| w in s.workers && w.pool == p && Owns(s.workers[w]) && s.workers[w].claim == s.inflight[p];
      assert w in s'.workers;
    case By(v, step) => MoverLeavesEntries(s, v, step, s', p);
  }

  lemma EnvLeavesEntries(s: State, step: EnvStep, s': State, p: Pool)
    requires EnvApply(s, step) == Some(s') && p in s'.inflight && EntryOwned(s, p)
    ensures EntryOwned(s', p)
  {
    var w :| w in s.workers && w.pool == p && Owns(s.workers[w]) && s.workers[w].claim == s.inflight[p];
    assert w in s'.workers;
  }

  lemma MoverLeavesEntries(s: State, v: Worker, step: WorkerStep, s': State, p: Pool)
    requires WorkerApply(s, v, step) == Some(s') && ClaimsUnique(s) && EntriesOwned(s) && p in s'.inflight
    requires p in s.inflight ==> EntryOwned(s, p)
    ensures EntryOwned(s', p)
  {
    EntriesOfMove(s, v, step, s');
    if p in s.inflight {
      var w :| w in s.workers && w.pool == p && Owns(s.workers[w]) && s.workers[w].claim == s.inflight[p];
      if w == v {
        OwnerStays(s, v, step, s');
      } else {
        OneStays(s, v, step, s', w);
      }
      assert w in s'.workers;
    } else {
      assert v in s'.workers && Owns(s'.workers[v]);
    }
  }

  lemma OwnerStays(s: State, v: Worker, step: WorkerStep, s': State)
    requires WorkerApply(s, v, step) == Some(s') && v in s.workers && Owns(s.workers[v])
    requires v.pool in s'.inflight
    ensures v in s'.workers && Owns(s'.workers[v]) && s'.workers[v].claim == s.workers[v].claim
  {
    if step.Settle? {
      SettlerKeepsEntry(s, v, s.workers[v], step.ok);
    }
  }

  /** A crash ends everything its pool was at and nothing else: afterwards the pool can only acquire, and
      none of its watchers acts. */
  lemma CrashEndsThePool(s: State, p: Pool, s': State, e: Event)
    requires Apply(s, Env(Crash(p))) == Some(s') && Apply(s', e).Some?
    ensures e.By? && e.worker.pool == p ==> e.step == Acquire
    ensures e.For? ==> s'.watchers[e.handler].owner.pool != p
    ensures s'.row == s.row && p !in s'.inflight && forall w :: w in s.workers && w.pool != p ==>
        w in s'.workers && s'.workers[w] == s.workers[w]
  {
  }

  /** A job pending or running can be cancelled at any time, and nobody acquires or recovers it after that. */
  lemma CancelledIsLeftAlone(s: State, w: Worker)
    requires s.row.status == Pending || s.row.status == Running
    ensures var cancelled := s.(row := s.row.(status := Cancelled));
            Apply(s, Env(Cancel)) == Some(cancelled) && Apply(cancelled, By(w, Acquire)).None?
            && Apply(cancelled, Env(Recover)).None?
  {
  }

  /** In any run a job is retried, by its handlers, by workers without a lease and by operators together, at
      most as often as it may be. */
  lemma {:induction false} RetriesAreBounded(maxRetries: nat, ttl: nat, run: seq<Event>)
    requires After(Init(maxRetries, ttl), run).Some?
    ensures var row := After(Init(maxRetries, ttl), run).value.row;
            row.retries <= row.maxRetries == maxRetries
  {
    if run != [] {
      var before, e := run[..|run| - 1], run[|run| - 1];
      RetriesAreBounded(maxRetries, ttl, before);
      var s, s' := After(Init(maxRetries, ttl), before).value, After(Init(maxRetries, ttl), run).value;
      match e
      case Env(step) =>
      case For(c, step) => WatchersMoveNobody(s, c, step, s');
      case By(w, step) => WorkerRetriesOnce(s, w, step, s');
    }
  }

  lemma WorkerRetriesOnce(s: State, w: Worker, step: WorkerStep, s': State)
    requires WorkerApply(s, w, step) == Some(s')
    ensures s'.row.maxRetries == s.row.maxRetries
    ensures s'.row.retries == s.row.retries || s.row.retries + 1 == s'.row.retries <= s'.row.maxRetries
  {
  }

  /** A pool that is stopping takes no job any more, and stays so. */
  lemma StoppedPoolTakesNothing(s: State, p: Pool, e: Event, s': State)
    requires p in s.stopped && Apply(s, e) == Some(s')
    ensures p in s'.stopped && forall w :: w in s'.workers && w.pool == p ==> w in s.workers
  {
    match e
    case Env(step) =>
    case For(c, step) => WatchersMoveNobody(s, c, step, s');
    case By(v, step) => OnlyOneMoves(s, v, step, s');
  }
}
