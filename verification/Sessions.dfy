/** Browser sessions: the sliding idle expiry with throttled last-seen writes, and the absolute
    lifetime. Times are integers on the session clock. */
module Sessions {
  datatype Options = Options(idleTTL: int, maxTTL: int, touchEvery: int)

  const SECOND := 1_000_000_000
  const DEFAULT_IDLE_TTL := 12 * 3600 * SECOND
  const DEFAULT_MAX_TTL := 7 * 24 * 3600 * SECOND
  const DEFAULT_TOUCH_EVERY := 60 * SECOND

  /** What is configured stays; what is not takes its default: twelve hours, seven days, a minute. */
  function WithDefaults(o: Options): (r: Options)
    ensures r.idleTTL > 0 && r.maxTTL > 0 && r.touchEvery > 0
    ensures (o.idleTTL > 0 ==> r.idleTTL == o.idleTTL) && (o.idleTTL <= 0 ==> r.idleTTL == 43_200 * SECOND)
    ensures (o.maxTTL > 0 ==> r.maxTTL == o.maxTTL) && (o.maxTTL <= 0 ==> r.maxTTL == 604_800 * SECOND)
    ensures (o.touchEvery > 0 ==> r.touchEvery == o.touchEvery) && (o.touchEvery <= 0 ==> r.touchEvery == 60 * SECOND)
  {
    Options(if o.idleTTL <= 0 then DEFAULT_IDLE_TTL else o.idleTTL,
            if o.maxTTL <= 0 then DEFAULT_MAX_TTL else o.maxTTL,
            if o.touchEvery <= 0 then DEFAULT_TOUCH_EVERY else o.touchEvery)
  }

  function MinTime(a: int, b: int): int {
    if a < b then a else b
  }

  datatype Record = Record(lastSeenAt: int, idleExpiresAt: int, expiresAt: int, revoked: bool) {
    predicate Active(now: int) {
      !revoked && now < idleExpiresAt && now < expiresAt
    }
  }

  datatype Outcome = Accepted | Refused | StoreFailed

  /** What becomes of the credential behind a session: its identity and principal are active and agree,
      or one is gone, revoked, suspended or another's, or the store cannot tell. */
  datatype Credential = InForce | Withdrawn | Unknown

  /** One request: when the session is looked up, when the clock is read again to touch it, what the
      registry says of the credential, and how the store answers. */
  datatype Request = Request(at: int, touchAt: int, credential: Credential, lookupOk: bool, touchOk: bool,
      revokeOk: bool)

  function Minted(o: Options, now: int): Record {
    Record(now, MinTime(now + o.idleTTL, now + o.maxTTL), now + o.maxTTL, false)
  }

  /** What one request does to the stored session. */
  function Step(o: Options, s: Record, r: Request): (Record, Outcome) {
    if !r.lookupOk then (s, StoreFailed)
    else if !s.Active(r.at) then (s, Refused)
    else if r.credential.Unknown? then (s, StoreFailed)
    else if r.credential.Withdrawn? then
      if r.revokeOk then (s.(revoked := true), Refused) else (s, StoreFailed)
    else if r.touchAt - s.lastSeenAt >= o.touchEvery then
      if r.touchOk then
        (s.(lastSeenAt := r.touchAt, idleExpiresAt := MinTime(r.touchAt + o.idleTTL, s.expiresAt)), Accepted)
      else (s, StoreFailed)
    else (s, Accepted)
  }

  /** The session manager over the row the store keeps for one session. */
  class Session {
    const opts: Options
    var row: Record

    constructor MintFor(o: Options, now: int)
      ensures opts == WithDefaults(o) && row == Minted(opts, now)
      ensures row.lastSeenAt == now && row.expiresAt == now + opts.maxTTL
      ensures now < row.idleExpiresAt <= row.expiresAt && row.idleExpiresAt <= now + opts.idleTTL
    {
      opts := WithDefaults(o);
      row := Minted(WithDefaults(o), now);
    }

    /** Accepts a live session whose credential is in force, touching it when the last touch is a touch
        interval old; a session whose credential was withdrawn is revoked on the spot. */
    method Authenticate(r: Request) returns (outcome: Outcome)
      modifies this
      ensures (row, outcome) == Step(opts, old(row), r)
      ensures Answered(opts, old(row), row, r, outcome)
    {
      AnswersOf(opts, row, r);
      if !r.lookupOk {
        return StoreFailed;
      }
      if !(!row.revoked && r.at < row.idleExpiresAt && r.at < row.expiresAt) {
        return Refused;
      }
      if r.credential.Unknown? {
        return StoreFailed;
      }
      if r.credential.Withdrawn? {
        if !r.revokeOk {
          return StoreFailed;
        }
        row := row.(revoked := true);
        return Refused;
      }
      if r.touchAt - row.lastSeenAt >= opts.touchEvery {
        if !r.touchOk {
          return StoreFailed;
        }
        row := row.(lastSeenAt := r.touchAt, idleExpiresAt := MinTime(r.touchAt + opts.idleTTL, row.expiresAt));
      }
      return Accepted;
    }
  }

  // ---- What a request gets ----

  /** The session is one that may still authenticate at the time it is looked up. */
  predicate Found(was: Record, r: Request) {
    r.lookupOk && !was.revoked && r.at < was.idleExpiresAt && r.at < was.expiresAt
  }

  predicate TouchDue(o: Options, was: Record, r: Request) {
    Found(was, r) && r.credential == InForce && r.touchAt >= was.lastSeenAt + o.touchEvery
  }

  /** The store call made for the request, or the registry's, failed. */
  predicate CallFailed(o: Options, was: Record, r: Request) {
    || !r.lookupOk
    || (Found(was, r) && r.credential == Unknown)
    || (Found(was, r) && r.credential == Withdrawn && !r.revokeOk)
    || (TouchDue(o, was, r) && !r.touchOk)
  }

  /** Accepted are exactly the live sessions with a credential in force and no failing call; refused those
      looked up and not live, or revoked now. The absolute expiry never moves. A row changes only by being
      revoked for its withdrawn credential, or touched, which a request accepted does exactly when a touch
      is due; from then on it idles out an idle time later, and never after its expiry. */
  ghost predicate Answered(o: Options, was: Record, row: Record, r: Request, outcome: Outcome) {
    && (outcome == StoreFailed <==> CallFailed(o, was, r))
    && (outcome == Accepted ==> Found(was, r) && r.credential == InForce)
    && (outcome == Refused ==> !Found(was, r) || r.credential == Withdrawn)
    && row.expiresAt == was.expiresAt
    && (row.revoked <==> was.revoked || (Found(was, r) && r.credential == Withdrawn && r.revokeOk))
    && (!(outcome == Accepted && TouchDue(o, was, r)) ==>
        row.lastSeenAt == was.lastSeenAt && row.idleExpiresAt == was.idleExpiresAt)
    && (outcome == Accepted && TouchDue(o, was, r) ==>
          && row.lastSeenAt == r.touchAt && row.idleExpiresAt <= row.lastSeenAt + o.idleTTL
          && row.idleExpiresAt <= row.expiresAt
          && (row.idleExpiresAt == row.lastSeenAt + o.idleTTL || row.idleExpiresAt == row.expiresAt))
  }

  lemma AnswersOf(o: Options, s: Record, r: Request)
    ensures Answered(o, s, Step(o, s, r).0, r, Step(o, s, r).1)
  {
  }

  // ---- Runs of requests ----

  ghost function RowAfter(o: Options, s: Record, run: seq<Request>): Record {
    if run == [] then s else Step(o, RowAfter(o, s, run[..|run| - 1]), run[|run| - 1]).0
  }

  /** The answer the i-th request of the run gets. */
  ghost function Answer(o: Options, s: Record, run: seq<Request>, i: nat): Outcome
    requires i < |run|
  {
    Step(o, RowAfter(o, s, run[..i]), run[i]).1
  }

  ghost predicate Healthy(r: Request) {
    r.credential == InForce && r.lookupOk && r.touchOk && r.at <= r.touchAt
  }

  /** A healthy run whose requests are never more than gap apart, the first counted from sign-in. */
  ghost predicate Paced(start: int, gap: int, run: seq<Request>) {
    && (forall i :: 0 <= i < |run| ==> Healthy(run[i]))
    && (run != [] ==> start <= run[0].at <= start + gap)
    && (forall i :: 0 < i < |run| ==> run[i - 1].touchAt <= run[i].at <= run[i - 1].at + gap)
  }

  ghost function LastAt(start: int, run: seq<Request>): int {
    if run == [] then start else run[|run| - 1].at
  }

  /** The throttled touches never fall behind: after each request that found the session alive, the
      stored idle expiry is later than that request plus the pace, or is the absolute expiry. */
  lemma {:induction false} PaceKeepsRowFresh(o: Options, start: int, gap: int, run: seq<Request>)
    requires o.idleTTL > 0 && o.maxTTL > 0 && o.touchEvery > 0
    requires gap <= o.idleTTL - o.touchEvery || o.maxTTL <= o.idleTTL
    requires Paced(start, gap, run)
    requires LastAt(start, run) < start + o.maxTTL
    ensures var s := RowAfter(o, Minted(o, start), run);
            && s.expiresAt == start + o.maxTTL && !s.revoked
            && s.lastSeenAt >= start
            && s.idleExpiresAt == MinTime(s.lastSeenAt + o.idleTTL, s.expiresAt)
            && LastAt(start, run) - s.lastSeenAt < o.touchEvery
  {
    if run != [] {
      var before, r := run[..|run| - 1], run[|run| - 1];
      PaceKeepsRowFresh(o, start, gap, before);
      assert LastAt(start, before) <= r.at <= LastAt(start, before) + gap;
    }
  }

  lemma NoneFromExpiryOn(o: Options, s: Record, r: Request)
    requires r.at >= s.expiresAt
    ensures Step(o, s, r).1 != Accepted && Step(o, s, r).0 == s
  {
  }

  lemma {:induction false} ExpiryNeverMoves(o: Options, s: Record, run: seq<Request>)
    ensures RowAfter(o, s, run).expiresAt == s.expiresAt
  {
    if run != [] {
      ExpiryNeverMoves(o, s, run[..|run| - 1]);
    }
  }

  /** Request i found the session live and its credential withdrawn, and the revocation was stored. */
  ghost predicate Revokes(o: Options, s: Record, run: seq<Request>, i: nat) {
    i < |run| && Found(RowAfter(o, s, run[..i]), run[i]) && run[i].credential == Withdrawn && run[i].revokeOk
  }

  /** In any run, healthy or not, a session minted at start is revoked exactly once a request revoked it,
      and its row tells when a request it accepted last touched it. */
  lemma {:induction false} RowTellsItsRun(o: Options, start: int, run: seq<Request>)
    ensures var row := RowAfter(o, Minted(o, start), run);
            && (row.revoked <==> exists i: nat :: Revokes(o, Minted(o, start), run, i))
            && row.idleExpiresAt == MinTime(row.lastSeenAt + o.idleTTL, start + o.maxTTL)
            && (row.lastSeenAt == start
                || exists i: nat ::
                    i < |run| && run[i].touchAt == row.lastSeenAt && Answer(o, Minted(o, start), run, i) == Accepted)
  {
    var s0 := Minted(o, start);
    if run != [] {
      var before, r := run[..|run| - 1], run[|run| - 1];
      RowTellsItsRun(o, start, before);
      ExpiryNeverMoves(o, s0, before);
      AnswersOf(o, RowAfter(o, s0, before), r);
      forall i: nat | i < |before| ensures Revokes(o, s0, before, i) == Revokes(o, s0, run, i)
        ensures Answer(o, s0, before, i) == Answer(o, s0, run, i)
      {
        assert before[..i] == run[..i] && before[i] == run[i];
      }
      assert run[..|run| - 1] == before && Answer(o, s0, run, |run| - 1) == Step(o, RowAfter(o, s0, before), r).1;
      assert Revokes(o, s0, run, |run| - 1) <==>
          Found(RowAfter(o, s0, before), r) && r.credential == Withdrawn && r.revokeOk;
    }
  }

  /** After a revocation, no later request of the run is accepted. */
  lemma NoneAfterRevocation(o: Options, s: Record, run: seq<Request>, i: nat, j: nat)
    requires i < j < |run| && Revokes(o, s, run, i)
    ensures Answer(o, s, run, j) != Accepted
  {
    RevokedStays(o, s, run, i, j);
    AnswersOf(o, RowAfter(o, s, run[..j]), run[j]);
  }

  lemma {:induction false} RevokedStays(o: Options, s: Record, run: seq<Request>, i: nat, j: nat)
    requires i < j <= |run| && Revokes(o, s, run, i)
    ensures RowAfter(o, s, run[..j]).revoked
  {
    assert run[..j][..j - 1] == run[..j - 1];
    AnswersOf(o, RowAfter(o, s, run[..j - 1]), run[j - 1]);
    if i < j - 1 {
      RevokedStays(o, s, run, i, j - 1);
    }
  }

  /** However the throttled touches fall, a session used at this pace is accepted at every request
      before sign-in plus MaxTTL, and at none from then on. */
  lemma PacedSessionLivesExactlyMaxTTL(o: Options, start: int, gap: int, run: seq<Request>, i: nat)
    requires o.idleTTL > 0 && o.maxTTL > 0 && o.touchEvery > 0
    requires gap <= o.idleTTL - o.touchEvery || o.maxTTL <= o.idleTTL
    requires Paced(start, gap, run) && i < |run|
    ensures Answer(o, Minted(o, start), run, i) == Accepted <==> run[i].at < start + o.maxTTL
  {
    var before := run[..i];
    if run[i].at < start + o.maxTTL {
      assert LastAt(start, before) <= run[i].at <= LastAt(start, before) + gap;
      PaceKeepsRowFresh(o, start, gap, before);
    } else {
      ExpiryNeverMoves(o, Minted(o, start), before);
      NoneFromExpiryOn(o, RowAfter(o, Minted(o, start), before), run[i]);
    }
  }

  ghost predicate PaceIsSafe(o: Options, start: int, gap: int) {
    forall run: seq<Request>, i: nat ::
      Paced(start, gap, run) && i < |run| && run[i].at < start + o.maxTTL
      ==> Answer(o, Minted(o, start), run, i) == Accepted
  }

  /** One request a tick, none of them old enough to touch, then one at the idle expiry. */
  function SlowRun(o: Options, start: int): seq<Request>
    requires o.idleTTL > 0 && o.touchEvery > 0
  {
    var quiet: nat := MinTime(o.touchEvery, o.idleTTL) - 1;
    seq(quiet, i => Request(start + i + 1, start + i + 1, InForce, true, true, true))
    + [Request(start + o.idleTTL, start + o.idleTTL, InForce, true, true, true)]
  }

  lemma {:induction false} SlowRunNeverTouches(o: Options, start: int, n: nat)
    requires o.idleTTL > 0 && o.touchEvery > 0 && o.idleTTL < o.maxTTL
    requires n < |SlowRun(o, start)|
    ensures RowAfter(o, Minted(o, start), SlowRun(o, start)[..n]) == Minted(o, start)
  {
    if n > 0 {
      SlowRunNeverTouches(o, start, n - 1);
      assert SlowRun(o, start)[..n][..n - 1] == SlowRun(o, start)[..n - 1];
    }
  }

  /** IdleTTL - TouchEvery is the slowest pace that is always enough, unless the absolute lifetime
      ends first anyway. */
  lemma SlowestSafePace(o: Options, start: int, gap: int)
    requires o.idleTTL > 0 && o.maxTTL > 0 && o.touchEvery > 0 && gap > 0
    ensures PaceIsSafe(o, start, gap) <==> gap <= o.idleTTL - o.touchEvery || o.maxTTL <= o.idleTTL
  {
    if gap <= o.idleTTL - o.touchEvery || o.maxTTL <= o.idleTTL {
      forall run: seq<Request>, i: nat | Paced(start, gap, run) && i < |run| && run[i].at < start + o.maxTTL
        ensures Answer(o, Minted(o, start), run, i) == Accepted
      {
        PacedSessionLivesExactlyMaxTTL(o, start, gap, run, i);
      }
    } else {
      var run := SlowRun(o, start);
      var last: nat := |run| - 1;
      SlowRunNeverTouches(o, start, last);
      assert Paced(start, gap, run);
      assert Answer(o, Minted(o, start), run, last) == Refused;
    }
  }
}
