/** Resumable re-projection: a cursor pass over the stale rows of a table that other writers change
    meanwhile, cut off at any point, stamping the signature only when nothing is stale. Row ids are
    compared only by order, so a row is its rank; rank 0 is the empty id, where the cursor starts. */
module Reprojection {
  import opened Paging
  import opened Wrappers

  /** How often something happened to each row. */
  type Tally = int -> nat

  ghost function Mark(t: Tally, rows: set<int>): Tally {
    k => if k in rows then t(k) + 1 else t(k)
  }

  /** The history of the rows: how often each became stale, was re-projected while stale, and was
      deleted or rewritten while stale; and whether a text repair marked rows stale under a signature
      that stayed stamped. */
  datatype Ledger = Ledger(became: Tally, redone: Tally, displaced: Tally, repairedUnderStamp: bool)

  /** The object rows by projection stamp, and whether the stored signature matches. */
  datatype Rows = Rows(stale: set<int>, current: set<int>, stamped: bool)

  ghost predicate Balanced(r: Rows, l: Ledger) {
    && (forall k :: k in r.stale || k in r.current ==> 0 <= k)
    && r.stale !! r.current
    && (forall k :: l.became(k) == l.redone(k) + l.displaced(k) + (if k in r.stale then 1 else 0))
    && (r.stamped && !l.repairedUnderStamp ==> r.stale == {})
  }

  /** From r to r', other writers only made stale rows current or deleted them. */
  ghost predicate OthersOnly(r: Rows, l: Ledger, r': Rows, l': Ledger) {
    && r'.stale <= r.stale && r'.stamped == r.stamped
    && l' == l.(displaced := l'.displaced)
    && forall k :: l'.displaced(k) == l.displaced(k) + (if k in r.stale && k !in r'.stale then 1 else 0)
  }

  /** Why a run may have to stop: the call that failed, or the end of its context. */
  datatype Cause = RepairFailed | CountFailed | StatusFailed | Interrupted | ListFailed | StampFailed

  /** What the upgrade status says of the run. */
  datatype Status = Idle | Claimed(total: nat) | Ticked(done: nat, failed: nat) | Completed

  /** What asking for the upgrade status came to. */
  datatype Claim = Granted | Busy | Denied

  /** What came of handing a row to the store: it was changed, found current, or failed. */
  datatype Answers = Answers(changed: nat, current: nat, failed: nat)

  function Total(a: Answers): nat {
    a.changed + a.current + a.failed
  }

  /** b counts one more answer than a. */
  predicate OneMore(a: Answers, b: Answers, ok: bool, changed: bool) {
    && b.changed == a.changed + (if ok && changed then 1 else 0)
    && b.current == a.current + (if ok && !changed then 1 else 0)
    && b.failed == a.failed + (if ok then 0 else 1)
  }

  /** How often a row was handed over although the run's context had ended, and whether one was since the
      run last found it had not. */
  datatype Trail = Trail(late: nat, recent: bool)

  class Table {
    var rows: Rows
    /** The context of the run has ended. */
    var ended: bool
    ghost var trail: Trail
    /** How many rows the last listing asked for, and how often text repair was called for. */
    ghost var limit: nat
    ghost var repairs: nat
    ghost var ledger: Ledger
    /** How often a run was answered with a failure it cannot go on from, or found its context ended, and
        which of that came last. */
    ghost var faults: nat
    ghost var lastFault: Cause
    /** How often it was handed a row, by what came of it. */
    ghost var answers: Answers
    /** The upgrade status as last written. */
    ghost var status: Status

    ghost predicate Valid()
      reads `rows, `ledger
    {
      Balanced(rows, ledger)
    }

    /** Since there were so many, this fault came, or none. */
    ghost predicate Met(before: nat, fault: Option<Cause>)
      reads `faults, `lastFault
    {
      if fault.Some? then faults == before + 1 && lastFault == fault.value else faults == before
    }

    ghost method Meet(fault: Option<Cause>)
      modifies `faults, `lastFault
      ensures Met(old(faults), fault)
    {
      if fault.Some? {
        faults, lastFault := faults + 1, fault.value;
      }
    }

    constructor (ids: set<int>)
      requires forall k :: k in ids ==> 0 <= k
      ensures Valid() && rows == Rows({}, ids, true)
    {
      rows := Rows({}, ids, true);
      ledger, faults, answers := Ledger(k => 0, k => 0, k => 0, false), 0, Answers(0, 0, 0);
      status, ended, trail, limit, repairs := Idle, false, Trail(0, false), 0, 0;
    }

    /** The context may end at any time, and for good. */
    method PassTime()
      modifies `ended
      ensures old(ended) ==> ended
    {
      var ends: bool := *;
      ended := ended || ends;
    }

    /** An insert or update: it projects the row under the current version. */
    method Write(id: int)
      requires Valid() && 0 <= id
      modifies `rows, `ledger
      ensures Valid() && OthersOnly(old(rows), old(ledger), rows, ledger)
      ensures rows == old(rows).(stale := old(rows).stale - {id}, current := old(rows).current + {id})
    {
      ledger := ledger.(displaced := Mark(ledger.displaced, rows.stale * {id}));
      rows := rows.(stale := rows.stale - {id}, current := rows.current + {id});
    }

    method Delete(id: int)
      requires Valid()
      modifies `rows, `ledger
      ensures Valid() && OthersOnly(old(rows), old(ledger), rows, ledger)
      ensures rows == old(rows).(stale := old(rows).stale - {id}, current := old(rows).current - {id})
    {
      ledger := ledger.(displaced := Mark(ledger.displaced, rows.stale * {id}));
      rows := rows.(stale := rows.stale - {id}, current := rows.current - {id});
    }

    /** What concurrent writers do between two steps of a run: any writes and deletes. */
    method Others()
      requires Valid()
      modifies `rows, `ledger
      ensures Valid() && OthersOnly(old(rows), old(ledger), rows, ledger)
    {
      var steps: nat := *;
      while steps > 0
        invariant Valid() && OthersOnly(old(rows), old(ledger), rows, ledger)
      {
        var id: int := *;
        var write: bool := *;
        if write && 0 <= id {
          Write(id);
        } else {
          Delete(id);
        }
        steps := steps - 1;
      }
    }

    /** A call that fails once the context has ended failed for that. */
    function Or(cause: Cause): Cause
      reads `ended
    {
      if ended then Interrupted else cause
    }

    /** A new projection version: every row is stale and the stored signature no longer matches. */
    method Upgrade()
      requires Valid()
      modifies `rows, `ledger
      ensures Valid() && rows == Rows(old(rows).stale + old(rows).current, {}, false)
      ensures ledger.redone == old(ledger).redone && ledger.displaced == old(ledger).displaced
      ensures forall k :: ledger.became(k) == old(ledger).became(k) + (if k in old(rows).current then 1 else 0)
    {
      ledger := ledger.(became := Mark(ledger.became, rows.current), repairedUnderStamp := false);
      rows := Rows(rows.stale + rows.current, {}, false);
    }

    /** Text repair before the pass: it marks the rows it repaired stale. */
    method RepairRefText() returns (ok: bool, ghost repaired: set<int>)
      requires Valid()
      modifies `rows, `ledger, `faults, `lastFault, `ended, `trail, `repairs
      ensures trail == old(trail).(recent := false) && repairs == old(repairs) + 1
      ensures Valid() && rows.stamped == old(rows).stamped
      ensures repaired <= rows.stale <= old(rows).stale + repaired
      ensures ledger.redone == old(ledger).redone
      ensures forall k :: ledger.became(k) == old(ledger).became(k) + (if k in repaired then 1 else 0)
      ensures forall k :: ledger.displaced(k) >= old(ledger).displaced(k)
      ensures Met(old(faults), if ok then None else Some(Or(RepairFailed)))
    {
      Others();
      var marked: set<int> := *;
      marked := marked * rows.current;
      ledger := ledger.(became := Mark(ledger.became, marked),
                        repairedUnderStamp := ledger.repairedUnderStamp || (rows.stamped && marked != {}));
      rows := rows.(stale := rows.stale + marked, current := rows.current - marked);
      PassTime();
      ok, repaired := *, marked;
      trail, repairs := trail.(recent := false), repairs + 1;
      Meet(if ok then None else Some(Or(RepairFailed)));
    }

    method CountStale() returns (ok: bool, n: nat)
      requires Valid()
      modifies `rows, `ledger, `faults, `lastFault
      ensures Valid() && OthersOnly(old(rows), old(ledger), rows, ledger)
      ensures ok ==> n == |rows.stale|
      ensures Met(old(faults), if ok then None else Some(CountFailed))
    {
      Others();
      ok, n := *, |rows.stale|;
      Meet(if ok then None else Some(CountFailed));
    }

    method ListStale(after: int, atMost: nat) returns (ok: bool, ids: seq<int>)
      requires Valid()
      modifies `rows, `ledger, `faults, `lastFault, `ended, `limit
      ensures Valid() && OthersOnly(old(rows), old(ledger), rows, ledger)
      ensures ok ==> ids == Page(rows.stale, after, atMost)
      ensures Met(old(faults), if ok then None else Some(Or(ListFailed)))
      ensures limit == atMost
    {
      Others();
      PassTime();
      ok, ids := *, Page(rows.stale, after, atMost);
      limit := atMost;
      Meet(if ok then None else Some(Or(ListFailed)));
    }

    /** One transaction: re-projects and stamps the row, or fails and rolls back. */
    method Reproject(id: int) returns (ok: bool, changed: bool)
      requires Valid()
      modifies `rows, `ledger, `answers, `ended, `trail
      ensures trail == old(trail).(recent := true, late := old(trail).late + if old(ended) then 1 else 0)
      ensures OneMore(old(answers), answers, ok, changed)
      ensures Valid() && rows.stale <= old(rows).stale && rows.stamped == old(rows).stamped
      ensures ledger.became == old(ledger).became && ledger.repairedUnderStamp == old(ledger).repairedUnderStamp
      ensures changed ==> ok && id in old(rows).stale
      ensures ok ==> id !in rows.stale
      ensures forall k :: ledger.redone(k) == old(ledger).redone(k) + (if changed && k == id then 1 else 0)
      ensures forall k :: ledger.displaced(k) == old(ledger).displaced(k)
                          + (if k in old(rows).stale && k !in rows.stale && !(changed && k == id) then 1 else 0)
    {
      trail := trail.(recent := true, late := trail.late + if ended then 1 else 0);
      PassTime();
      Others();
      ok, changed := *, false;
      if ok && id in rows.stale {
        changed := true;
        ledger := ledger.(redone := Mark(ledger.redone, {id}));
        rows := rows.(stale := rows.stale - {id}, current := rows.current + {id});
      }
      answers := if !ok then answers.(failed := answers.failed + 1)
                 else if changed then answers.(changed := answers.changed + 1)
                 else answers.(current := answers.current + 1);
    }

    method Stamp() returns (ok: bool)
      requires Valid() && rows.stale == {}
      modifies `rows, `ledger, `faults, `lastFault
      ensures Valid() && rows.stale == {}
      ensures ledger.became == old(ledger).became && ledger.redone == old(ledger).redone
      ensures forall k :: ledger.displaced(k) == old(ledger).displaced(k)
      ensures ok ==> rows.stamped && !ledger.repairedUnderStamp
      ensures !ok ==> rows.stamped == old(rows).stamped
      ensures Met(old(faults), if ok then None else Some(StampFailed))
    {
      Others();
      ok := *;
      Meet(if ok then None else Some(StampFailed));
      if ok {
        rows := rows.(stamped := true);
        ledger := ledger.(repairedUnderStamp := false);
      }
    }

    /** Whether the context of the run has ended. */
    method Interrupts() returns (over: bool)
      modifies `faults, `lastFault, `ended, `trail
      ensures Met(old(faults), if over then Some(Interrupted) else None) && over == ended
      ensures trail == if over then old(trail) else old(trail).(recent := false)
    {
      PassTime();
      over := ended;
      trail := if over then trail else trail.(recent := false);
      Meet(if over then Some(Interrupted) else None);
    }

    /** The context of the run ends for good. */
    method ContextEnds() returns (stopped: Option<Cause>)
      modifies `faults, `lastFault, `ended
      ensures stopped == Some(Interrupted) && Met(old(faults), stopped)
    {
      ended, stopped := true, Some(Interrupted);
      Meet(Some(Interrupted));
    }

    /** A write of the upgrade status. */
    method WriteStatus(next: Status) returns (ok: bool)
      modifies `faults, `lastFault, `status
      ensures Met(old(faults), if ok then None else Some(StatusFailed)) && (ok ==> status == next)
    {
      ok := *;
      Meet(if ok then None else Some(StatusFailed));
      status := if ok then next else status;
    }

    /** Asks for the upgrade status, which another run may hold. */
    method ClaimStatus(total: nat) returns (claim: Claim)
      modifies `faults, `lastFault, `status
      ensures Met(old(faults), if claim.Denied? then Some(StatusFailed) else None)
      ensures claim.Granted? ==> status == Claimed(total)
    {
      claim := *;
      Meet(if claim.Denied? then Some(StatusFailed) else None);
      status := if claim.Granted? then Claimed(total) else status;
    }
  }

  datatype End = Stamped | LeftStale | Stopped(cause: Cause)

  datatype Result = Result(total: nat, reprojected: nat, skipped: nat, failed: nat) {
    function Done(): nat {
      reprojected + skipped + failed
    }

    function Count(ok: bool, changed: bool): Result {
      if !ok then this.(failed := failed + 1)
      else if changed then this.(reprojected := reprojected + 1)
      else this.(skipped := skipped + 1)
    }
  }

  /** What a pass did to the rows: those stale when it began, those it handed to the store in order, what
      the store answered, those it re-projected and those that failed. */
  datatype Pass = Pass(start: set<int>, attempts: seq<int>, answers: Answers, redone: set<int>, failures: set<int>) {
    ghost function Attempt(id: int, ok: bool, changed: bool): Pass {
      this.(attempts := attempts + [id],
            answers := if !ok then answers.(failed := answers.failed + 1)
                       else if changed then answers.(changed := answers.changed + 1)
                       else answers.(current := answers.current + 1),
            redone := if changed then redone + {id} else redone,
            failures := if ok then failures else failures + {id})
    }
  }

  /** The table, its ledger and the rows it was handed at one moment. */
  datatype Moment = Moment(rows: Rows, ledger: Ledger, answers: Answers)

  /** Since the pass began at m0 it has attempted, in order and once each, every row up to the cursor
      that is still stale, and the ledger moved by what it re-projected. */
  ghost predicate Reached(m0: Moment, m: Moment, pass: Pass, cursor: int) {
    && 0 <= cursor && pass.start == m0.rows.stale
    && m.answers.changed == m0.answers.changed + pass.answers.changed
    && m.answers.current == m0.answers.current + pass.answers.current
    && m.answers.failed == m0.answers.failed + pass.answers.failed
    && m.rows.stale <= m0.rows.stale && m.rows.stamped == m0.rows.stamped
    && Ascending(pass.attempts)
    && (forall i :: 0 <= i < |pass.attempts| ==> pass.attempts[i] in pass.start && 0 < pass.attempts[i] <= cursor)
    && (forall k :: k in pass.redone || k in pass.failures ==> k in pass.attempts)
    && (forall k :: k in pass.redone ==> k !in m.rows.stale)
    && (forall k :: m.ledger.became(k) == m0.ledger.became(k))
    && (forall k :: k in m.rows.stale && 0 < k <= cursor ==> k in pass.failures)
    && (forall k :: m.ledger.redone(k) == m0.ledger.redone(k) + (if k in pass.redone then 1 else 0))
    && (forall k :: m.ledger.displaced(k) >= m0.ledger.displaced(k))
    && (forall k :: k in pass.start && k !in m.rows.stale && k !in pass.redone ==>
        m.ledger.displaced(k) > m0.ledger.displaced(k))
  }

  /** The counters account for every attempt but `uncounted`, the one a cancelled run drops. */
  ghost predicate Tallied(res: Result, pass: Pass, uncounted: nat) {
    && res.Done() + uncounted == |pass.attempts|
    && res.reprojected <= pass.answers.changed && res.skipped <= pass.answers.current
        && res.failed <= pass.answers.failed
    && res.Done() + uncounted == Total(pass.answers)
    && (uncounted == 0 ==> res.failed == |pass.failures| && res.reprojected == |pass.redone|)
  }

  /** From a to b the store answered what res counts, and once more when one answer is uncounted. */
  predicate Reported(a: Answers, b: Answers, res: Result, uncounted: bool) {
    && a.changed + res.reprojected <= b.changed && a.current + res.skipped <= b.current
        && a.failed + res.failed <= b.failed
    && Total(a) + res.Done() + (if uncounted then 1 else 0) == Total(b)
  }

  lemma OthersKeepReached(m0: Moment, m: Moment, m': Moment, pass: Pass, cursor: int)
    requires Reached(m0, m, pass, cursor) && OthersOnly(m.rows, m.ledger, m'.rows, m'.ledger) && m'.answers == m.answers
    ensures Reached(m0, m', pass, cursor)
  {
  }

  lemma AttemptReaches(m0: Moment, m: Moment, m': Moment, pass: Pass, cursor: int, id: int, ok: bool, changed: bool)
    requires Reached(m0, m, pass, cursor)
    requires cursor < id && id in pass.start && forall k :: k in m.rows.stale && cursor < k ==> id <= k
    requires m'.rows.stale <= m.rows.stale && m'.rows.stamped == m.rows.stamped
    requires m'.ledger.became == m.ledger.became && (changed ==> ok)
    requires OneMore(m.answers, m'.answers, ok, changed)
    requires ok ==> id !in m'.rows.stale
    requires forall k :: m'.ledger.redone(k) == m.ledger.redone(k) + (if changed && k == id then 1 else 0)
    requires forall k :: m'.ledger.displaced(k) == m.ledger.displaced(k)
                         + (if k in m.rows.stale && k !in m'.rows.stale && !(changed && k == id) then 1 else 0)
    ensures id !in pass.attempts && id !in pass.redone && id !in pass.failures
    ensures Reached(m0, m', pass.Attempt(id, ok, changed), id)
  {
    var pass' := pass.Attempt(id, ok, changed);
    assert forall k :: k in pass'.attempts <==> k in pass.attempts || k == id;
  }

  lemma TallyOne(res: Result, pass: Pass, id: int, ok: bool, changed: bool)
    requires Tallied(res, pass, 0) && id !in pass.redone && id !in pass.failures
    requires changed ==> ok
    ensures Tallied(res.Count(ok, changed), pass.Attempt(id, ok, changed), 0)
    ensures Tallied(res, pass.Attempt(id, ok, changed), 1)
  {
  }

  lemma FewerStale(now: set<int>, was: set<int>)
    requires now <= was
    ensures |now| <= |was|
  {
    assert was == now + (was - now);
  }

  lemma {:induction false} AscendingFits(page: seq<int>, keys: set<int>)
    requires Ascending(page) && forall i :: 0 <= i < |page| ==> page[i] in keys
    ensures |page| <= |keys|
  {
    if page != [] {
      var front, last := page[..|page| - 1], page[|page| - 1];
      AscendingFits(front, keys - {last});
    }
  }

  lemma NoneLeft(stale: set<int>, res: Result, pass: Pass)
    requires Tallied(res, pass, 0) && forall k :: k in stale && 0 < k ==> k in pass.failures
    requires forall k :: k in stale ==> 0 <= k
    ensures res.failed == 0 && 0 !in stale ==> stale == {}
    ensures |stale| == 0 ==> stale == {}
  {
    if res.failed == 0 && 0 !in stale {
      assert pass.failures == {};
      assert forall k :: k !in stale;
    }
  }

  /** Where the cursor stands before the i-th listed row. */
  function Before(after: int, ids: seq<int>, i: nat): int
    requires i <= |ids|
  {
    if i == 0 then after else ids[i - 1]
  }

  /** Each listed row is the next stale one when its turn comes. */
  ghost predicate InTurn(stale: set<int>, after: int, ids: seq<int>) {
    && (forall i {:trigger Before(after, ids, i)} :: 0 <= i < |ids| ==> Before(after, ids, i) < ids[i])
    && (forall i, k {:trigger Before(after, ids, i), k in stale} ::
        0 <= i < |ids| && k in stale && Before(after, ids, i) < k ==> ids[i] <= k)
  }

  lemma PageIsInTurn(stale: set<int>, after: int, limit: nat)
    ensures InTurn(stale, after, Page(stale, after, limit))
    ensures forall i :: 0 <= i < |Page(stale, after, limit)| ==> Page(stale, after, limit)[i] in stale
  {
    var ids := Page(stale, after, limit);
    PageIsNextKeys(stale, after, limit);
    forall i | 0 <= i < |ids|
      ensures Before(after, ids, i) < ids[i] && ids[i] in stale
      ensures forall k :: k in stale && Before(after, ids, i) < k ==> ids[i] <= k
    {
      assert ids[i] in ids && (i > 0 ==> after < ids[i - 1]);
      forall k | k in stale && Before(after, ids, i) < k
        ensures ids[i] <= k
      {
        if k in ids {
          var j :| 0 <= j < |ids| && ids[j] == k;
          assert j >= i;
        }
      }
    }
  }

  ghost function Remaining(stale: set<int>, cursor: int): set<int> {
    set k | k in stale && cursor < k
  }

  /** A page run to its end leaves fewer rows to list. */
  lemma FewerRemain(was: set<int>, listed: set<int>, now: set<int>, ids: seq<int>, cursor0: int, cursor: int)
    requires listed <= was && ids != [] && InTurn(listed, cursor0, ids) && ids[0] in listed
    ensures cursor == ids[|ids| - 1] && now <= listed ==> Remaining(now, cursor) < Remaining(was, cursor0)
  {
    InTurnAscends(listed, cursor0, ids, |ids| - 1);
    if cursor == ids[|ids| - 1] && now <= listed {
      assert ids[0] !in Remaining(now, cursor) && ids[0] in Remaining(was, cursor0);
    }
  }

  lemma {:induction false} InTurnAscends(stale: set<int>, after: int, ids: seq<int>, i: nat)
    requires i < |ids| && InTurn(stale, after, ids)
    ensures after < ids[0] <= ids[i]
  {
    if i == 0 {
      assert Before(after, ids, 0) < ids[0];
    } else {
      InTurnAscends(stale, after, ids, i - 1);
      assert Before(after, ids, i) < ids[i];
    }
  }

  lemma AttemptDone(m0: Moment, m: Moment, m': Moment, res: Result, pass: Pass, cursor: int, id: int, ok: bool,
      changed: bool)
    requires Reached(m0, m, pass, cursor) && Tallied(res, pass, 0)
    requires cursor < id && id in pass.start && forall k :: k in m.rows.stale && cursor < k ==> id <= k
    requires m'.rows.stale <= m.rows.stale && m'.rows.stamped == m.rows.stamped
    requires m'.ledger.became == m.ledger.became && (changed ==> ok) && (ok ==> id !in m'.rows.stale)
    requires OneMore(m.answers, m'.answers, ok, changed)
    requires forall k :: m'.ledger.redone(k) == m.ledger.redone(k) + (if changed && k == id then 1 else 0)
    requires forall k :: m'.ledger.displaced(k) == m.ledger.displaced(k)
                         + (if k in m.rows.stale && k !in m'.rows.stale && !(changed && k == id) then 1 else 0)
    ensures var pass' := pass.Attempt(id, ok, changed);
            Reached(m0, m', pass', id) && Tallied(res.Count(ok, changed), pass', 0) && Tallied(res, pass', 1)
  {
    AttemptReaches(m0, m, m', pass, cursor, id, ok, changed);
    TallyOne(res, pass, id, ok, changed);
  }

  /** What a pass begun at m0 with the table then stale has come to at m. */
  ghost predicate Passed(m0: Moment, m: Moment, pass: Pass, res: Result, end: End, uncounted: bool) {
    && m.rows.stale <= m0.rows.stale && pass.start == m0.rows.stale
    && (forall k :: k in pass.redone ==> k !in m.rows.stale)
    && (forall k :: m.ledger.became(k) == m0.ledger.became(k))
    && (forall k :: m.ledger.redone(k) == m0.ledger.redone(k) + (if k in pass.redone then 1 else 0))
    && Ascending(pass.attempts) && (forall i :: 0 <= i < |pass.attempts| ==> pass.attempts[i] in pass.start)
    && res.Done() + (if uncounted then 1 else 0) == |pass.attempts| && res.Done() <= res.total
    && Reported(m0.answers, m.answers, res, uncounted) && (uncounted ==> end == Stopped(Interrupted))
    && (!end.Stopped? ==> res.failed == |pass.failures| && res.reprojected == |pass.redone|)
    && (!end.Stopped? ==> forall k :: k in pass.start && 0 < k && k !in pass.attempts ==>
          m.ledger.displaced(k) > m0.ledger.displaced(k))
    && (end.Stamped? || m.rows.stamped != m0.rows.stamped ==>
          m.rows.stamped && !m.ledger.repairedUnderStamp && m.rows.stale == {} && res.failed == 0)
    && (m.rows.stamped != m0.rows.stamped ==> end.Stamped? || end == Stopped(StatusFailed))
  }

  lemma PassedToEnd(m0: Moment, m: Moment, m': Moment, pass: Pass, cursor: int, res: Result, end: End)
    requires Reached(m0, m, pass, cursor) && Tallied(res, pass, 0) && res.Done() <= res.total
    requires m'.rows.stale <= m.rows.stale && m'.answers == m.answers
    requires m'.ledger.redone == m.ledger.redone && m'.ledger.became == m.ledger.became
    requires forall k :: m'.ledger.displaced(k) >= m.ledger.displaced(k)
    requires forall k :: k in m.rows.stale && 0 < k ==> k in pass.failures
    requires end.Stamped? || m'.rows.stamped != m.rows.stamped ==>
               m'.rows.stamped && !m'.ledger.repairedUnderStamp && m'.rows.stale == {} && res.failed == 0
    requires m'.rows.stamped != m.rows.stamped ==> end.Stamped? || end == Stopped(StatusFailed)
    ensures Passed(m0, m', pass, res, end, false)
  {
    forall k | k in pass.start && 0 < k && k !in pass.attempts
      ensures m'.ledger.displaced(k) > m0.ledger.displaced(k)
    {
      assert k !in m.rows.stale && k !in pass.redone;
    }
  }

  const DEFAULT_REPROJECT_BATCH := 200

  class Reprojector {
    const table: Table
    const batch: int
    const hasProgress: bool

    constructor (table: Table, batch: int, hasProgress: bool)
      ensures this.table == table && this.batch == batch && this.hasProgress == hasProgress
    {
      this.table, this.batch, this.hasProgress := table, batch, hasProgress;
    }

    ghost function Now(): Moment
      reads table`rows, table`ledger, table`answers
    {
      Moment(table.rows, table.ledger, table.answers)
    }

    /** Counts the stale rows and claims the upgrade status, waiting while another run holds it. polls is how
        many times it may ask before its context ends. */
    method Begin(polls: nat) returns (total: nat, stopped: Option<Cause>)
      requires table.Valid()
      modifies table`rows, table`ledger, table`faults, table`lastFault, table`status, table`ended, table`trail
      ensures stopped.None? && hasProgress ==> table.status == Claimed(total)
      ensures !old(table.trail).recent ==> table.trail == old(table.trail)
      ensures table.Valid() && OthersOnly(old(table.rows), old(table.ledger), table.rows, table.ledger)
      ensures stopped.None? ==> |table.rows.stale| <= total <= |old(table.rows).stale|
      ensures table.Met(old(table.faults), stopped)
    {
      total, stopped := 0, None;
      for asked := 0 to polls
        invariant table.Valid() && OthersOnly(old(table.rows), old(table.ledger), table.rows, table.ledger)
        invariant table.faults == old(table.faults) && stopped.None?
        invariant !old(table.trail).recent ==> table.trail == old(table.trail)
      {
        var counted, n := table.CountStale();
        if !counted {
          return total, Some(CountFailed);
        }
        total := n;
        FewerStale(table.rows.stale, old(table.rows).stale);
        if !hasProgress {
          return;
        }
        var claim := table.ClaimStatus(total);
        if claim.Granted? {
          return;
        }
        if claim.Denied? {
          return total, Some(StatusFailed);
        }
        var ended := table.Interrupts();
        if ended {
          return total, Some(Interrupted);
        }
      }
      stopped := table.ContextEnds();
    }

    /** No row was handed over after the context had ended, and the attempt that is not counted is the one
        right after which it was found to have. */
    ghost predicate Heeded(before: Trail, stopped: Option<Cause>, uncounted: nat)
      reads table`trail
    {
      && table.trail.late == before.late && uncounted <= 1
      && (uncounted > 0 <==> stopped == Some(Interrupted) && table.trail.recent)
      && (stopped.None? ==> !table.trail.recent)
    }

    /** Hands the next row to the store. */
    method TryRow(id: int, ghost res0: Result, ghost cursor0: int, ghost pass0: Pass, ghost m0: Moment)
      returns (ok: bool, changed: bool, ghost pass: Pass)
      requires table.Valid() && Reached(m0, Now(), pass0, cursor0) && Tallied(res0, pass0, 0)
      requires cursor0 < id && id in pass0.start
      requires forall k :: k in table.rows.stale && cursor0 < k ==> id <= k
      modifies table`rows, table`ledger, table`answers, table`ended, table`trail
      ensures table.trail.recent && (!old(table.ended) ==> table.trail.late == old(table.trail).late)
      ensures table.Valid() && Reached(m0, Now(), pass, id) && table.rows.stale <= old(table.rows).stale
      ensures Tallied(res0.Count(ok, changed), pass, 0) && Tallied(res0, pass, 1)
    {
      ghost var m := Now();
      ok, changed := table.Reproject(id);
      AttemptDone(m0, m, Now(), res0, pass0, cursor0, id, ok, changed);
      pass := pass0.Attempt(id, ok, changed);
    }

    /** One turn of the loop over a page; a run cut off right after an attempt does not count it. */
    method RunRow(id: int, res0: Result, ghost cursor0: int, ghost pass0: Pass, ghost m0: Moment)
      returns (res: Result, interrupted: bool, ghost cursor: int, ghost pass: Pass, ghost uncounted: nat)
      requires table.Valid() && Reached(m0, Now(), pass0, cursor0) && Tallied(res0, pass0, 0)
      requires cursor0 < id && id in pass0.start
      requires forall k :: k in table.rows.stale && cursor0 < k ==> id <= k
      requires !table.trail.recent
      modifies table`rows, table`ledger, table`answers, table`faults, table`lastFault, table`ended, table`trail
      ensures Heeded(old(table.trail), if interrupted then Some(Interrupted) else None, uncounted)
      ensures table.Valid() && Reached(m0, Now(), pass, cursor) && table.rows.stale <= old(table.rows).stale
      ensures res.total == res0.total && uncounted <= 1 && Tallied(res, pass, uncounted)
      ensures !interrupted ==> uncounted == 0 && cursor == id
      ensures table.Met(old(table.faults), if interrupted then Some(Interrupted) else None)
    {
      res, cursor, pass, uncounted := res0, cursor0, pass0, 0;
      interrupted := table.Interrupts();
      if interrupted {
        return;
      }
      var ok, changed;
      ok, changed, pass := TryRow(id, res0, cursor0, pass0, m0);
      cursor := id;
      interrupted := table.Interrupts();
      if interrupted {
        uncounted := 1;
        return;
      }
      res := res0.Count(ok, changed);
    }

    /** Hands one listed page to the store, row by row, until its context ends. */
    method RunPage(ids: seq<int>, res0: Result, ghost cursor0: int, ghost pass0: Pass, ghost m0: Moment)
      returns (res: Result, stopped: Option<Cause>, ghost cursor: int, ghost pass: Pass, ghost uncounted: nat)
      requires table.Valid() && Reached(m0, Now(), pass0, cursor0) && Tallied(res0, pass0, 0)
      requires InTurn(table.rows.stale, cursor0, ids) && forall i :: 0 <= i < |ids| ==> ids[i] in pass0.start
      requires !table.trail.recent
      modifies table`rows, table`ledger, table`answers, table`faults, table`lastFault, table`ended, table`trail
      ensures Heeded(old(table.trail), stopped, uncounted)
      ensures table.Valid() && Reached(m0, Now(), pass, cursor) && table.rows.stale <= old(table.rows).stale
      ensures res.total == res0.total && uncounted <= 1 && Tallied(res, pass, uncounted)
      ensures stopped.None? ==> uncounted == 0 && cursor == Before(cursor0, ids, |ids|)
      ensures table.Met(old(table.faults), stopped) && (stopped.Some? ==> stopped == Some(Interrupted))
    {
      res, stopped, cursor, pass, uncounted := res0, None, cursor0, pass0, 0;
      var i := 0;
      while i < |ids| && stopped.None?
        invariant 0 <= i <= |ids|
        invariant stopped.None? ==> uncounted == 0 && cursor == Before(cursor0, ids, i)
        invariant table.Valid() && Reached(m0, Now(), pass, cursor) && table.rows.stale <= old(table.rows).stale
        invariant res.total == res0.total && uncounted <= 1 && Tallied(res, pass, uncounted)
        invariant table.Met(old(table.faults), stopped) && (stopped.Some? ==> stopped == Some(Interrupted))
        invariant Heeded(old(table.trail), stopped, uncounted)
      {
        assert pass.start == m0.rows.stale == pass0.start;
        var interrupted;
        res, interrupted, cursor, pass, uncounted := RunRow(ids[i], res, cursor, pass, m0);
        stopped := if interrupted then Some(Interrupted) else None;
        i := i + 1;
      }
    }

    /** Lists the rows after the cursor and runs the page. */
    method ListAndRun(size: nat, res0: Result, cursor0: int, ghost pass0: Pass, ghost m0: Moment)
      returns (res: Result, cursor: int, more: bool, stopped: Option<Cause>, ghost at: int, ghost pass: Pass,
        ghost uncounted: nat)
      requires table.Valid() && Reached(m0, Now(), pass0, cursor0) && Tallied(res0, pass0, 0) && size > 0
      requires !table.trail.recent
      modifies table
      ensures table.repairs == old(table.repairs)
      ensures table.Valid() && Tallied(res, pass, uncounted) && uncounted <= 1
      ensures Reached(m0, Now(), pass, at) && (stopped.None? ==> at == cursor)
      ensures res.total == res0.total
      ensures Heeded(old(table.trail), stopped, uncounted) && table.limit == size
      ensures stopped.None? && !more ==> Settled(pass)
      ensures stopped.None? && more && hasProgress ==> table.status == Ticked(res.Done(), res.failed)
      ensures stopped.None? && !more ==> table.status == old(table.status) && res == res0
      ensures stopped.None? && more ==> Remaining(table.rows.stale, cursor) < Remaining(old(table.rows).stale, cursor0)
      ensures table.Met(old(table.faults), stopped)
    {
      ghost var m := Now();
      res, cursor, more, stopped, at, pass, uncounted := res0, cursor0, false, None, cursor0, pass0, 0;
      var listed, ids := table.ListStale(cursor, size);
      OthersKeepReached(m0, m, Now(), pass, cursor);
      if !listed {
        stopped := Some(table.Or(ListFailed));
        return;
      }
      PageIsNextKeys(table.rows.stale, cursor, size);
      if ids == [] {
        return;
      }
      more := true;
      PageIsInTurn(table.rows.stale, cursor, size);
      ghost var listedRows := table.rows.stale;
      res, cursor, stopped, at, pass, uncounted := RunListed(ids, res, cursor, pass, m0);
      FewerRemain(m.rows.stale, listedRows, table.rows.stale, ids, cursor0, cursor);
    }

    /** Runs a page that is not empty, moves the cursor to its end and writes the status. */
    method RunListed(ids: seq<int>, res0: Result, cursor0: int, ghost pass0: Pass, ghost m0: Moment)
      returns (res: Result, cursor: int, stopped: Option<Cause>, ghost at: int, ghost pass: Pass, ghost uncounted: nat)
      requires table.Valid() && Reached(m0, Now(), pass0, cursor0) && Tallied(res0, pass0, 0) && ids != []
      requires InTurn(table.rows.stale, cursor0, ids) && forall i :: 0 <= i < |ids| ==> ids[i] in pass0.start
      requires !table.trail.recent
      modifies table
      ensures table.repairs == old(table.repairs) && table.limit == old(table.limit)
      ensures table.Valid() && Tallied(res, pass, uncounted) && uncounted <= 1 && res.total == res0.total
      ensures Reached(m0, Now(), pass, at) && (stopped.None? ==> at == cursor)
      ensures Heeded(old(table.trail), stopped, uncounted)
      ensures stopped.None? ==> cursor == ids[|ids| - 1] && table.rows.stale <= old(table.rows).stale
      ensures stopped.None? && hasProgress ==> table.status == Ticked(res.Done(), res.failed)
      ensures table.Met(old(table.faults), stopped)
    {
      cursor := cursor0;
      res, stopped, at, pass, uncounted := RunPage(ids, res0, cursor0, pass0, m0);
      if stopped.None? {
        cursor := ids[|ids| - 1];
        stopped := Tick(res);
      }
    }

    /** Writes how far the pass has come. */
    method Tick(res: Result) returns (stopped: Option<Cause>)
      requires table.Valid()
      modifies table
      ensures table.Valid() && Now() == old(Now()) && table.trail == old(table.trail)
      ensures table.repairs == old(table.repairs) && table.limit == old(table.limit)
      ensures table.Met(old(table.faults), stopped) && (stopped.Some? ==> stopped.value == StatusFailed)
      ensures stopped.None? && hasProgress ==> table.status == Ticked(res.Done(), res.failed)
    {
      stopped := None;
      if hasProgress {
        var ticked := table.WriteStatus(Ticked(res.Done(), res.failed));
        stopped := if ticked then None else Some(StatusFailed);
      }
    }

    /** The status tells how far the pass has come, or what it said before when it has not begun. */
    ghost predicate Told(res: Result, before: Status)
      reads table`status
    {
      table.status == Ticked(res.Done(), res.failed) || (table.status == before && res.Done() == 0)
    }

    /** No row is left stale but those that failed (and one with an empty id). */
    ghost predicate Settled(pass: Pass)
      reads table`rows
    {
      forall k :: k in table.rows.stale && 0 < k ==> k in pass.failures
    }

    /** The listing loop, from the start of the pass to the first empty page. */
    method RunPass(total: nat)
      returns (res: Result, stopped: Option<Cause>, ghost pass: Pass, ghost at: int, ghost uncounted: nat)
      requires table.Valid() && |table.rows.stale| <= total
      requires !table.trail.recent
      modifies table
      ensures table.repairs == old(table.repairs)
      ensures table.Valid() && Reached(old(Now()), Now(), pass, at)
      ensures Tallied(res, pass, uncounted) && uncounted <= 1
      ensures res.total == total && res.Done() <= total
      ensures Heeded(old(table.trail), stopped, uncounted)
      ensures table.limit == if batch <= 0 then 200 else batch
      ensures stopped.None? ==> Settled(pass)
      ensures stopped.None? && hasProgress ==> Told(res, old(table.status))
      ensures table.Met(old(table.faults), stopped)
    {
      ghost var m0 := Now();
      res, pass := Result(total, 0, 0, 0), Pass(table.rows.stale, [], Answers(0, 0, 0), {}, {});
      uncounted, stopped := 0, None;
      var size := if batch <= 0 then DEFAULT_REPROJECT_BATCH else batch;
      var cursor, more := 0, true;
      at := 0;
      while more && stopped.None?
        invariant table.Valid() && Reached(m0, Now(), pass, at)
        invariant Tallied(res, pass, uncounted) && uncounted <= 1 && res.total == total
        invariant stopped.None? ==> at == cursor
        invariant table.repairs == old(table.repairs) && Heeded(old(table.trail), stopped, uncounted)
            && (table.limit == size || (more && stopped.None?))
        invariant stopped.None? && hasProgress ==> Told(res, old(table.status))
        invariant stopped.None? && !more ==> Settled(pass)
        invariant table.Met(old(table.faults), stopped)
        decreases more && stopped.None?, Remaining(table.rows.stale, cursor)
      {
        res, cursor, more, stopped, at, pass, uncounted := ListAndRun(size, res, cursor, pass, m0);
      }
      AscendingFits(pass.attempts, pass.start);
    }

    /** Stamps the signature when no row is left stale and none failed. */
    method Finish(res: Result, ghost pass: Pass, ghost m0: Moment, ghost at: int) returns (end: End)
      requires table.Valid() && Reached(m0, Now(), pass, at) && Tallied(res, pass, 0) && Settled(pass)
      modifies table`rows, table`ledger, table`faults, table`lastFault, table`status
      ensures end.Stamped? && hasProgress ==> table.status == Completed
      ensures table.Valid() && Settled(pass) && table.rows.stale <= old(table.rows).stale
      ensures table.ledger.redone == old(table.ledger).redone && table.ledger.became == old(table.ledger).became
      ensures forall k :: table.ledger.displaced(k) >= old(table.ledger).displaced(k)
      ensures end.Stamped? || table.rows.stamped != old(table.rows).stamped ==>
          table.rows.stamped && !table.ledger.repairedUnderStamp && table.rows.stale == {} && res.failed == 0
      ensures end.LeftStale? ==> res.failed > 0 || 0 in table.rows.stale
      ensures end.LeftStale? ==> table.rows.stamped == old(table.rows).stamped
      ensures table.Met(old(table.faults), if end.Stopped? then Some(end.cause) else None)
      ensures end.Stopped? && end.cause != StatusFailed ==> table.rows.stamped == old(table.rows).stamped
    {
      var counted, left := table.CountStale();
      if !counted {
        return Stopped(CountFailed);
      }
      NoneLeft(table.rows.stale, res, pass);
      if left > 0 || res.failed > 0 {
        return LeftStale;
      }
      var stampOk := table.Stamp();
      if !stampOk {
        return Stopped(StampFailed);
      }
      end := Stamped;
      if hasProgress {
        var told := table.WriteStatus(Completed);
        end := if told then Stamped else Stopped(StatusFailed);
      }
    }

    /** The pass over the rows stale now, and what follows a pass that was not cut off. */
    method PassAndFinish(total: nat) returns (res: Result, end: End, ghost pass: Pass, ghost uncounted: bool)
      requires table.Valid() && |table.rows.stale| <= total
      requires !table.trail.recent
      modifies table
      ensures table.repairs == old(table.repairs)
      ensures table.Valid() && Passed(old(Now()), Now(), pass, res, end, uncounted) && res.total == total
      ensures table.Met(old(table.faults), if end.Stopped? then Some(end.cause) else None)
      ensures end.Stamped? && hasProgress ==> table.status == Completed
      ensures end.LeftStale? ==> res.failed > 0 || 0 in table.rows.stale
      ensures !end.Stopped? ==> Settled(pass)
      ensures table.trail.late == old(table.trail).late
      ensures uncounted <==> end == Stopped(Interrupted) && table.trail.recent
    {
      ghost var m0, at, dropped := Now(), 0, 0;
      var stopped;
      res, stopped, pass, at, dropped := RunPass(total);
      uncounted := dropped > 0;
      if stopped.Some? {
        return res, Stopped(stopped.value), pass, uncounted;
      }
      ghost var m := Now();
      end := Finish(res, pass, m0, at);
      PassedToEnd(m0, m, Now(), pass, at, res, end);
    }

    /** One run. polls bounds how often it asks for the upgrade status before its context ends. repaired
        is what text repair marked stale, began the moment the pass began. */
    method Run(polls: nat)
      returns (res: Result, end: End, ghost pass: Pass, ghost began: Moment, ghost repaired: set<int>,
          ghost uncounted: bool)
      requires table.Valid()
      modifies table
      ensures table.Valid()
      // Only text repair makes rows stale, and a row re-projected in the run is not stale after it.
      ensures table.rows.stale <= old(table.rows).stale + repaired
      ensures forall k :: k in pass.redone ==> k !in table.rows.stale
      ensures forall k :: table.ledger.became(k) == old(table.ledger).became(k) + (if k in repaired then 1 else 0)
      // Every attempted row was stale when the pass began, and none is attempted twice.
      ensures pass.start <= old(table.rows).stale + repaired
      ensures Ascending(pass.attempts) && forall i :: 0 <= i < |pass.attempts| ==> pass.attempts[i] in pass.start
      ensures res.Done() <= |pass.attempts| <= res.Done() + 1 && res.Done() <= res.total
      ensures forall k :: table.ledger.redone(k) == old(table.ledger).redone(k) + (if k in pass.redone then 1 else 0)
      // A pass that was not cut off reached every row that was not deleted or rewritten since it began,
      // and only rows that failed are left stale.
      ensures !end.Stopped? ==>
          res.Done() == |pass.attempts| && res.failed == |pass.failures| && res.reprojected == |pass.redone|
      ensures !end.Stopped? ==> pass.start == began.rows.stale
      ensures !end.Stopped? ==> forall k :: k in pass.start && 0 < k && k !in pass.attempts
                                  ==> table.ledger.displaced(k) > began.ledger.displaced(k)
      ensures !end.Stopped? ==> Settled(pass)
      // The counters are what the store answered, but for a row cut off right after its attempt.
      ensures Reported(old(table.answers), table.answers, res, uncounted)
      ensures uncounted <==> end == Stopped(Interrupted) && table.trail.recent
      // No row is handed over once the context has ended, and text repair comes first.
      ensures table.trail.late == old(table.trail).late && table.repairs == old(table.repairs) + 1
      // The run stops early exactly when a call it cannot do without failed or its context ended, and at once.
      ensures table.Met(old(table.faults), if end.Stopped? then Some(end.cause) else None)
      // The signature is stamped over a table with nothing stale, after a pass with no failure; a
      // pass with no failure is left unstamped only for a row the cursor can never reach. A run can only
      // fail after stamping by not getting its status written.
      ensures end.Stamped? || table.rows.stamped != old(table.rows).stamped ==>
          table.rows.stamped && !table.ledger.repairedUnderStamp && table.rows.stale == {} && res.failed == 0
      ensures table.rows.stamped != old(table.rows).stamped ==> end.Stamped? || end == Stopped(StatusFailed)
      ensures end.Stamped? && hasProgress ==> table.status == Completed
      ensures end.LeftStale? ==> res.failed > 0 || 0 in table.rows.stale
    {
      res, pass, began, uncounted := Result(0, 0, 0, 0), Pass({}, [], Answers(0, 0, 0), {}, {}), Now(), false;
      var ok;
      ok, repaired := table.RepairRefText();
      if !ok {
        return res, Stopped(table.Or(RepairFailed)), pass, began, repaired, false;
      }
      var total, stopped := Begin(polls);
      if stopped.Some? {
        return res.(total := total), Stopped(stopped.value), pass, began, repaired, uncounted;
      }
      began := Now();
      res, end, pass, uncounted := PassAndFinish(total);
    }
  }

  // ---- Resuming ----

  /** One run of many: its pass, how it ended, how many rows failed, the rows after it, the rows text
      repair marked stale in it, and how many new projection versions had come by then. */
  datatype Record = Record(pass: Pass, end: End, failed: nat, after: Rows, repaired: set<int>, upgrades: nat)

  /** Text repair marked row k stale again in one of the runs after i, up to j. */
  ghost predicate RepairedBetween(trace: seq<Record>, i: int, j: int, k: int) {
    exists x :: i < x <= j && 0 <= x < |trace| && k in trace[x].repaired
  }

  /** No finished row reverts: under one projection version, a row not stale after run i is stale now only
      if a run since repaired it. */
  ghost predicate NothingReverts(trace: seq<Record>, rows: Rows, upgrades: nat) {
    forall i, k ::
        0 <= i < |trace| && trace[i].upgrades == upgrades && k !in trace[i].after.stale && k in rows.stale ==>
      RepairedBetween(trace, i, |trace| - 1, k)
  }

  /** No run goes over finished rows again: a row not stale after run i is in no later run's attempts
      under the same projection version, unless a run in between or that run itself repaired it. */
  ghost predicate NothingRepeats(trace: seq<Record>) {
    forall i, j, k ::
        0 <= i < j < |trace| && trace[i].upgrades == trace[j].upgrades && k !in trace[i].after.stale
        && k in trace[j].pass.attempts ==>
      RepairedBetween(trace, i, j, k)
  }

  /** Which run finishes: one that is not cut off and in which no row failed, the cursor reaching every
      row; it leaves all rows current and the signature stamped. */
  ghost predicate Finishes(r: Record) {
    && (forall k :: k in r.pass.redone ==> k !in r.after.stale)
    && (!r.end.Stopped? && r.failed == 0 && 0 !in r.after.stale <==> r.end.Stamped?)
    && (r.end.Stamped? ==> r.after.stale == {} && r.after.stamped)
  }

  lemma RevertsLater(trace: seq<Record>, rows: Rows, rows': Rows, upgrades: nat)
    requires NothingReverts(trace, rows, upgrades) && rows'.stale <= rows.stale
    ensures NothingReverts(trace, rows', upgrades)
  {
  }

  lemma RepairsStay(trace: seq<Record>, r: Record, i: int, j: int, k: int)
    requires RepairedBetween(trace, i, j, k)
    ensures RepairedBetween(trace + [r], i, j, k) && (j < |trace| ==> RepairedBetween(trace + [r], i, |trace|, k))
  {
    var x :| i < x <= j && 0 <= x < |trace| && k in trace[x].repaired;
    assert (trace + [r])[x] == trace[x];
  }

  lemma RunResumes(trace: seq<Record>, rows: Rows, upgrades: nat, r: Record)
    requires NothingReverts(trace, rows, upgrades) && NothingRepeats(trace) && r.upgrades == upgrades
    requires r.after.stale <= rows.stale + r.repaired
    requires forall k :: k in r.pass.attempts ==> k in rows.stale || k in r.repaired
    ensures NothingReverts(trace + [r], r.after, upgrades) && NothingRepeats(trace + [r])
  {
    var longer, n := trace + [r], |trace|;
    forall i, k | 0 <= i < n && trace[i].upgrades == upgrades && k !in trace[i].after.stale
        && (k in rows.stale || k in r.repaired)
      ensures RepairedBetween(longer, i, n, k)
    {
      if k in r.repaired {
        assert k in longer[n].repaired;
      } else {
        RepairsStay(trace, r, i, n - 1, k);
      }
    }
    forall i, j, k | 0 <= i < j < n && trace[i].upgrades == trace[j].upgrades && k !in trace[i].after.stale
        && k in trace[j].pass.attempts
      ensures RepairedBetween(longer, i, j, k)
    {
      RepairsStay(trace, r, i, j, k);
    }
  }

  /** Any life of the table: new projection versions, other writers, and runs cut off anywhere. A row
      re-projected by one run, or current after it for any other reason, is in no later run's attempts and
      never reverts unless it is repaired or a new version comes; and a run that is not cut off and has no
      failure, however many were cut off before it, leaves every row current and the signature stamped. */
  method Life(r: Reprojector, rounds: nat, polls: nat) returns (ghost trace: seq<Record>, ghost upgrades: nat)
    requires r.table.Valid()
    modifies r.table
    ensures r.table.Valid()
    ensures NothingReverts(trace, r.table.rows, upgrades) && NothingRepeats(trace)
    ensures forall i :: 0 <= i < |trace| ==> Finishes(trace[i]) && trace[i].upgrades <= upgrades
    ensures forall k :: r.table.ledger.became(k) == r.table.ledger.redone(k) + r.table.ledger.displaced(k)
                        + (if k in r.table.rows.stale then 1 else 0)
    ensures r.table.rows.stamped && r.table.rows.stale != {} ==> r.table.ledger.repairedUnderStamp
  {
    trace, upgrades := [], 0;
    for i := 0 to rounds
      invariant r.table.Valid()
      invariant NothingReverts(trace, r.table.rows, upgrades) && NothingRepeats(trace)
      invariant forall i :: 0 <= i < |trace| ==> Finishes(trace[i]) && trace[i].upgrades <= upgrades
    {
      ghost var before := r.table.rows;
      r.table.Others();
      RevertsLater(trace, before, r.table.rows, upgrades);
      var upgrade: bool := *;
      if upgrade {
        r.table.Upgrade();
        upgrades := upgrades + 1;
      } else {
        before := r.table.rows;
        var res, end;
        ghost var pass, began, repaired, uncounted;
        res, end, pass, began, repaired, uncounted := r.Run(polls);
        ghost var record := Record(pass, end, res.failed, r.table.rows, repaired, upgrades);
        RunResumes(trace, before, upgrades, record);
        trace := trace + [record];
      }
    }
  }
}
