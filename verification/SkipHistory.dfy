/** What a Syncer's syncs came to, event by event, and what that says about the objects it skips. */
module SkipHistory {
  import opened PushRequests

  /** An object's failure, a page that went through, an object given up on; each in its sync. */
  datatype Event =
    | ObjectFault(sync: nat, id: Name, seqNo: int)
    | PageThrough(sync: nat, page: seq<Object>)
    | GivenUp(sync: nat, id: Name, seqNo: int)

  predicate Holds(page: seq<Object>, id: Name, seqNo: int) {
    exists i :: 0 <= i < |page| && page[i].id == id && page[i].seqNo == seqNo
  }

  /** What ends a run of failures of the version seqNo of object id. */
  predicate Breaks(e: Event, id: Name, seqNo: int) {
    match e
    case ObjectFault(_, i, s) => i != id || s != seqNo
    case PageThrough(_, page) => Holds(page, id, seqNo)
    case GivenUp(_, _, _) => true
  }

  /** How many failures of one version the log ends with, nothing breaking the run. */
  function Run(log: seq<Event>, id: Name, seqNo: int): nat {
    if log == [] || Breaks(log[|log| - 1], id, seqNo) then 0
    else Run(log[..|log| - 1], id, seqNo) + if log[|log| - 1].ObjectFault? then 1 else 0
  }

  /** Syncs follow each other, and a sync ends with an object's failure unless the object is given up on. */
  ghost predicate Orderly(log: seq<Event>) {
    forall i, j {:trigger log[i].sync, log[j].sync} :: 0 <= i < j < |log| && j == i + 1 ==>
      && log[i].sync <= log[j].sync
      && (log[i].ObjectFault? ==> log[i].sync < log[j].sync || log[j].GivenUp?)
  }

  predicate ThirdInARow(log: seq<Event>) {
    log != [] && var e := log[|log| - 1]; e.ObjectFault? && Run(log, e.id, e.seqNo) == 3
  }

  /** An object is given up on right after its third failure in a row, then and only then. */
  ghost predicate Disciplined(log: seq<Event>) {
    log == [] || (Disciplined(log[..|log| - 1]) && Follows(log[..|log| - 1], log[|log| - 1]))
  }

  ghost predicate Follows(log: seq<Event>, e: Event) {
    && (e.GivenUp? <==> ThirdInARow(log))
    && (e.GivenUp? ==> var last := log[|log| - 1]; e == GivenUp(last.sync, last.id, last.seqNo))
  }

  lemma {:induction false} DisciplinedAt(log: seq<Event>, i: nat)
    requires Disciplined(log) && i < |log|
    ensures Follows(log[..i], log[i])
  {
    if i < |log| - 1 {
      DisciplinedAt(log[..|log| - 1], i);
      assert log[..|log| - 1][..i] == log[..i];
    }
  }

  lemma RunNext(log: seq<Event>, e: Event, id: Name, seqNo: int)
    ensures Run(log + [e], id, seqNo)
        == if Breaks(e, id, seqNo) then 0 else Run(log, id, seqNo) + if e.ObjectFault? then 1 else 0
  {
    assert (log + [e])[..|log|] == log;
  }

  lemma LogNext(log: seq<Event>, e: Event)
    requires Orderly(log) && Disciplined(log) && Follows(log, e)
    requires log != [] ==>
        var last := log[|log| - 1]; last.sync <= e.sync && (last.ObjectFault? ==> last.sync < e.sync || e.GivenUp?)
    ensures Orderly(log + [e]) && Disciplined(log + [e])
  {
    assert (log + [e])[..|log|] == log;
  }

  predicate FaultAt(log: seq<Event>, x: int, id: Name, seqNo: int) {
    0 <= x < |log| && log[x].ObjectFault? && log[x].id == id && log[x].seqNo == seqNo
  }

  /** Failures of one version in as many different syncs, with nothing breaking the run since. */
  ghost predicate Witnesses(log: seq<Event>, at: seq<nat>, id: Name, seqNo: int) {
    && (forall x :: 0 <= x < |at| ==> FaultAt(log, at[x], id, seqNo))
    && (forall x, y :: 0 <= x < y < |at| ==> at[x] < at[y] && log[at[x]].sync < log[at[y]].sync)
    && (at != [] ==> forall j :: at[0] <= j < |log| ==> !Breaks(log[j], id, seqNo))
  }

  lemma WitnessesLast(log: seq<Event>, e: Event, at: seq<nat>, id: Name, seqNo: int)
    requires Witnesses(log, at, id, seqNo) && !Breaks(e, id, seqNo)
    ensures Witnesses(log + [e], at, id, seqNo)
  {
    forall x | 0 <= x < |at| ensures FaultAt(log + [e], at[x], id, seqNo) {
      assert FaultAt(log, at[x], id, seqNo);
    }
  }

  lemma OneMoreWitness(log: seq<Event>, at: seq<nat>, id: Name, seqNo: int)
    requires Witnesses(log, at, id, seqNo) && Orderly(log) && FaultAt(log, |log| - 1, id, seqNo)
    requires forall x :: 0 <= x < |at| ==> at[x] < |log| - 1
    ensures Witnesses(log, at + [|log| - 1], id, seqNo)
  {
    forall x | 0 <= x < |at| ensures log[at[x]].sync < log[|log| - 1].sync {
      assert FaultAt(log, at[x], id, seqNo) && at[0] <= at[x];
      LaterSync(log, at[x], |log| - 1, id, seqNo);
    }
  }

  /** A run of n failures shows as n of them, the last of the log among them when it is one. */
  lemma {:induction false} RunHasWitnesses(log: seq<Event>, id: Name, seqNo: int) returns (at: seq<nat>)
    requires Orderly(log)
    ensures |at| == Run(log, id, seqNo) && Witnesses(log, at, id, seqNo)
    ensures FaultAt(log, |log| - 1, id, seqNo) ==> at != [] && at[|at| - 1] == |log| - 1
  {
    at := [];
    if log != [] && !Breaks(log[|log| - 1], id, seqNo) {
      var front, e := log[..|log| - 1], log[|log| - 1];
      assert front + [e] == log;
      at := RunHasWitnesses(front, id, seqNo);
      assert forall x :: 0 <= x < |at| ==> FaultAt(front, at[x], id, seqNo);
      WitnessesLast(front, e, at, id, seqNo);
      if e.ObjectFault? {
        OneMoreWitness(log, at, id, seqNo);
        at := at + [|log| - 1];
      }
    }
  }

  lemma LaterSync(log: seq<Event>, i: nat, j: nat, id: Name, seqNo: int)
    requires Orderly(log) && i < j < |log| && log[i].ObjectFault?
    requires forall x :: i <= x < j ==> !Breaks(log[x], id, seqNo)
    requires !log[j].GivenUp?
    ensures log[i].sync < log[j].sync
  {
    assert log[i].sync < log[i + 1].sync;
    SyncsRise(log, i + 1, j);
  }

  lemma {:induction false} SyncsRise(log: seq<Event>, i: nat, j: nat)
    requires Orderly(log) && i <= j < |log|
    ensures log[i].sync <= log[j].sync
  {
    if i < j {
      SyncsRise(log, i, j - 1);
    }
  }

  /** What giving up on an object takes: three failures of that version in three different syncs, the last
      in this one, and in between no other object's failure, no success of a page holding it and no other
      object given up on. */
  ghost predicate Earned(log: seq<Event>, i: nat, a: nat, b: nat, c: nat)
    requires i < |log| && log[i].GivenUp?
  {
    && a < b < c < i
    && FaultAt(log, a, log[i].id, log[i].seqNo) && FaultAt(log, b, log[i].id, log[i].seqNo)
        && FaultAt(log, c, log[i].id, log[i].seqNo)
    && log[a].sync < log[b].sync < log[c].sync == log[i].sync
    && forall j :: a <= j < i ==> !Breaks(log[j], log[i].id, log[i].seqNo)
  }

  lemma EverySkipIsEarned(log: seq<Event>, i: nat)
    requires Orderly(log) && Disciplined(log) && i < |log| && log[i].GivenUp?
    ensures exists a: nat, b: nat, c: nat :: Earned(log, i, a, b, c)
  {
    var before, id, seqNo := log[..i], log[i].id, log[i].seqNo;
    DisciplinedAt(log, i);
    assert FaultAt(before, i - 1, id, seqNo);
    var at := RunHasWitnesses(before, id, seqNo);
    forall x | x in at ensures FaultAt(log, x, id, seqNo) {
      assert FaultAt(before, x, id, seqNo);
    }
    forall j | at[0] <= j < i ensures !Breaks(log[j], id, seqNo) {
      assert before[j] == log[j];
    }
    assert Earned(log, i, at[0], at[1], at[2]);
  }

  /** One sync gives up on one object at most. */
  lemma OneSkipPerSync(log: seq<Event>, i: nat, j: nat)
    requires Orderly(log) && Disciplined(log) && i < j < |log| && log[i].GivenUp? && log[j].GivenUp?
    ensures log[i].sync < log[j].sync
  {
    EverySkipIsEarned(log, j);
    var a: nat, b: nat, c: nat :| Earned(log, j, a, b, c);
    assert Breaks(log[i], log[j].id, log[j].seqNo);
    assert a > i;
    SyncsRise(log, i, a);
  }
}
