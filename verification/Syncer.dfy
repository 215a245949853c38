/** The Syncer: one source's changes pushed to one target, sync after sync, giving up on an object after
    three failures in a row. */
module Syncing {
  import opened LocalPushing
  import opened LocalTarget
  import opened Pushers
  import opened PushRequests
  import opened SkipHistory
  import opened SyncWorld
  import opened Wrappers

  const DEFAULT_BATCH_SIZE := 100
  const MAX_OBJECT_FAILURES := 3
  const MAX_SKIPPED_RECORDED := 100

  // ---- The books a Syncer keeps ----

  /** The three fields count, for every version there is, the run of failures the log ends with. */
  ghost predicate Books(log: seq<Event>, sync: nat, failingId: Name, failingSeq: int, failures: nat) {
    && Orderly(log) && Disciplined(log) && failures < MAX_OBJECT_FAILURES
    && (forall i :: 0 <= i < |log| ==> log[i].sync <= sync && (log[i].ObjectFault? ==> log[i].seqNo > 0))
    && (forall id, s :: s > 0 ==> Run(log, id, s) == if id == failingId && s == failingSeq then failures else 0)
  }

  function FaultCount(log: seq<Event>): nat {
    if log == [] then 0 else FaultCount(log[..|log| - 1]) + if log[|log| - 1].ObjectFault? then 1 else 0
  }

  /** Where the last page that went through in this sync ends. */
  function Reach(log: seq<Event>, sync: nat): int {
    if log == [] || log[|log| - 1].sync < sync then 0
    else if log[|log| - 1].PageThrough? then End(log[|log| - 1].page)
    else Reach(log[..|log| - 1], sync)
  }

  lemma LogGrows(log: seq<Event>, e: Event)
    ensures FaultCount(log + [e]) == FaultCount(log) + if e.ObjectFault? then 1 else 0
    ensures Reach(log + [e], e.sync) == if e.PageThrough? then End(e.page) else Reach(log, e.sync)
  {
    assert (log + [e])[..|log|] == log;
  }

  /** The versions up to n. */
  function Upto(round: set<int>, n: int): set<int> {
    set s | s in round && s <= n
  }

  /** No object has failed this sync without being given up on. */
  ghost predicate Unfailed(log: seq<Event>, sync: nat) {
    log == [] || log[|log| - 1].sync < sync || !log[|log| - 1].ObjectFault?
  }

  /** What the log says of an attempt that came to res: it ends with the failure of the object blamed, or
      with no failure of this sync that was not made good by giving up on the object. */
  ghost predicate Told(log: seq<Event>, sync: nat, res: PushResult) {
    if res.ObjectFailed? then log != [] && log[|log| - 1].ObjectFault? && log[|log| - 1].sync == sync
        && log[|log| - 1].id == res.id
    else Unfailed(log, sync)
  }

  /** Of all failures this sync logged, only the one it returned was not followed by giving up. */
  ghost predicate FaultsSettled(log: seq<Event>, sync: nat, res: PushResult) {
    forall i {:trigger log[i].sync} ::
        0 <= i < |log| && log[i].ObjectFault? && log[i].sync == sync && !(res.ObjectFailed? && i == |log| - 1) ==>
      i + 1 < |log| && log[i + 1] == GivenUp(sync, log[i].id, log[i].seqNo)
  }

  lemma ToldSettles(log: seq<Event>, sync: nat, res: PushResult)
    requires Told(log, sync, res) && Orderly(log) && Disciplined(log)
    requires forall i :: 0 <= i < |log| ==> log[i].sync <= sync
    ensures FaultsSettled(log, sync, res)
  {
    forall i | 0 <= i < |log| && log[i].ObjectFault? && log[i].sync == sync && !(res.ObjectFailed? && i == |log| - 1)
      ensures i + 1 < |log| && log[i + 1] == GivenUp(sync, log[i].id, log[i].seqNo)
    {
      assert i + 1 < |log| && log[i + 1].sync <= sync;
      GivenUpNext(log, i);
    }
  }

  lemma GivenUpNext(log: seq<Event>, i: nat)
    requires Disciplined(log) && i + 1 < |log| && log[i].ObjectFault? && log[i + 1].GivenUp?
    ensures log[i + 1] == GivenUp(log[i].sync, log[i].id, log[i].seqNo)
  {
    DisciplinedAt(log, i + 1);
    assert log[..i + 1][i] == log[i];
  }

  /** The version seqNo of id has just failed for the third time in a row. */
  ghost predicate JustThird(log: seq<Event>, sync: nat, id: Name, seqNo: int) {
    && Orderly(log) && Disciplined(log) && ThirdInARow(log)
    && log[|log| - 1] == ObjectFault(sync, id, seqNo)
    && (forall i :: 0 <= i < |log| ==> log[i].sync <= sync && (log[i].ObjectFault? ==> log[i].seqNo > 0))
  }

  lemma BooksNextSync(log: seq<Event>, sync: nat, failingId: Name, failingSeq: int, failures: nat)
    requires Books(log, sync, failingId, failingSeq, failures)
    ensures Books(log, sync + 1, failingId, failingSeq, failures) && Unfailed(log, sync + 1)
  {
  }

  lemma BooksAfterFault(log: seq<Event>, sync: nat, failingId: Name, failingSeq: int, failures: nat, id: Name,
      seqNo: int)
    requires Books(log, sync, failingId, failingSeq, failures) && Unfailed(log, sync) && seqNo > 0
    ensures var n := if id == failingId && seqNo == failingSeq then failures + 1 else 1;
            var log' := log + [ObjectFault(sync, id, seqNo)];
            if n < MAX_OBJECT_FAILURES then Books(log', sync, id, seqNo, n) else JustThird(log', sync, id, seqNo)
  {
    var e := ObjectFault(sync, id, seqNo);
    assert !ThirdInARow(log);
    LogNext(log, e);
    forall i, s {
      RunNext(log, e, i, s);
    }
  }

  lemma BooksAfterSkip(log: seq<Event>, sync: nat, id: Name, seqNo: int)
    requires JustThird(log, sync, id, seqNo)
    ensures Books(log + [GivenUp(sync, id, seqNo)], sync, EMPTY, 0, 0)
  {
    var e := GivenUp(sync, id, seqNo);
    LogNext(log, e);
    forall i, s {
      RunNext(log, e, i, s);
    }
  }

  lemma BooksAfterPage(log: seq<Event>, sync: nat, failingId: Name, failingSeq: int, failures: nat, page: seq<Object>)
    requires Books(log, sync, failingId, failingSeq, failures) && Unfailed(log, sync)
    ensures var log' := log + [PageThrough(sync, page)];
            if Holds(page, failingId, failingSeq) then Books(log', sync, EMPTY, 0, 0)
                else Books(log', sync, failingId, failingSeq, failures)
  {
    var e := PageThrough(sync, page);
    assert !ThirdInARow(log);
    LogNext(log, e);
    forall i, s {
      RunNext(log, e, i, s);
    }
  }

  /** What was given up on, oldest first. */
  function GivenUps(log: seq<Event>): seq<(Name, int)> {
    if log == [] then []
    else
      var e := log[|log| - 1];
      GivenUps(log[..|log| - 1]) + if e.GivenUp? then [(e.id, e.seqNo)] else []
  }

  /** The versions given up on. */
  function GivenSet(log: seq<Event>): set<int> {
    if log == [] then {}
    else
      var e := log[|log| - 1];
      GivenSet(log[..|log| - 1]) + if e.GivenUp? then {e.seqNo} else {}
  }

  function Newest<T>(s: seq<T>, n: nat): seq<T> {
    if |s| <= n then s else s[|s| - n..]
  }

  lemma GivenUpsNext(log: seq<Event>, e: Event)
    ensures GivenUps(log + [e]) == GivenUps(log) + if e.GivenUp? then [(e.id, e.seqNo)] else []
    ensures GivenSet(log + [e]) == GivenSet(log) + if e.GivenUp? then {e.seqNo} else {}
  {
    assert (log + [e])[..|log|] == log;
  }

  lemma {:induction false} GivenSetIs(log: seq<Event>, s: int)
    ensures s in GivenSet(log) <==> exists i :: 0 <= i < |log| && log[i].GivenUp? && log[i].seqNo == s
  {
    if log != [] {
      var front := log[..|log| - 1];
      GivenSetIs(front, s);
      if s in GivenSet(front) {
        var i :| 0 <= i < |front| && front[i].GivenUp? && front[i].seqNo == s;
        assert log[i] == front[i];
      }
    }
  }

  lemma NewestNext<T>(s: seq<T>, n: nat, x: T)
    requires n > 0
    ensures Newest(s + [x], n) == Newest(Newest(s, n) + [x], n)
  {
  }

  // ---- A page without what is skipped ----

  predicate Leaves(skip: map<Name, int>, o: Object) {
    o.id in skip && skip[o.id] == o.seqNo
  }

  function Kept(page: seq<Object>, skip: map<Name, int>): seq<Object> {
    if page == [] then []
    else Kept(page[..|page| - 1], skip) + if Leaves(skip, page[|page| - 1]) then [] else [page[|page| - 1]]
  }

  lemma {:induction false} KeptIs(page: seq<Object>, skip: map<Name, int>)
    ensures forall i :: 0 <= i < |Kept(page, skip)| ==>
        Kept(page, skip)[i] in page && !Leaves(skip, Kept(page, skip)[i])
    ensures forall i :: 0 <= i < |page| && !Leaves(skip, page[i]) ==> page[i] in Kept(page, skip)
  {
    if page != [] {
      KeptIs(page[..|page| - 1], skip);
    }
  }

  lemma {:induction false} KeptInOrder(page: seq<Object>, skip: map<Name, int>)
    requires InOrder(page) && UniqueIds(page)
    ensures InOrder(Kept(page, skip)) && UniqueIds(Kept(page, skip))
  {
    if page != [] {
      var front, o := page[..|page| - 1], page[|page| - 1];
      KeptInOrder(front, skip);
      KeptIs(front, skip);
      OneMoreInOrder(page, Kept(front, skip));
    }
  }

  lemma OneMoreInOrder(page: seq<Object>, kept: seq<Object>)
    requires page != [] && InOrder(page) && UniqueIds(page) && InOrder(kept) && UniqueIds(kept)
    requires forall i :: 0 <= i < |kept| ==> kept[i] in page[..|page| - 1]
    ensures InOrder(kept + [page[|page| - 1]]) && UniqueIds(kept + [page[|page| - 1]])
  {
    var o := page[|page| - 1];
    forall i | 0 <= i < |kept| ensures kept[i].seqNo < o.seqNo && kept[i].id != o.id {
      var j :| 0 <= j < |page[..|page| - 1]| && page[..|page| - 1][j] == kept[i];
      assert page[j] == kept[i];
    }
  }

  /** Every skip on file is of a version known to be skipped. */
  ghost predicate SkipsKnown(skip: map<Name, int>, known: set<int>) {
    forall id :: id in skip ==> skip[id] in known
  }

  lemma SeqsHas(objects: seq<Object>, o: Object)
    ensures o in objects ==> o.seqNo in Seqs(objects)
  {
    if o in objects {
      var i :| 0 <= i < |objects| && objects[i] == o;
    }
  }

  lemma KeptSeqs(page: seq<Object>, skip: map<Name, int>)
    requires InOrder(page)
    ensures Seqs(Kept(page, skip)) <= Seqs(page) && (Kept(page, skip) != [] ==> End(Kept(page, skip)) <= End(page))
    ensures forall k :: k in Seqs(page) && k !in Seqs(Kept(page, skip)) ==> exists id :: id in skip && skip[id] == k
  {
    KeptIs(page, skip);
    var kept := Kept(page, skip);
    forall k | k in Seqs(kept) ensures k in Seqs(page) && k <= End(page) {
      var i :| 0 <= i < |kept| && kept[i].seqNo == k;
      var j :| 0 <= j < |page| && page[j] == kept[i];
    }
    assert kept != [] ==> kept[|kept| - 1].seqNo in Seqs(kept);
    forall k | k in Seqs(page) && k !in Seqs(kept) ensures exists id :: id in skip && skip[id] == k {
      var x :| 0 <= x < |page| && page[x].seqNo == k;
      assert Leaves(skip, page[x]) by {
        SeqsHas(kept, page[x]);
      }
    }
  }

  lemma KeptIsReady(f: Fed, page: seq<Object>, skip: map<Name, int>)
    requires Ready(f, page) && UniqueIds(page) && SkipsKnown(skip, f.skipped)
    ensures Ready(f, Kept(page, skip)) && UniqueIds(Kept(page, skip)) && Seqs(Kept(page, skip)) <= Seqs(page)
  {
    KeptSeqs(page, skip);
    KeptInOrder(page, skip);
    var kept := Kept(page, skip);
    forall i | 0 <= i < |kept| ensures 0 < kept[i].seqNo <= f.clock {
      assert kept[i].seqNo in Seqs(kept) && kept[i].seqNo in Seqs(page);
    }
  }

  /** With the whole page acknowledged or skipped, everything up to its end is covered. */
  lemma PageCovers(f: Fed, page: seq<Object>, skip: map<Name, int>)
    requires WellFormed(f) && Ready(f, page) && UniqueIds(page) && SkipsKnown(skip, f.skipped) && page != []
    requires Seqs(Kept(page, skip)) <= f.acked
    ensures CoveredUpTo(f, page[|page| - 1].seqNo)
  {
    KeptSeqs(page, skip);
  }

  lemma {:induction false} CountSeqs(objects: seq<Object>)
    requires InOrder(objects)
    ensures |Seqs(objects)| == |objects|
  {
    if objects != [] {
      var front, o := objects[..|objects| - 1], objects[|objects| - 1];
      CountSeqs(front);
      SeqsOfConcat(front, [o]);
      assert front + [o] == objects;
      assert Seqs([o]) == {o.seqNo} by {
        assert [o][0].seqNo in Seqs([o]);
      }
      assert o.seqNo !in Seqs(front);
    }
  }

  lemma CountTogether(a: set<int>, b: set<int>, pos: int)
    requires forall s :: s in a ==> s <= pos
    requires forall s :: s in b ==> s > pos
    ensures |a + b| == |a| + |b|
  {
    forall s | s in a ensures s !in b {
      assert s <= pos;
    }
    assert a * b == {};
  }

  /** All a Syncer keeps agrees with its log: known are the versions skipped by now, before those skipped
      when it was made. */
  ghost predicate Tidy(log: seq<Event>, sync: nat, failingId: Name, failingSeq: int, failures: nat,
      skip: map<Name, int>, skipped: seq<(Name, int)>, before: set<int>, known: set<int>)
  {
    && Books(log, sync, failingId, failingSeq, failures)
    && Filed(log, skip, skipped, before, known)
  }

  ghost predicate Filed(log: seq<Event>, skip: map<Name, int>, skipped: seq<(Name, int)>, before: set<int>,
      known: set<int>)
  {
    && SkipsKnown(skip, known) && known == before + GivenSet(log)
    && skipped == Newest(GivenUps(log), MAX_SKIPPED_RECORDED)
  }

  lemma FiledNext(log: seq<Event>, e: Event, skip: map<Name, int>, skipped: seq<(Name, int)>, before: set<int>,
      known: set<int>)
    requires Filed(log, skip, skipped, before, known) && !e.GivenUp?
    ensures Filed(log + [e], skip, skipped, before, known)
  {
    GivenUpsNext(log, e);
  }

  lemma FiledSkip(log: seq<Event>, sync: nat, o: Object, skip: map<Name, int>, skipped: seq<(Name, int)>,
      before: set<int>, known: set<int>)
    requires Filed(log, skip, skipped, before, known)
    ensures Filed(log + [GivenUp(sync, o.id, o.seqNo)], skip[o.id := o.seqNo],
        Newest(skipped + [(o.id, o.seqNo)], MAX_SKIPPED_RECORDED), before, known + {o.seqNo})
  {
    GivenUpsNext(log, GivenUp(sync, o.id, o.seqNo));
    NewestNext(GivenUps(log), MAX_SKIPPED_RECORDED, (o.id, o.seqNo));
  }

  lemma FiledPrune(log: seq<Event>, skip: map<Name, int>, skip': map<Name, int>, skipped: seq<(Name, int)>,
      before: set<int>, known: set<int>)
    requires Filed(log, skip, skipped, before, known)
    requires forall id :: id in skip' ==> id in skip && skip'[id] == skip[id]
    ensures Filed(log, skip', skipped, before, known)
  {
  }

  // ---- Pushing ----

  datatype Target = Remote(cap: int) | Local

  /** What a push of objects, edges and entities has done: over HTTP the requests it sent, locally the rows,
      edges and entities it stored. */
  ghost predicate PushDid(t: Tally, u: Tally, before: Store, after: Store, target: Target, objects: seq<Object>,
      edges: seq<Edge>, entities: seq<Entity>, res: PushResult, k: nat, m: nat, marked: bool)
  {
    match target
    case Remote(cap) => RemoteOutcome(t, u, cap, objects, edges, entities, res, k, m, marked)
    case Local =>
      res.Pushed? && objects != [] ==>
        && after.rows == Absorb(before.rows, objects) && after.slugs == before.slugs + Named(entities, |entities|)
        && Linked(before.edges, after.edges, edges, Created(before.rows, objects))
  }

  method Push(w: World, target: Target, objects: seq<Object>, edges: seq<Edge>, entities: seq<Entity>)
    returns (res: PushResult, ghost k: nat, ghost m: nat, ghost marked: bool)
    requires w.Valid() && w.Sound() && Ready(w.now, objects) && (target.Local? ==> w.now.keeps)
    modifies w
    ensures w.outgoing == old(w.outgoing) && w.mentioned == old(w.mentioned)
    ensures (w.listings, w.shorts, w.listedAt) == (old(w.listings), old(w.shorts), old(w.listedAt))
    ensures w.Valid() && w.Sound() && old(w.history) <= w.history
    ensures PushedPrefix(old(w.now), w.now, objects, res, m)
    ensures w.round == old(w.round) + Seqs(objects[..m])
    ensures PushDid(old(Of(w)), Of(w), old(w.store), w.store, target, objects, edges, entities, res, k, m, marked)
    ensures Explained(old(w.faults), old(w.blames), w, res)
  {
    k, marked := 0, true;
    match target
    case Remote(cap) =>
      res, k, m, marked := RemotePush(w, cap, objects, edges, entities);
    case Local =>
      res, m := LocalPush(w, objects, edges, entities);
  }

  /** The edges the source answered for each of the objects, in order. */
  ghost function EdgesOf(objects: seq<Object>, outgoing: map<Name, seq<Edge>>): seq<Edge> {
    if objects == [] then []
    else
      var id := objects[|objects| - 1].id;
      EdgesOf(objects[..|objects| - 1], outgoing) + if id in outgoing then outgoing[id] else []
  }

  lemma {:induction false} EdgesOfOthers(objects: seq<Object>, outgoing: map<Name, seq<Edge>>, id: Name,
      from: seq<Edge>)
    requires forall i :: 0 <= i < |objects| ==> objects[i].id != id
    ensures EdgesOf(objects, outgoing[id := from]) == EdgesOf(objects, outgoing)
  {
    if objects != [] {
      EdgesOfOthers(objects[..|objects| - 1], outgoing, id, from);
    }
  }

  lemma EdgesOfNext(objects: seq<Object>, outgoing: map<Name, seq<Edge>>, i: nat, from: seq<Edge>)
    requires i < |objects| && UniqueIds(objects)
    ensures EdgesOf(objects[..i + 1], outgoing[objects[i].id := from]) == EdgesOf(objects[..i], outgoing) + from
  {
    assert objects[..i + 1][..i] == objects[..i];
    EdgesOfOthers(objects[..i], outgoing, objects[i].id, from);
  }

  /** The edges from the objects, and the entities those mention, as the source lists them. */
  method CollectEdges(w: World, objects: seq<Object>) returns (ok: bool, edges: seq<Edge>, entities: seq<Entity>)
    requires UniqueIds(objects)
    modifies w`faults, w`lastFault, w`blames, w`outgoing, w`mentioned
    ensures w.Met(old(w.faults), old(w.blames), if ok then None else Some(CallFailed))
    ensures ok ==> edges == EdgesOf(objects, w.outgoing) && entities == w.mentioned
  {
    edges, entities := [], [];
    for i := 0 to |objects|
      invariant w.faults == old(w.faults) && w.blames == old(w.blames) && edges == EdgesOf(objects[..i], w.outgoing)
    {
      ghost var outgoing := w.outgoing;
      var from;
      ok, from := w.ListEdges(objects[i].id);
      if !ok {
        return;
      }
      EdgesOfNext(objects, outgoing, i, from);
      edges := edges + from;
    }
    assert objects[..|objects|] == objects;
    ok, entities := w.CollectEntities(edges);
  }

  /** Pushes objects with the edges from them and the entities those mention, as the source lists them. */
  method PushObjects(w: World, target: Target, objects: seq<Object>)
    returns (res: PushResult, ghost k: nat, ghost m: nat, ghost marked: bool)
    requires w.Valid() && w.Sound() && Ready(w.now, objects) && UniqueIds(objects) && (target.Local? ==> w.now.keeps)
    modifies w
    ensures (w.listings, w.shorts, w.listedAt) == (old(w.listings), old(w.shorts), old(w.listedAt))
    ensures w.Valid() && w.Sound() && old(w.history) <= w.history
    ensures PushedPrefix(old(w.now), w.now, objects, res, m)
    ensures w.round == old(w.round) + Seqs(objects[..m])
    ensures res.Pushed? ==> PushDid(old(Of(w)), Of(w), old(w.store), w.store, target, objects,
                                    EdgesOf(objects, w.outgoing), w.mentioned, res, k, m, marked)
    ensures Explained(old(w.faults), old(w.blames), w, res)
  {
    w.Others();
    k, m, marked := 0, 0, true;
    var ok, edges, entities := CollectEdges(w, objects);
    if !ok {
      return Failed, k, m, marked;
    }
    ReadyLasts(old(w.now), w.now, objects);
    ghost var t := Of(w);
    res, k, m, marked := Push(w, target, objects, edges, entities);
    PrefixAfterOthers(old(w.now), t.fed, w.now, objects, res, m);
    DidAfterOthers(old(Of(w)), t, Of(w), old(w.store), w.store, target, objects, edges, entities, res, k, m, marked);
  }

  lemma DidAfterOthers(t: Tally, t': Tally, u: Tally, before: Store, after: Store, target: Target, objects: seq<Object>,
      edges: seq<Edge>, entities: seq<Entity>, res: PushResult, k: nat, m: nat, marked: bool)
    requires Written(t.fed, t'.fed) && t' == t.(fed := t'.fed)
    requires PushDid(t', u, before, after, target, objects, edges, entities, res, k, m, marked)
    ensures PushDid(t, u, before, after, target, objects, edges, entities, res, k, m, marked)
  {
    if target.Remote? {
      LaterCompose(t.fed, t'.fed, u.fed);
    }
  }

  lemma PrefixAfterOthers(f: Fed, g: Fed, h: Fed, objects: seq<Object>, res: PushResult, m: nat)
    requires Written(f, g) && PushedPrefix(g, h, objects, res, m)
    ensures PushedPrefix(f, h, objects, res, m)
  {
  }

  /** Moves the watermark past skipped objects; a no-op where none is kept. */
  method Advance(w: World, n: int) returns (ok: bool)
    requires w.Valid() && 0 <= n <= w.now.clock && CoveredUpTo(w.now, n)
    modifies w`now, w`history, w`writes, w`faults, w`lastFault, w`blames
    ensures w.Valid() && old(w.history) <= w.history
    ensures WellFormed(w.now) && Stood(old(w.now), w.now)
    ensures w.Met(old(w.faults), old(w.blames), if ok then None else Some(CallFailed))
    ensures ok && w.now.keeps ==> w.now.watermark == n
    ensures w.now.watermark == n || w.now.watermark == old(w.now).watermark
  {
    if w.now.keeps {
      ghost var landed;
      ok, landed := w.SetWatermark(n);
    } else {
      w.Others();
      ok := true;
    }
  }

  lemma StoodStill(f: Fed)
    ensures Stood(f, f)
  {
  }

  // ---- One page ----

  /** Pushing a page, between passes: f and round as the page began. Only objects still to be sent have
      been acknowledged meanwhile. */
  ghost predicate Passing(f: Fed, round: set<int>, g: Fed, round': set<int>, page: seq<Object>, skip: map<Name, int>) {
    && Later(f, g) && Ready(g, page) && UniqueIds(page) && page != [] && SkipsKnown(skip, g.skipped)
    && round <= round' && round' <= round + Seqs(Kept(page, skip))
  }

  /** The page is through: what was kept of it is acknowledged and everything up to its end covered. */
  ghost predicate Through(f: Fed, round: set<int>, g: Fed, round': set<int>, page: seq<Object>, skip: map<Name, int>) {
    && Later(f, g) && WellFormed(g) && page != [] && InOrder(page) && page[|page| - 1].seqNo <= g.clock
    && round' == round + Seqs(Kept(page, skip)) && CoveredUpTo(g, page[|page| - 1].seqNo)
  }

  lemma PassSucceeds(f: Fed, round: set<int>, g: Fed, round': set<int>, h: Fed, round'': set<int>, page: seq<Object>,
      skip: map<Name, int>)
    requires Passing(f, round, g, round', page, skip)
    requires WellFormed(h) && Moved(g, h, Seqs(Kept(page, skip))) && round'' == round' + Seqs(Kept(page, skip))
    ensures Through(f, round, h, round'', page, skip)
  {
    LaterCompose(f, g, h);
    ReadyLasts(g, h, page);
    PageCovers(h, page, skip);
  }

  lemma PassSkips(f: Fed, round: set<int>, g: Fed, h: Fed, round': set<int>, page: seq<Object>, skip: map<Name, int>,
      m: nat, at: nat)
    requires Passing(f, round, g, round, page, skip)
    requires var send := Kept(page, skip);
             m <= at < |send| && Moved(g, h, Seqs(send[..m])) && round' == round + Seqs(send[..m])
    ensures var o := Kept(page, skip)[at];
            Passing(f, round, h.(skipped := h.skipped + {o.seqNo}), round', page, skip[o.id := o.seqNo])
  {
    var send := Kept(page, skip);
    var o := send[at];
    var skip', h' := skip[o.id := o.seqNo], h.(skipped := h.skipped + {o.seqNo});
    LaterCompose(f, g, h');
    ReadyLasts(g, h', page);
    StillKept(page, skip, m, at);
  }

  /** Skipping one object leaves those before it to be sent. */
  lemma StillKept(page: seq<Object>, skip: map<Name, int>, m: nat, at: nat)
    requires InOrder(page) && UniqueIds(page) && m <= at < |Kept(page, skip)|
    ensures var o := Kept(page, skip)[at]; Seqs(Kept(page, skip)[..m]) <= Seqs(Kept(page, skip[o.id := o.seqNo]))
  {
    var send := Kept(page, skip);
    var skip' := skip[send[at].id := send[at].seqNo];
    KeptIs(page, skip);
    KeptInOrder(page, skip);
    KeptIs(page, skip');
    forall s | s in Seqs(send[..m]) ensures s in Seqs(Kept(page, skip')) {
      var i :| 0 <= i < m && send[i].seqNo == s;
      assert send[i].id != send[at].id;
      assert send[i] in page && !Leaves(skip', send[i]);
      SeqsHas(Kept(page, skip'), send[i]);
    }
  }

  /** How a pass over a page ends: through, with the watermark at its end; failed, with nothing counted as
      pushed unless only the watermark is missing; or with one object skipped and another pass to come. */
  ghost predicate PassEnds(f: Fed, round: set<int>, h: Fed, round': set<int>, page: seq<Object>,
      skip: map<Name, int>, skip': map<Name, int>, n: nat, res: PushResult, again: bool)
  {
    && Later(f, h) && round <= round' && round' <= round + Seqs(page)
    && (again ==> Passing(f, round, h, round', page, skip'))
    && (!again ==> skip' == skip)
    && (!again && n > 0 ==> n == |Kept(page, skip)| && Through(f, round, h, round', page, skip))
    && (!again && res.Pushed? ==>
        n == |Kept(page, skip)| && Through(f, round, h, round', page, skip)
        && (h.keeps ==> h.watermark == page[|page| - 1].seqNo))
  }

  lemma LeftIsReady(f: Fed, round: set<int>, g: Fed, round': set<int>, page: seq<Object>, skip: map<Name, int>)
    requires Passing(f, round, g, round', page, skip)
    ensures Ready(g, Kept(page, skip)) && UniqueIds(Kept(page, skip))
  {
    KeptIsReady(g, page, skip);
  }

  lemma KeptWithinPage(page: seq<Object>, skip: map<Name, int>, m: nat)
    requires InOrder(page) && m <= |Kept(page, skip)|
    ensures Seqs(Kept(page, skip)[..m]) <= Seqs(page) && Seqs(Kept(page, skip)) <= Seqs(page)
  {
    KeptSeqs(page, skip);
    var send := Kept(page, skip);
    forall s | s in Seqs(send[..m]) ensures s in Seqs(send) {
      var i :| 0 <= i < m && send[i].seqNo == s;
    }
  }

  lemma NothingToPush(f: Fed, objects: seq<Object>)
    requires WellFormed(f) && |objects| == 0
    ensures PushedPrefix(f, f, objects, Pushed, 0) && Seqs(objects[..0]) == {}
  {
  }

  lemma EndThrough(f: Fed, round: set<int>, g: Fed, round': set<int>, h: Fed, round'': set<int>, page: seq<Object>,
      skip: map<Name, int>)
    requires Passing(f, round, g, round', page, skip)
    requires PushedPrefix(g, h, Kept(page, skip), Pushed, |Kept(page, skip)|)
        && round'' == round' + Seqs(Kept(page, skip)[..|Kept(page, skip)|])
    ensures Through(f, round, h, round'', page, skip) && page[|page| - 1].seqNo > 0
    ensures var send := Kept(page, skip); send != [] && h.keeps ==> h.watermark == send[|send| - 1].seqNo
  {
    assert Kept(page, skip)[..|Kept(page, skip)|] == Kept(page, skip);
    PassSucceeds(f, round, g, round', h, round'', page, skip);
  }

  lemma EndFinished(f: Fed, round: set<int>, h: Fed, i: Fed, round': set<int>, page: seq<Object>, skip: map<Name, int>,
      ok: bool)
    requires Through(f, round, h, round', page, skip) && WellFormed(i) && Stood(h, i)
    requires ok && i.keeps ==> i.watermark == page[|page| - 1].seqNo
    ensures PassEnds(f, round, i, round', page, skip, skip, |Kept(page, skip)|, if ok then Pushed else Failed, false)
        && Through(f, round, i, round', page, skip)
  {
    KeptWithinPage(page, skip, 0);
    ThroughLasts(f, round, h, i, round', page, skip);
  }

  lemma EndFailed(f: Fed, round: set<int>, g: Fed, round': set<int>, h: Fed, round'': set<int>, page: seq<Object>,
      skip: map<Name, int>, res: PushResult, m: nat)
    requires Passing(f, round, g, round', page, skip) && !res.Pushed?
    requires PushedPrefix(g, h, Kept(page, skip), res, m) && round'' == round' + Seqs(Kept(page, skip)[..m])
    ensures PassEnds(f, round, h, round'', page, skip, skip, 0, res, false)
  {
    KeptWithinPage(page, skip, m);
    LaterCompose(f, g, h);
  }

  lemma EndSkipped(f: Fed, round: set<int>, g: Fed, round': set<int>, h: Fed, round'': set<int>, page: seq<Object>,
      skip: map<Name, int>, res: PushResult, m: nat, at: nat)
    requires Passing(f, round, g, round', page, skip) && res.ObjectFailed?
    requires PushedPrefix(g, h, Kept(page, skip), res, m) && round'' == round' + Seqs(Kept(page, skip)[..m])
    requires at < |Kept(page, skip)| && Kept(page, skip)[at].id == res.id
    ensures var o := Kept(page, skip)[at];
            o.seqNo > 0 && (round' == round ==>
              PassEnds(f, round, h.(skipped := h.skipped + {o.seqNo}), round'', page, skip, skip[o.id := o.seqNo], 0,
                  res, true))
  {
    KeptIsReady(g, page, skip);
    KeptWithinPage(page, skip, m);
    BlamedObject(Kept(page, skip), g, h, res, m, at);
    if round' == round {
      PassSkips(f, round, g, h, round'', page, skip, m, at);
    }
  }

  lemma ThroughLasts(f: Fed, round: set<int>, g: Fed, h: Fed, round': set<int>, page: seq<Object>, skip: map<Name, int>)
    requires Through(f, round, g, round', page, skip) && WellFormed(h) && Later(g, h)
    ensures Through(f, round, h, round', page, skip)
  {
    LaterCompose(f, g, h);
    CoverageLasts(g, h, page[|page| - 1].seqNo);
  }

  lemma BlamedObject(objects: seq<Object>, f: Fed, g: Fed, res: PushResult, m: nat, at: nat)
    requires PushedPrefix(f, g, objects, res, m) && res.ObjectFailed? && UniqueIds(objects)
    requires at < |objects| && objects[at].id == res.id
    ensures m <= at
  {
    var j :| m <= j < |objects| && objects[j].id == res.id;
    assert j == at;
  }

  /** What a push of a page counts: all that was kept of it once it is through, or nothing. */
  ghost predicate Counts(f: Fed, round: set<int>, was: int, h: Fed, round': set<int>, reach: int, page: seq<Object>,
      skip: map<Name, int>, n: nat, res: PushResult)
  {
    || (reach == was && n == 0 && !res.Pushed?)
    || (reach == End(page) && n == |Kept(page, skip)| && Through(f, round, h, round', page, skip))
  }

  /** A pass that is not the last counts nothing. */
  ghost predicate Went(f: Fed, round: set<int>, was: int, h: Fed, round': set<int>, reach: int, page: seq<Object>,
      skip: map<Name, int>, n: nat, res: PushResult, again: bool)
  {
    if again then reach == was else Counts(f, round, was, h, round', reach, page, skip, n, res)
  }

  /** What a pass leaves: another pass only after the third failure in a row. */
  ghost predicate PassDone(f: Fed, round: set<int>, skip0: map<Name, int>, was: int, failures0: nat, h: Fed,
      round': set<int>, skip: map<Name, int>, reach: int, failures: nat, page: seq<Object>, n: nat, res: PushResult,
      again: bool)
  {
    && PassEnds(f, round, h, round', page, skip0, skip, n, res, again)
    && Went(f, round, was, h, round', reach, page, skip, n, res, again)
    && (again ==> failures0 == 2 && failures == 0 && res.ObjectFailed?)
    && (!again && res.ObjectFailed? ==> 0 < failures)
  }

  lemma DoneThrough(f: Fed, round: set<int>, h: Fed, i: Fed, round': set<int>, page: seq<Object>,
      skip: map<Name, int>, was: int, reach: int, failures0: nat, failures: nat, ok: bool, res: PushResult)
    requires Through(f, round, h, round', page, skip) && WellFormed(i) && Stood(h, i) && reach == End(page)
    requires (ok && i.keeps ==> i.watermark == page[|page| - 1].seqNo) && res == if ok then Pushed else Failed
    ensures PassDone(f, round, skip, was, failures0, i, round', skip, reach, failures, page, |Kept(page, skip)|, res,
                     false)
  {
    EndFinished(f, round, h, i, round', page, skip, ok);
  }

  /** Every fault since was down to an object and followed by a skip. */
  ghost predicate Excused(before: nat, blamed: nat, w: World)
    reads w`faults, w`blames
  {
    blamed <= w.blames && w.faults - before == w.blames - blamed
  }

  /** Why an attempt with skips on the way ended as it did. */
  ghost predicate Ended(before: nat, blamed: nat, w: World, res: PushResult)
    reads w`faults, w`lastFault, w`blames
  {
    match res
    case Pushed => Excused(before, blamed, w)
    case ObjectFailed(id) => Excused(before, blamed, w) && blamed < w.blames && Blames(w.lastFault, id)
    case Failed => Excused(before + 1, blamed, w) && !BlamesOne(w.lastFault)
  }

  lemma ExplainedEnds(before: nat, blamed: nat, passes: nat, w: World, res: PushResult)
    requires passes > 0 && Explained(before + passes - 1, blamed + passes - 1, w, res)
    ensures Ended(before, blamed, w, res)
  {
  }

  // ---- A whole sync ----

  /** Between pages: everything up to pos is covered, the watermark stands there, and pushed counts the
      versions this sync has had acknowledged, all of them in pages that went through. */
  ghost predicate AtPos(f: Fed, round: set<int>, pos: int, reach: int, pushed: nat) {
    && CoveredUpTo(f, pos) && 0 <= pos <= f.clock && (f.keeps ==> f.watermark == pos)
    && (forall s :: s in round ==> s <= reach) && reach <= pos && |round| == pushed
  }

  lemma KeptWithin(page: seq<Object>, skip: map<Name, int>, pos: int)
    requires InOrder(page) && forall i :: 0 <= i < |page| ==> pos < page[i].seqNo
    ensures forall s :: s in Seqs(Kept(page, skip)) ==> pos < s <= End(page)
  {
    KeptIs(page, skip);
    forall s | s in Seqs(Kept(page, skip)) ensures pos < s <= End(page) {
      var i :| 0 <= i < |Kept(page, skip)| && Kept(page, skip)[i].seqNo == s;
      var j :| 0 <= j < |page| && page[j] == Kept(page, skip)[i];
    }
  }

  lemma PageCount(round: set<int>, page: seq<Object>, skip: map<Name, int>, pos: int)
    requires InOrder(page) && UniqueIds(page) && page != [] && forall i :: 0 <= i < |page| ==> pos < page[i].seqNo
    requires forall s :: s in round ==> s <= pos
    ensures |round + Seqs(Kept(page, skip))| == |round| + |Kept(page, skip)|
    ensures forall s :: s in round + Seqs(Kept(page, skip)) ==> s <= End(page)
  {
    KeptWithin(page, skip, pos);
    KeptInOrder(page, skip);
    CountSeqs(Kept(page, skip));
    CountTogether(round, Seqs(Kept(page, skip)), pos);
  }

  lemma NextPos(f: Fed, round: set<int>, pos: int, was: int, pushed: nat, page: seq<Object>, limit: nat, h: Fed,
      round': set<int>, reach: int, skip: map<Name, int>, n: nat, res: PushResult)
    requires AtPos(f, round, pos, was, pushed) && Listed(f, pos, limit, page) && UniqueIds(page) && page != []
        && WellFormed(f)
    requires PassEnds(f, round, h, round', page, skip, skip, n, res, false)
    requires Counts(f, round, was, h, round', reach, page, skip, n, res)
    ensures res.Pushed? ==> AtPos(h, round', End(page), reach, pushed + n)
    ensures pushed + n == |Upto(round', reach)|
  {
    PageCount(round, page, skip, pos);
    if reach == was && n == 0 && !res.Pushed? {
      UptoBefore(round, round', page, was, pos);
    } else {
      UptoEnd(round', reach);
    }
  }

  lemma UptoEnd(round: set<int>, reach: int)
    requires forall s :: s in round ==> s <= reach
    ensures Upto(round, reach) == round
  {
  }

  lemma UptoBefore(round: set<int>, round': set<int>, page: seq<Object>, reach: int, pos: int)
    requires round <= round' && round' <= round + Seqs(page) && reach <= pos
    requires (forall s :: s in round ==> s <= reach) && forall i :: 0 <= i < |page| ==> pos < page[i].seqNo
    ensures Upto(round', reach) == round
  {
    forall s | s in Seqs(page) ensures s > reach {
      var i :| 0 <= i < |page| && page[i].seqNo == s;
    }
  }

  lemma AtPosLasts(f: Fed, g: Fed, round: set<int>, pos: int, reach: int, pushed: nat)
    requires AtPos(f, round, pos, reach, pushed) && Written(f, g)
    ensures AtPos(g, round, pos, reach, pushed)
  {
    CoverageLasts(f, g, pos);
  }

  /** No version committed by the time of listing and still current is above pos. */
  ghost predicate NoneAbove(f: Fed, listedAt: int, pos: int) {
    forall k :: k in f.objects && k <= listedAt ==> k <= pos
  }

  /** How a sync ends: pushed counts what was acknowledged up to where the last page that went through
      ends, and that is all that was acknowledged when it reports no error; then nothing committed before
      its last listing is passed over, or above a watermark kept. */
  ghost predicate SyncEnds(f: Fed, listedAt: int, round: set<int>, reach: int, pushed: nat, res: PushResult) {
    && pushed == |Upto(round, reach)|
    && (res.Pushed? ==>
        pushed == |round| && CoveredUpTo(f, listedAt) && (f.keeps ==> NoneAbove(f, listedAt, f.watermark)))
  }

  /** No skip is kept of a version up to pos. */
  ghost predicate Pruned(skip: map<Name, int>, pos: int) {
    forall id :: id in skip ==> skip[id] > pos
  }

  lemma EndsAt(f: Fed, listedAt: int, round: set<int>, pos: int, reach: int, pushed: nat)
    requires AtPos(f, round, pos, reach, pushed)
    ensures pushed == |Upto(round, reach)|
    ensures NoneAbove(f, listedAt, pos) ==> SyncEnds(f, listedAt, round, reach, pushed, Pushed)
  {
    UptoEnd(round, reach);
  }

  lemma ShortPageIsLast(f: Fed, pos: int, page: seq<Object>, limit: nat, h: Fed)
    requires Listed(f, pos, limit, page) && |page| < limit && Later(f, h)
    ensures NoneAbove(h, f.clock, if page == [] then pos else End(page))
  {
    forall k | k in h.objects && k <= f.clock ensures k <= if page == [] then pos else End(page) {
      assert k in f.objects;
      if pos < k {
        assert k in Seqs(page);
      }
    }
  }

  lemma ListedEnds(f: Fed, round: set<int>, pos: int, was: int, pushed: nat, page: seq<Object>, limit: nat, h: Fed,
      round': set<int>, reach: int, skip: map<Name, int>, n: nat, res: PushResult)
    requires AtPos(f, round, pos, was, pushed) && Listed(f, pos, limit, page) && UniqueIds(page) && page != []
        && WellFormed(f)
    requires PassEnds(f, round, h, round', page, skip, skip, n, res, false)
    requires Counts(f, round, was, h, round', reach, page, skip, n, res)
    ensures res.Pushed? ==> AtPos(h, round', End(page), reach, pushed + n)
    ensures pushed + n == |Upto(round', reach)|
    ensures |page| < limit ==> NoneAbove(h, f.clock, End(page))
  {
    NextPos(f, round, pos, was, pushed, page, limit, h, round', reach, skip, n, res);
    if |page| < limit {
      ShortPageIsLast(f, pos, page, limit, h);
    }
  }

  lemma HoldsAt(page: seq<Object>, id: Name, seqNo: int, at: Option<nat>)
    requires UniqueIds(page)
    requires at.Some? ==> at.value < |page| && page[at.value].id == id
    requires at.None? ==> forall i :: 0 <= i < |page| ==> page[i].id != id
    ensures Holds(page, id, seqNo) <==> at.Some? && page[at.value].seqNo == seqNo
  {
  }

  class Syncer {
    const w: World
    const target: Target
    const batchSize: nat
    var failingId: Name
    var failingSeq: int
    var failures: nat
    var skip: map<Name, int>
    var skipped: seq<(Name, int)>
    ghost var log: seq<Event>
    ghost var sync: nat
    /** The versions skipped before this Syncer was made, and the world's count of blaming faults then. */
    ghost const before: set<int>
    ghost const blames0: nat

    /** Every fault that was down to an object is on the log. */
    ghost predicate Valid()
      reads this, w
    {
      Sane() && w.blames == blames0 + FaultCount(log)
    }

    ghost predicate Sane()
      reads this, w
    {
      && w.Valid() && w.Sound() && batchSize > 0 && (target.Local? ==> w.now.keeps)
      && Tidy(log, sync, failingId, failingSeq, failures, skip, skipped, before, w.now.skipped)
    }

    constructor (w: World, target: Target, batchSize: int)
      requires w.Valid() && w.Sound() && (target.Local? ==> w.now.keeps)
      ensures Valid() && this.w == w && this.target == target && log == [] && sync == 0 && before == w.now.skipped
      ensures this.batchSize == if batchSize <= 0 then 100 else batchSize
    {
      this.w, this.target := w, target;
      this.batchSize := if batchSize <= 0 then DEFAULT_BATCH_SIZE else batchSize;
      failingId, failingSeq, failures := EMPTY, 0, 0;
      skip, skipped := map[], [];
      log, sync, before, blames0 := [], 0, w.now.skipped, w.blames;
    }

    method FindObject(objects: seq<Object>, id: Name) returns (at: Option<nat>)
      ensures at.Some? ==> at.value < |objects| && objects[at.value].id == id
      ensures at.None? ==> forall i :: 0 <= i < |objects| ==> objects[i].id != id
    {
      for i := 0 to |objects|
        invariant forall j :: 0 <= j < i ==> objects[j].id != id
      {
        if objects[i].id == id {
          return Some(i);
        }
      }
      at := None;
    }

    /** Drops the skips the watermark has passed. */
    method Prune(pos: int)
      requires Valid()
      modifies `skip
      ensures skip == map id | id in old(skip) && old(skip)[id] > pos :: old(skip)[id]
      ensures Pruned(skip, pos) && Valid()
    {
      ghost var was := skip;
      var ids := skip.Keys;
      while ids != {}
        invariant forall id :: id in skip ==> id in old(skip) && skip[id] == old(skip)[id]
        invariant forall id :: id in old(skip) && old(skip)[id] > pos ==> id in skip
        invariant forall id :: id in skip && id !in ids ==> skip[id] > pos
        invariant forall id :: id in ids ==> id in skip
        decreases |ids|
      {
        var id :| id in ids;
        ids := ids - {id};
        if skip[id] <= pos {
          skip := skip - {id};
        }
      }
      FiledPrune(log, was, skip, skipped, before, w.now.skipped);
    }

    /** The objects of a page that are not being skipped. */
    method Unskipped(page: seq<Object>) returns (send: seq<Object>)
      ensures send == Kept(page, skip)
    {
      send := [];
      for i := 0 to |page|
        invariant send == Kept(page[..i], skip)
      {
        assert page[..i + 1][..i] == page[..i];
        if !(page[i].id in skip && skip[page[i].id] == page[i].seqNo) {
          send := send + [page[i]];
        }
      }
      assert page[..|page|] == page;
    }

    /** Logs a push of page once the failing object, the version seqNo of id failing n times, was
        forgotten if the page holds it. */
    ghost method LogPage(page: seq<Object>, id: Name, seqNo: int, n: nat)
      requires Tidy(log, sync, id, seqNo, n, skip, skipped, before, w.now.skipped) && Unfailed(log, sync)
      requires (failingId, failingSeq, failures) == if Holds(page, id, seqNo) then (EMPTY, 0, 0) else (id, seqNo, n)
      modifies `log
      ensures old(log) < log && log[|log| - 1] == PageThrough(sync, page) && FaultCount(log) == FaultCount(old(log))
      ensures Tidy(log, sync, failingId, failingSeq, failures, skip, skipped, before, w.now.skipped)
    {
      LogGrows(log, PageThrough(sync, page));
      BooksAfterPage(log, sync, id, seqNo, n, page);
      FiledNext(log, PageThrough(sync, page), skip, skipped, before, w.now.skipped);
      log := log + [PageThrough(sync, page)];
    }

    /** A push of page went through: a failing object it holds is forgotten. */
    method ClearFailing(page: seq<Object>)
      requires Valid() && Unfailed(log, sync) && UniqueIds(page)
      modifies `failingId, `failingSeq, `failures, `log
      ensures Valid() && old(log) < log && log[|log| - 1] == PageThrough(sync, page)
    {
      var at := FindObject(page, failingId);
      HoldsAt(page, failingId, failingSeq, at);
      ghost var id, seqNo, n := failingId, failingSeq, failures;
      if at.Some? && page[at.value].seqNo == failingSeq {
        failingId, failingSeq, failures := EMPTY, 0, 0;
      }
      LogPage(page, id, seqNo, n);
    }

    /** An object failed: the run of its failures grows, or starts. */
    method CountFault(o: Object)
      requires Sane() && Unfailed(log, sync) && o.seqNo > 0 && w.blames == blames0 + FaultCount(log) + 1
      modifies `failingId, `failingSeq, `failures, `log
      ensures old(log) < log && log[|log| - 1] == ObjectFault(sync, o.id, o.seqNo) && failures > 0
      ensures w.blames == blames0 + FaultCount(log) && Reach(log, sync) == Reach(old(log), sync)
      ensures failures < MAX_OBJECT_FAILURES ==> Valid()
      ensures failures >= MAX_OBJECT_FAILURES ==>
          JustThird(log, sync, o.id, o.seqNo) && old(failures) == 2 && Filed(log, skip, skipped, before, w.now.skipped)
    {
      LogGrows(log, ObjectFault(sync, o.id, o.seqNo));
      BooksAfterFault(log, sync, failingId, failingSeq, failures, o.id, o.seqNo);
      FiledNext(log, ObjectFault(sync, o.id, o.seqNo), skip, skipped, before, w.now.skipped);
      log := log + [ObjectFault(sync, o.id, o.seqNo)];
      if o.id == failingId && o.seqNo == failingSeq {
        failures := failures + 1;
      } else {
        failingId, failingSeq, failures := o.id, o.seqNo, 1;
      }
    }

    /** Logs that the object was given up on once the fields say so; skip0, skipped0 and known0 are what
        they said before. */
    ghost method LogSkip(o: Object, skip0: map<Name, int>, skipped0: seq<(Name, int)>, known0: set<int>)
      requires JustThird(log, sync, o.id, o.seqNo) && Filed(log, skip0, skipped0, before, known0)
      requires (failingId, failingSeq, failures) == (EMPTY, 0, 0) && skip == skip0[o.id := o.seqNo]
      requires skipped == Newest(skipped0 + [(o.id, o.seqNo)], MAX_SKIPPED_RECORDED)
          && w.now.skipped == known0 + {o.seqNo}
      modifies `log
      ensures old(log) < log && log[|log| - 1] == GivenUp(sync, o.id, o.seqNo)
      ensures FaultCount(log) == FaultCount(old(log)) && Reach(log, sync) == Reach(old(log), sync)
      ensures Tidy(log, sync, failingId, failingSeq, failures, skip, skipped, before, w.now.skipped)
    {
      LogGrows(log, GivenUp(sync, o.id, o.seqNo));
      BooksAfterSkip(log, sync, o.id, o.seqNo);
      FiledSkip(log, sync, o, skip0, skipped0, before, known0);
      log := log + [GivenUp(sync, o.id, o.seqNo)];
    }

    method Record(o: Object)
      modifies `skipped
      ensures skipped == Newest(old(skipped) + [(o.id, o.seqNo)], 100)
    {
      skipped := skipped + [(o.id, o.seqNo)];
      if |skipped| > MAX_SKIPPED_RECORDED {
        skipped := skipped[|skipped| - MAX_SKIPPED_RECORDED..];
      }
    }

    /** Leaves the object out of every push until the watermark passes it, and records it; the record
        forgets the oldest once it is full. */
    method SkipObject(o: Object)
      requires w.Valid() && JustThird(log, sync, o.id, o.seqNo) && Filed(log, skip, skipped, before, w.now.skipped)
      modifies `failingId, `failingSeq, `failures, `skip, `skipped, `log, w`now, w`history
      ensures w.Valid() && old(w.history) <= w.history
      ensures w.now == old(w.now).(skipped := old(w.now).skipped + {o.seqNo}) && skip == old(skip)[o.id := o.seqNo]
      ensures old(log) < log && log[|log| - 1] == GivenUp(sync, o.id, o.seqNo) && failures == 0
      ensures FaultCount(log) == FaultCount(old(log)) && Reach(log, sync) == Reach(old(log), sync)
      ensures Tidy(log, sync, failingId, failingSeq, failures, skip, skipped, before, w.now.skipped)
    {
      ghost var skip0, skipped0, known0 := skip, skipped, w.now.skipped;
      w.Skip(o.seqNo);
      skip := skip[o.id := o.seqNo];
      failingId, failingSeq, failures := EMPTY, 0, 0;
      Record(o);
      LogSkip(o, skip0, skipped0, known0);
    }

    /** What was kept of the page is acknowledged: the watermark goes to the page's end. */
    method FinishPage(page: seq<Object>, send: seq<Object>) returns (ok: bool)
      requires Valid() && Unfailed(log, sync) && UniqueIds(page) && page != []
      requires var last := page[|page| - 1].seqNo; 0 < last <= w.now.clock && CoveredUpTo(w.now, last)
      requires send != [] && w.now.keeps ==> w.now.watermark == send[|send| - 1].seqNo
      modifies `failingId, `failingSeq, `failures, `log, w`now, w`history, w`writes, w`faults, w`lastFault, w`blames
      ensures Valid() && old(w.history) <= w.history && old(log) < log && log[|log| - 1] == PageThrough(sync, page)
      ensures WellFormed(w.now) && Stood(old(w.now), w.now)
      ensures ok && w.now.keeps ==> w.now.watermark == page[|page| - 1].seqNo
      ensures w.Met(old(w.faults), old(w.blames), if ok then None else Some(CallFailed))
    {
      ClearFailing(page);
      ok := true;
      var last := page[|page| - 1].seqNo;
      StoodStill(w.now);
      if |send| == 0 || send[|send| - 1].seqNo != last {
        ok := Advance(w, last);
      }
    }

    /** An object failed: the failure is counted and, the third time in a row, the object is skipped and
        the page gets another pass. */
    method CountOrSkip(o: Object) returns (again: bool)
      requires Sane() && Unfailed(log, sync) && o.seqNo > 0 && w.blames == blames0 + FaultCount(log) + 1
      modifies `failingId, `failingSeq, `failures, `skip, `skipped, `log, w`now, w`history
      ensures Valid() && old(w.history) <= w.history
      ensures again ==> old(failures) == 2 && failures == 0 && Unfailed(log, sync)
      ensures again ==>
          w.now == old(w.now).(skipped := old(w.now).skipped + {o.seqNo}) && skip == old(skip)[o.id := o.seqNo]
      ensures !again ==> w.now == old(w.now) && skip == old(skip) && failures > 0 && Told(log, sync, ObjectFailed(o.id))
      ensures old(log) <= log && Reach(log, sync) == Reach(old(log), sync)
    {
      CountFault(o);
      again := failures >= MAX_OBJECT_FAILURES;
      if again {
        SkipObject(o);
      }
    }

    /** Pushes what is left of a page, if anything is. */
    method PushLeft(send: seq<Object>) returns (res: PushResult, ghost m: nat)
      requires Valid() && Ready(w.now, send) && UniqueIds(send)
      modifies w
      ensures (w.listings, w.shorts, w.listedAt) == (old(w.listings), old(w.shorts), old(w.listedAt))
      ensures Sane() && old(w.history) <= w.history
      ensures w.blames == blames0 + FaultCount(log) + if res.ObjectFailed? then 1 else 0
      ensures Explained(old(w.faults), old(w.blames), w, res)
      ensures PushedPrefix(old(w.now), w.now, send, res, m) && (res.Pushed? ==> m == |send|)
      ensures w.round == old(w.round) + Seqs(send[..m])
    {
      res, m := Pushed, 0;
      if |send| > 0 {
        ghost var k, marked;
        res, k, m, marked := PushObjects(w, target, send);
      } else {
        NothingToPush(w.now, send);
      }
    }

    /** Why a pass ended as it did, by the faults met and by the log. */
    ghost predicate Accounted(faults0: nat, blamed0: nat, res: PushResult, again: bool)
      reads `log, `sync, w`faults, w`lastFault, w`blames
    {
      Explained(faults0, blamed0, w, res) && if again then Unfailed(log, sync) else Told(log, sync, res)
    }

    /** The pass went through. */
    method PassThrough(page: seq<Object>, send: seq<Object>, ghost f: Fed, ghost round: set<int>, ghost g: Fed,
        ghost was: set<int>, ghost reach0: int)
      returns (n: nat, res: PushResult)
      requires Valid() && Unfailed(log, sync) && send == Kept(page, skip)
      requires Passing(f, round, g, was, page, skip)
      requires PushedPrefix(g, w.now, send, Pushed, |send|) && w.round == was + Seqs(send[..|send|])
      modifies `failingId, `failingSeq, `failures, `log, w`now, w`history, w`writes, w`faults, w`lastFault, w`blames
      ensures Valid() && old(w.history) <= w.history && old(log) <= log
      ensures PassDone(f, round, old(skip), reach0, old(failures), w.now, w.round, skip, Reach(log, sync), failures,
                       page, n, res, false)
      ensures Accounted(old(w.faults), old(w.blames), res, false)
    {
      n := |send|;
      EndThrough(f, round, g, was, w.now, w.round, page, skip);
      ghost var h := w.now;
      var ok := FinishPage(page, send);
      res := if ok then Pushed else Failed;
      DoneThrough(f, round, h, w.now, w.round, page, skip, reach0, Reach(log, sync), old(failures), failures, ok, res);
    }

    /** The pass failed. */
    method PassFailed(page: seq<Object>, send: seq<Object>, res: PushResult, ghost f: Fed, ghost round: set<int>,
        ghost g: Fed, ghost was: set<int>, ghost m: nat)
      returns (again: bool)
      requires Sane() && Unfailed(log, sync) && send == Kept(page, skip) && !res.Pushed?
      requires w.blames == blames0 + FaultCount(log) + if res.ObjectFailed? then 1 else 0
      requires Passing(f, round, g, was, page, skip) && (failures == 2 ==> was == round)
      requires PushedPrefix(g, w.now, send, res, m) && w.round == was + Seqs(send[..m])
      modifies `failingId, `failingSeq, `failures, `skip, `skipped, `log, w`now, w`history
      ensures Valid() && old(w.history) <= w.history && old(log) <= log
      ensures PassDone(f, round, old(skip), old(Reach(log, sync)), old(failures), w.now, w.round, skip,
                       Reach(log, sync), failures, page, 0, res, again)
      ensures if again then Unfailed(log, sync) else Told(log, sync, res)
    {
      again := false;
      EndFailed(f, round, g, was, w.now, w.round, page, skip, res, m);
      if res.ObjectFailed? {
        var at := FindObject(send, res.id);
        if at.Some? {
          EndSkipped(f, round, g, was, w.now, w.round, page, skip, res, m, at.value);
          again := CountOrSkip(send[at.value]);
        }
      }
    }

    /** What follows the push of a pass. */
    method EndPass(page: seq<Object>, send: seq<Object>, pushed: PushResult, ghost f: Fed, ghost round: set<int>,
        ghost g: Fed, ghost was: set<int>, ghost m: nat, ghost faults0: nat, ghost blamed0: nat)
      returns (n: nat, res: PushResult, again: bool)
      requires Sane() && Unfailed(log, sync) && send == Kept(page, skip)
      requires w.blames == blames0 + FaultCount(log) + if pushed.ObjectFailed? then 1 else 0
      requires Passing(f, round, g, was, page, skip) && (failures == 2 ==> was == round)
      requires PushedPrefix(g, w.now, send, pushed, m) && w.round == was + Seqs(send[..m])
      requires Explained(faults0, blamed0, w, pushed)
      modifies `failingId, `failingSeq, `failures, `skip, `skipped, `log
      modifies w`now, w`history, w`writes, w`faults, w`lastFault, w`blames
      ensures Valid() && old(w.history) <= w.history && old(log) <= log
      ensures PassDone(f, round, old(skip), old(Reach(log, sync)), old(failures), w.now, w.round, skip,
                       Reach(log, sync), failures, page, n, res, again)
      ensures Accounted(faults0, blamed0, res, again)
    {
      if pushed.Pushed? {
        n, res := PassThrough(page, send, f, round, g, was, Reach(log, sync));
        again := false;
      } else {
        n, res := 0, pushed;
        again := PassFailed(page, send, res, f, round, g, was, m);
      }
    }

    /** One pass over a page: pushes what is left of it, then moves the watermark to its end, or counts
        the failing object and, the third time in a row, skips it and asks for another pass. */
    method Pass(page: seq<Object>, ghost f: Fed, ghost round: set<int>) returns (n: nat, res: PushResult, again: bool)
      requires Valid() && Unfailed(log, sync)
      requires Passing(f, round, w.now, w.round, page, skip) && (failures == 2 ==> w.round == round)
      modifies this, w
      ensures sync == old(sync) && (w.listings, w.shorts, w.listedAt)
          == (old(w.listings), old(w.shorts), old(w.listedAt))
      ensures Valid() && old(w.history) <= w.history && old(log) <= log
      ensures PassDone(f, round, old(skip), old(Reach(log, sync)), old(failures), w.now, w.round, skip,
                       Reach(log, sync), failures, page, n, res, again)
      ensures Accounted(old(w.faults), old(w.blames), res, again)
    {
      ghost var g, was, faults0, blamed0 := w.now, w.round, w.faults, w.blames;
      var send := Unskipped(page);
      LeftIsReady(f, round, g, was, page, skip);
      ghost var m;
      res, m := PushLeft(send);
      n, res, again := EndPass(page, send, res, f, round, g, was, m, faults0, blamed0);
    }

    /** Pushes a page less the objects being skipped, skipping one more when an object fails for the third
        time in a row: two passes at most. */
    method PushPage(page: seq<Object>) returns (n: nat, res: PushResult, ghost passes: nat)
      requires Valid() && Unfailed(log, sync) && Ready(w.now, page) && UniqueIds(page) && page != []
      modifies this, w
      ensures sync == old(sync) && (w.listings, w.shorts, w.listedAt)
          == (old(w.listings), old(w.shorts), old(w.listedAt))
      ensures Valid() && old(w.history) <= w.history && old(log) <= log && Told(log, sync, res)
      ensures PassEnds(old(w.now), old(w.round), w.now, w.round, page, skip, skip, n, res, false)
      ensures 1 <= passes <= 2 && (passes == 2 ==> old(failures) == 2)
      ensures res.ObjectFailed? ==> 0 < failures
      ensures Ended(old(w.faults), old(w.blames), w, res)
      ensures Counts(old(w.now), old(w.round), Reach(old(log), sync), w.now, w.round, Reach(log, sync), page, skip, n,
          res)
    {
      passes := 0;
      var again := true;
      n, res := 0, Failed;
      while again
        invariant Valid() && old(w.history) <= w.history && old(log) <= log && sync == old(sync)
        invariant (w.listings, w.shorts, w.listedAt) == (old(w.listings), old(w.shorts), old(w.listedAt))
            && (if again then Unfailed(log, sync) else Told(log, sync, res))
        invariant again ==> Passing(old(w.now), old(w.round), w.now, w.round, page, skip)
        invariant again && passes == 0 ==> w.round == old(w.round) && failures == old(failures)
        invariant again && passes > 0 ==> passes == 1 && failures == 0 && old(failures) == 2
        invariant !again ==> PassEnds(old(w.now), old(w.round), w.now, w.round, page, skip, skip, n, res, false)
        invariant again ==> w.faults == old(w.faults) + passes && w.blames == old(w.blames) + passes
        invariant Went(old(w.now), old(w.round), Reach(old(log), sync), w.now, w.round, Reach(log, sync), page, skip, n,
            res, again)
        invariant !again ==> passes > 0 && Explained(old(w.faults) + passes - 1, old(w.blames) + passes - 1, w, res)
        invariant !again ==> passes <= 2 && (passes == 2 ==> old(failures) == 2) && (res.ObjectFailed? ==> 0 < failures)
        decreases again, failures
      {
        n, res, again := Pass(page, old(w.now), old(w.round));
        passes := passes + 1;
      }
      ExplainedEnds(old(w.faults), old(w.blames), passes, w, res);
    }

    ghost method NextSync()
      requires Valid()
      modifies `sync
      ensures Valid() && sync == old(sync) + 1 && Unfailed(log, sync) && Reach(log, sync) == 0
    {
      BooksNextSync(log, sync, failingId, failingSeq, failures);
      sync := sync + 1;
    }

    lemma StartsAt(f: Fed)
      requires Good(f)
      ensures AtPos(f, {}, f.watermark, 0, 0)
    {
    }

    /** The start of a sync: reads the watermark and drops the skips it has passed. */
    method Open() returns (read: bool, pos: int)
      requires Valid()
      modifies `sync, `skip, w`now, w`history, w`round, w`faults, w`lastFault, w`blames
      ensures Valid() && old(w.history) <= w.history && sync == old(sync) + 1 && Unfailed(log, sync)
      ensures w.round == {} && AtPos(w.now, w.round, pos, 0, 0) && Reach(log, sync) == 0 && (read ==> Pruned(skip, pos))
      ensures w.Met(old(w.faults), old(w.blames), if read then None else Some(CallFailed))
    {
      NextSync();
      w.Begin();
      read := w.Call();
      pos := w.now.watermark;
      StartsAt(w.now);
      assert Valid();
      if read {
        Prune(pos);
      }
    }

    /** The push of what a listing answered: nothing more to come when the page was not full. */
    method PushListed(pos: int, pushed: nat, page: seq<Object>) returns (pos': int, pushed': nat, res: PushResult)
      requires Valid() && Unfailed(log, sync) && AtPos(w.now, w.round, pos, Reach(log, sync), pushed)
      requires page != [] && Listed(w.now, pos, batchSize, page) && Ready(w.now, page) && UniqueIds(page)
      modifies this, w
      ensures sync == old(sync)
      ensures (w.listings, w.shorts, w.listedAt) == (old(w.listings), old(w.shorts), old(w.listedAt))
      ensures Valid() && old(w.history) <= w.history && old(log) <= log
      ensures pushed' == |Upto(w.round, Reach(log, sync))| && Told(log, sync, res)
      ensures res.Pushed? ==> AtPos(w.now, w.round, pos', Reach(log, sync), pushed')
      ensures res.Pushed? && |page| < batchSize ==> NoneAbove(w.now, old(w.now).clock, pos')
      ensures (res.ObjectFailed? ==> 0 < failures) && Ended(old(w.faults), old(w.blames), w, res)
    {
      ghost var reach := Reach(log, sync);
      var n;
      ghost var passes;
      n, res, passes := PushPage(page);
      ListedEnds(old(w.now), old(w.round), pos, reach, pushed, page, batchSize, w.now, w.round, Reach(log, sync), skip,
                 n, res);
      pos', pushed' := page[|page| - 1].seqNo, pushed + n;
    }

    /** Asks the source for the page after pos. */
    method ListPage(pos: int, ghost pushed: nat) returns (ok: bool, page: seq<Object>)
      requires Valid() && AtPos(w.now, w.round, pos, Reach(log, sync), pushed)
      modifies w`now, w`history, w`listedAt, w`listings, w`shorts, w`faults, w`lastFault, w`blames
      ensures Valid() && old(w.history) <= w.history && AtPos(w.now, w.round, pos, Reach(log, sync), pushed)
      ensures ok ==> Listed(w.now, pos, batchSize, page) && w.listedAt == w.now.clock
      ensures ok ==> Ready(w.now, page) && UniqueIds(page)
      ensures w.Met(old(w.faults), old(w.blames), if ok then None else Some(CallFailed))
      ensures w.listings == old(w.listings) + 1
      ensures w.shorts == old(w.shorts) + if ok && |page| < batchSize then 1 else 0
    {
      ok, page := w.List(pos, batchSize);
      AtPosLasts(old(w.now), w.now, w.round, pos, Reach(log, sync), pushed);
      if ok {
        ListedIsReady(w.now, pos, batchSize, page);
      }
    }

    /** One listing of a sync and the push of what it answers. */
    method SyncPage(pos: int, pushed: nat) returns (pos': int, pushed': nat, res: PushResult, done: bool)
      requires Valid() && Unfailed(log, sync) && AtPos(w.now, w.round, pos, Reach(log, sync), pushed)
      modifies this, w
      ensures sync == old(sync)
      ensures Valid() && old(w.history) <= w.history && old(log) <= log
      ensures pushed' == |Upto(w.round, Reach(log, sync))| && Told(log, sync, res)
      ensures res.Pushed? ==>
          AtPos(w.now, w.round, pos', Reach(log, sync), pushed')
          && (done ==> NoneAbove(w.now, w.listedAt, pos'))
      ensures (res.ObjectFailed? ==> 0 < failures) && Ended(old(w.faults), old(w.blames), w, res)
      ensures w.listings == old(w.listings) + 1
      ensures w.shorts == old(w.shorts) + if done then 1 else 0
    {
      pos', pushed', res, done := pos, pushed, Failed, false;
      var ok, page := ListPage(pos, pushed);
      EndsAt(w.now, w.listedAt, w.round, pos, Reach(log, sync), pushed);
      if !ok {
        return;
      }
      done := |page| < batchSize;
      if |page| == 0 {
        ShortPageIsLast(w.now, pos, page, batchSize, w.now);
        res := Pushed;
        return;
      }
      pos', pushed', res := PushListed(pos, pushed, page);
    }

    /** The pages of a sync after pos, until one is the last or fails, or the context ends it. */
    method SyncFrom(pos0: int, patience: nat) returns (pushed: nat, res: PushResult, ghost cut: bool)
      requires Valid() && Unfailed(log, sync) && AtPos(w.now, w.round, pos0, Reach(log, sync), 0) && Pruned(skip, pos0)
      modifies this, w
      ensures sync == old(sync)
      ensures Valid() && old(w.history) <= w.history && old(log) <= log
      ensures SyncEnds(w.now, w.listedAt, w.round, Reach(log, sync), pushed, res)
      ensures res.Pushed? && w.now.keeps ==> Pruned(skip, w.now.watermark)
      ensures (res.ObjectFailed? ==> 0 < failures) && Told(log, sync, res)
      ensures old(w.shorts) + (if res.Pushed? then 1 else 0) <= w.shorts <= old(w.shorts) + 1
      ensures if cut then res.Failed? && w.listings == old(w.listings) + patience
          && Excused(old(w.faults), old(w.blames), w) else Ended(old(w.faults), old(w.blames), w, res)
    {
      var pos, more := pos0, true;
      pushed, res := 0, Failed;
      EndsAt(w.now, w.listedAt, w.round, pos, Reach(log, sync), 0);
      var listings := patience;
      while more && listings > 0
        invariant Valid() && old(w.history) <= w.history && old(log) <= log && sync == old(sync)
        invariant more ==> Excused(old(w.faults), old(w.blames), w) && Unfailed(log, sync) && Pruned(skip, pos)
        invariant more ==> AtPos(w.now, w.round, pos, Reach(log, sync), pushed)
        invariant !more ==> Ended(old(w.faults), old(w.blames), w, res) && Told(log, sync, res)
        invariant !more ==> SyncEnds(w.now, w.listedAt, w.round, Reach(log, sync), pushed, res)
        invariant !more && res.Pushed? && w.now.keeps ==> Pruned(skip, w.now.watermark)
        invariant if more then w.shorts == old(w.shorts)
            else old(w.shorts) + (if res.Pushed? then 1 else 0) <= w.shorts <= old(w.shorts) + 1
        invariant pushed == |Upto(w.round, Reach(log, sync))|
        invariant (res.ObjectFailed? ==> 0 < failures) && w.listings + listings == old(w.listings) + patience
      {
        var done;
        pos, pushed, res, done := SyncPage(pos, pushed);
        if res.Pushed? {
          Prune(pos);
          EndsAt(w.now, w.listedAt, w.round, pos, Reach(log, sync), pushed);
        }
        more, listings := res.Pushed? && !done, listings - 1;
      }
      cut := more;
      if more {
        res := Failed;
      }
    }

    /** Pushes everything after the target's watermark, a page at a time, stopping at the first failure.
        The context ends it after at most patience listings; cut is whether it did. */
    method Sync(patience: nat) returns (pushed: nat, res: PushResult, ghost cut: bool)
      requires Valid()
      modifies this, w
      ensures Valid() && old(w.history) <= w.history && old(log) <= log && sync == old(sync) + 1
      ensures SyncEnds(w.now, w.listedAt, w.round, Reach(log, sync), pushed, res)
      ensures res.Pushed? && w.now.keeps ==> Pruned(skip, w.now.watermark)
      ensures res.ObjectFailed? ==> 0 < failures < MAX_OBJECT_FAILURES
      ensures Told(log, sync, res) && FaultsSettled(log, sync, res)
      ensures old(w.shorts) + (if res.Pushed? then 1 else 0) <= w.shorts <= old(w.shorts) + 1
      ensures if cut then res.Failed? && w.listings == old(w.listings) + patience
          && Excused(old(w.faults), old(w.blames), w) else Ended(old(w.faults), old(w.blames), w, res)
    {
      var read, pos := Open();
      pushed, res, cut := 0, Failed, false;
      UptoEnd(w.round, Reach(log, sync));
      if read {
        pushed, res, cut := SyncFrom(pos, patience);
      }
      ToldSettles(log, sync, res);
    }
  }

  /** A version skipped since the Syncer was made was given up on after three failures in three syncs,
      with nothing in between that would have started the count again. */
  lemma SkippedOnlyAfterThreeFailures(log: seq<Event>, sync: nat, failingId: Name, failingSeq: int, failures: nat,
      skip: map<Name, int>, skipped: seq<(Name, int)>, before: set<int>, known: set<int>, seqNo: int)
    requires Tidy(log, sync, failingId, failingSeq, failures, skip, skipped, before, known)
    requires seqNo in known && seqNo !in before
    ensures exists i: nat, a: nat, b: nat, c: nat ::
        i < |log| && log[i].GivenUp? && log[i].seqNo == seqNo && Earned(log, i, a, b, c)
  {
    GivenSetIs(log, seqNo);
    var i: nat :| i < |log| && log[i].GivenUp? && log[i].seqNo == seqNo;
    EverySkipIsEarned(log, i);
  }

  /** Any run: a source others write to, a target, and one Syncer after another, each dying after any
      state of any of its syncs. In no state reached is a current version at or below the watermark
      neither acknowledged nor skipped. */
  method Life(objects: map<int, Object>, clock: int, keeps: bool, target: Target, lives: nat) returns (w: World)
    requires WellFormed(Fed(objects, clock, 0, keeps, {}, {})) && (target.Local? ==> keeps)
    ensures w.Valid()
    ensures forall i, k :: 0 <= i < |w.history| && k in w.history[i].objects && k <= w.history[i].watermark ==>
              k in w.history[i].acked || k in w.history[i].skipped
  {
    w := new World(objects, clock, keeps);
    for life := 0 to lives
      invariant fresh(w) && w.Valid() && w.Sound() && w.now.keeps == keeps
    {
      w.Others();
      var start := |w.history|;
      var batchSize: int := *;
      var s := new Syncer(w, target, batchSize);
      var syncs: int := *;
      while syncs > 0
        invariant fresh(w) && fresh(s) && s.w == w && s.Valid() && w.now.keeps == keeps
      {
        syncs := syncs - 1;
        var patience: nat := *;
        var pushed, res, cut := s.Sync(patience);
      }
      var dies: bool, i: nat := *, *;
      if dies && start <= i < |w.history| {
        w.CutAt(i);
      }
    }
  }
}
