/** The two pushers: over HTTP in requests the receiver acknowledges one by one, and straight into a
    local database whose watermark is written last. */
module Pushers {
  import opened PushRequests
  import opened SyncWorld
  import opened Wrappers

  /** How a push ends. ObjectFailed is a failure down to one object. */
  datatype PushResult = Pushed | ObjectFailed(id: Name) | Failed

  /** Where the watermark stands once the first m objects are acknowledged. */
  function Mark(f: Fed, objects: seq<Object>, m: nat): int
    requires m <= |objects|
  {
    if m == 0 || !f.keeps then f.watermark else objects[m - 1].seqNo
  }

  /** What any push keeps to: it acknowledges the first m objects and no others, all of them when it
      reports success, with the watermark at the last of them, and blames an object only among the others. */
  ghost predicate PushedPrefix(f: Fed, g: Fed, objects: seq<Object>, res: PushResult, m: nat) {
    && m <= |objects|
    && WellFormed(g) && Moved(f, g, Seqs(objects[..m]))
    && (res.Pushed? ==> m == |objects| && g.watermark == Mark(f, objects, m))
    && (res.ObjectFailed? ==> exists j :: m <= j < |objects| && objects[j].id == res.id)
  }

  /** Why a push ended as it did: it went through when nothing it needs failed; else one thing did, and it
      blames an object exactly when that is down to the object. */
  ghost predicate Explained(before: nat, blamed: nat, w: World, res: PushResult)
    reads w`faults, w`lastFault, w`blames
  {
    match res
    case Pushed => w.faults == before && w.blames == blamed
    case ObjectFailed(id) => w.faults == before + 1 && w.blames == blamed + 1 && Blames(w.lastFault, id)
    case Failed => w.faults == before + 1 && w.blames == blamed && !BlamesOne(w.lastFault)
  }

  lemma SeqsOfConcat(a: seq<Object>, b: seq<Object>)
    ensures Seqs(a + b) == Seqs(a) + Seqs(b)
  {
    forall k | k in Seqs(a) + Seqs(b) ensures k in Seqs(a + b) {
      if k in Seqs(a) {
        var i :| 0 <= i < |a| && a[i].seqNo == k;
        assert (a + b)[i].seqNo == k;
      } else {
        var i :| 0 <= i < |b| && b[i].seqNo == k;
        assert (a + b)[|a| + i].seqNo == k;
      }
    }
  }

  // ---- Over HTTP ----

  /** What became of a request: not acknowledged; acknowledged with the watermark moved over it (or none
      to move); or acknowledged with the watermark's write lost. */
  datatype Fate = Unsent | Marked | Unmarked

  /** The step a flush takes, the part before it already acknowledged. */
  ghost predicate Flushed(f: Fed, g: Fed, part: seq<Object>, res: PushResult, fate: Fate) {
    && WellFormed(g)
    && (if fate.Unsent? then Stood(f, g) else Moved(f, g, Seqs(part)))
    && g.watermark == (if fate.Marked? then Mark(f, part, |part|) else f.watermark)
    && (res.Pushed? ==> fate.Marked?)
    && (res.ObjectFailed? ==> fate.Unsent? && |part| == 1 && res.id == part[0].id)
    && (fate.Unmarked? ==> part != [])
  }

  /** Sends body, the objects from start to i, and moves the watermark to the last of them. */
  method Flush(w: World, body: Request, last: int, lastId: Name, ghost objects: seq<Object>, ghost start: nat,
      ghost i: nat)
    returns (res: PushResult, ghost fate: Fate)
    requires w.Valid() && Ready(w.now, objects)
    requires start <= i <= |objects| && body.objects == objects[start..i]
    requires Seqs(objects[..start]) <= w.now.acked
    requires start < i ==> last == objects[i - 1].seqNo && lastId == objects[i - 1].id
    modifies w`now, w`history, w`delivered, w`round, w`writes, w`faults, w`lastFault, w`blames
    ensures w.Valid() && old(w.history) <= w.history
    ensures Flushed(old(w.now), w.now, body.objects, res, fate)
    ensures w.delivered == (if fate.Unsent? then old(w.delivered) else old(w.delivered) + [body])
    ensures w.round == (if fate.Unsent? then old(w.round) else old(w.round) + Seqs(body.objects))
    ensures w.writes
        == old(w.writes) + if !fate.Unsent? && w.now.keeps && body.objects != [] then [fate.Marked?] else []
    ensures Explained(old(w.faults), old(w.blames), w, res)
  {
    var reply;
    ghost var answers, cut;
    reply, answers, cut := w.Send(body);
    if !reply.Acknowledged? {
      assert |body.objects| == 1 ==> Ids(body.objects) == [lastId];
      return if |body.objects| == 1 && reply.TooLarge? then ObjectFailed(lastId) else Failed, Unsent;
    }
    res, fate := Pushed, Marked;
    if w.now.keeps && |body.objects| > 0 {
      PrefixSeqs(objects, start, i);
      ReadyLasts(old(w.now), w.now, objects);
      PrefixCovers(w.now, objects, i);
      var ok;
      ghost var landed;
      ok, landed := w.SetWatermark(last);
      res, fate := if ok then Pushed else Failed, if landed then Marked else Unmarked;
    }
  }

  /** Requests k and on of the split all are still to go, cur holding what is gathered for request k. */
  ghost predicate Splitting(cap: int, all: seq<seq<Object>>, k: nat, objects: seq<Object>, start: nat, i: nat) {
    && k < |all| && start <= i <= |objects| && Start(all, k) == start
    && all[k..] == Chunks(cap, objects[start..i], objects[i..])
  }

  lemma SplitStep(cap: int, all: seq<seq<Object>>, k: nat, objects: seq<Object>, start: nat, i: nat)
    requires Splitting(cap, all, k, objects, start, i) && i < |objects|
    ensures var full := start < i && cap > 0 && Size(objects[start..i]) + objects[i].size > cap;
            if full then all[k] == objects[start..i] && Splitting(cap, all, k + 1, objects, i, i + 1)
            else Splitting(cap, all, k, objects, start, i + 1)
  {
    var cur, rest := objects[start..i], objects[i..];
    assert rest[0] == objects[i] && rest[1..] == objects[i + 1..];
    assert cur + [rest[0]] == objects[start..i + 1];
    if start < i && cap > 0 && Size(cur) + objects[i].size > cap {
      assert all[k..] == [cur] + Chunks(cap, [rest[0]], rest[1..]);
      assert all[k] == all[k..][0] && all[k + 1..] == all[k..][1..];
      ChunksKeepOrder(cap, [rest[0]], rest[1..]);
      assert objects[i..i + 1] == [rest[0]];
    }
  }

  /** The body being gathered for request k: objects from start to i, their edges, and what only the
      first request carries. */
  ghost predicate Gathered(body: Request, k: nat, objects: seq<Object>, edges: seq<Edge>, entities: seq<Entity>,
      start: nat, i: nat)
  {
    && start <= i <= |objects| && body.objects == objects[start..i]
    && body.edges == (if k == 0 then EdgesAt(objects, edges, None) else [])
        + EdgesFrom(objects, edges, start, i - start)
    && body.entities == (if k == 0 then entities else [])
  }

  lemma GatheredRequest(body: Request, all: seq<seq<Object>>, k: nat, objects: seq<Object>, edges: seq<Edge>,
      entities: seq<Entity>, start: nat, i: nat)
    requires Gathered(body, k, objects, edges, entities, start, i)
    requires k < |all| && Start(all, k) == start && all[k] == objects[start..i]
    ensures RequestsOf(all, objects, edges, entities)[..k] + [body]
        == RequestsOf(all, objects, edges, entities)[..k + 1]
  {
    assert RequestAt(all, k, objects, edges, entities) == body;
    assert RequestsOf(all, objects, edges, entities)[..k + 1]
        == RequestsOf(all, objects, edges, entities)[..k] + [RequestsOf(all, objects, edges, entities)[k]];
  }

  lemma GatherNext(body: Request, k: nat, objects: seq<Object>, edges: seq<Edge>, entities: seq<Entity>, start: nat,
      i: nat)
    requires Gathered(body, k, objects, edges, entities, start, i) && i < |objects|
    ensures Gathered(Request(body.objects + [objects[i]], body.edges + EdgesAt(objects, edges, Some(i)), body.entities),
                     k, objects, edges, entities, start, i + 1)
    ensures Size(objects[start..i + 1]) == Size(objects[start..i]) + objects[i].size
  {
    SizeNext(objects, start, i);
    NextGroup(objects, edges, start, i - start);
    var first := if k == 0 then EdgesAt(objects, edges, None) else [];
    Regroup(first, EdgesFrom(objects, edges, start, i - start), EdgesAt(objects, edges, Some(i)));
  }

  lemma SizeNext(objects: seq<Object>, start: nat, i: nat)
    requires start <= i < |objects|
    ensures objects[start..i + 1] == objects[start..i] + [objects[i]]
    ensures Size(objects[start..i + 1]) == Size(objects[start..i]) + objects[i].size
  {
    assert objects[start..i + 1][..i - start] == objects[start..i];
  }

  lemma NextGroup(objects: seq<Object>, edges: seq<Edge>, lo: nat, n: nat)
    ensures EdgesFrom(objects, edges, lo, n + 1)
        == EdgesFrom(objects, edges, lo, n) + EdgesAt(objects, edges, Some(lo + n))
  {
  }

  lemma Regroup<T>(a: seq<T>, b: seq<T>, c: seq<T>)
    ensures (a + b) + c == a + (b + c)
  {
  }

  /** What a push changes: the state both sides are in, the requests acknowledged, the versions
      acknowledged in this sync and what became of the watermark writes. */
  datatype Tally = Tally(fed: Fed, sent: seq<Request>, round: set<int>, writes: seq<bool>)

  ghost function Of(w: World): Tally
    reads w
  {
    Tally(w.now, w.delivered, w.round, w.writes)
  }

  /** n writes that took effect, the last of them only if it is said to. */
  function Writes(n: nat, last: bool): seq<bool> {
    if n == 0 then [] else Writes(n - 1, true) + [last]
  }

  /** k of the requests are acknowledged, holding the first m objects, each with its watermark write where
      one is kept; all of those took effect but the last, which did if marked. */
  ghost predicate Sent(t: Tally, u: Tally, requests: seq<Request>, k: nat, objects: seq<Object>, m: nat, marked: bool) {
    && k <= |requests| && m <= |objects|
    && WellFormed(u.fed) && Moved(t.fed, u.fed, Seqs(objects[..m]))
    && u.sent == t.sent + requests[..k] && u.round == t.round + Seqs(objects[..m])
    && u.writes == t.writes + Writes(if t.fed.keeps && objects != [] then k else 0, marked)
  }

  /** How a push over HTTP ends: k of its requests are acknowledged, holding the first m objects; all of
      them on success; and the watermark stands at the last of those, or, when the write for request k was
      lost, at the last object of the request before. */
  ghost predicate RemoteOutcome(t: Tally, u: Tally, cap: int, objects: seq<Object>, edges: seq<Edge>,
      entities: seq<Entity>, res: PushResult, k: nat, m: nat, marked: bool)
  {
    var chunks, requests := Chunks(cap, [], objects), Requests(cap, objects, edges, entities);
    && Sent(t, u, requests, k, objects, m, marked) && m == Start(chunks, k)
    && (res.Pushed? ==> k == |requests| && m == |objects| && marked)
    && (res.ObjectFailed? ==> exists j :: m <= j < |objects| && objects[j].id == res.id)
    && (if marked then u.fed.watermark == Mark(t.fed, objects, m)
        else k > 0 && var before := Start(chunks, k - 1);
                      before <= m && u.fed.watermark == Mark(t.fed, objects, before))
  }

  lemma SentNext(t: Tally, u: Tally, v: Tally, requests: seq<Request>, k: nat, objects: seq<Object>, start: nat, i: nat,
      body: Request, res: PushResult, fate: Fate)
    requires Sent(t, u, requests, k, objects, start, true) && u.fed.watermark == Mark(t.fed, objects, start)
    requires start <= i <= |objects| && body.objects == objects[start..i] && (objects != [] ==> start < i)
    requires k < |requests| && requests[..k] + [body] == requests[..k + 1]
    requires Flushed(u.fed, v.fed, body.objects, res, fate)
    requires v.sent == (if fate.Unsent? then u.sent else u.sent + [body])
    requires v.round == (if fate.Unsent? then u.round else u.round + Seqs(body.objects))
    requires v.writes == u.writes + if !fate.Unsent? && v.fed.keeps && body.objects != [] then [fate.Marked?] else []
    ensures if fate.Unsent? then Sent(t, v, requests, k, objects, start, true)
        else Sent(t, v, requests, k + 1, objects, i, fate.Marked?)
    ensures v.fed.watermark == Mark(t.fed, objects, if fate.Marked? then i else start)
  {
    if fate.Unsent? {
      LaterCompose(t.fed, u.fed, v.fed);
    } else {
      MovedNext(t.fed, u.fed, v.fed, objects, start, i);
      RoundNext(t.round, u.round, v.round, objects, start, i);
      Joined(t.sent, requests[..k], [body], u.sent, v.sent);
      if t.fed.keeps && objects != [] {
        assert body.objects != [];
        Joined(t.writes, Writes(k, true), [fate.Marked?], u.writes, v.writes);
      }
      MarkNext(t.fed, u.fed, v.fed, objects, start, i, fate);
    }
  }

  lemma Joined<T>(t: seq<T>, a: seq<T>, b: seq<T>, u: seq<T>, v: seq<T>)
    requires u == t + a && v == u + b
    ensures v == t + (a + b)
  {
  }

  lemma RoundNext(t: set<int>, u: set<int>, v: set<int>, objects: seq<Object>, start: nat, i: nat)
    requires start <= i <= |objects| && u == t + Seqs(objects[..start]) && v == u + Seqs(objects[start..i])
    ensures v == t + Seqs(objects[..i])
  {
    PrefixSeqs(objects, start, i);
    Unite(t, Seqs(objects[..start]), Seqs(objects[start..i]));
  }

  lemma MarkNext(f: Fed, g: Fed, h: Fed, objects: seq<Object>, start: nat, i: nat, fate: Fate)
    requires start <= i <= |objects| && (objects != [] ==> start < i) && f.keeps == g.keeps
    requires g.watermark == Mark(f, objects, start)
    requires h.watermark == (if fate.Marked? then Mark(g, objects[start..i], i - start) else g.watermark)
    ensures h.watermark == Mark(f, objects, if fate.Marked? then i else start)
  {
  }

  lemma MovedNext(f: Fed, g: Fed, h: Fed, objects: seq<Object>, start: nat, i: nat)
    requires start <= i <= |objects| && Moved(f, g, Seqs(objects[..start])) && Moved(g, h, Seqs(objects[start..i]))
    ensures Moved(f, h, Seqs(objects[..i]))
  {
    LaterCompose(f, g, h);
    PrefixSeqs(objects, start, i);
    Unite(f.acked, Seqs(objects[..start]), Seqs(objects[start..i]));
  }

  lemma Unite(a: set<int>, b: set<int>, c: set<int>)
    ensures (a + b) + c == a + (b + c)
  {
  }

  lemma PrefixSeqs(objects: seq<Object>, start: nat, i: nat)
    requires start <= i <= |objects|
    ensures Seqs(objects[..i]) == Seqs(objects[..start]) + Seqs(objects[start..i])
  {
    assert objects[..start] + objects[start..i] == objects[..i];
    SeqsOfConcat(objects[..start], objects[start..i]);
  }

  /** The request being gathered: its body, the encoded bytes of its objects, and the last of them. */
  datatype Batch = Batch(body: Request, size: nat, last: int, lastId: Name)

  /** Halfway through a push: requests before k are acknowledged, and b gathers request k, which holds the
      objects from start to i so far. */
  ghost predicate Halfway(t: Tally, u: Tally, cap: int, objects: seq<Object>, edges: seq<Edge>, entities: seq<Entity>,
      b: Batch, k: nat, start: nat, i: nat)
  {
    && Splitting(cap, Chunks(cap, [], objects), k, objects, start, i) && (i > 0 ==> start < i)
    && Gathered(b.body, k, objects, edges, entities, start, i)
    && b.size == Size(objects[start..i])
    && (i > 0 ==> b.last == objects[i - 1].seqNo && b.lastId == objects[i - 1].id)
    && Sent(t, u, Requests(cap, objects, edges, entities), k, objects, start, true)
    && u.fed.watermark == Mark(t.fed, objects, start)
  }

  lemma StartHalfway(t: Tally, cap: int, objects: seq<Object>, edges: seq<Edge>, entities: seq<Entity>,
      byObject: map<nat, seq<Edge>>, loose: seq<Edge>)
    requires WellFormed(t.fed) && Grouped(objects, edges, byObject, loose)
    ensures Halfway(t, t, cap, objects, edges, entities,
        Batch(Request([], loose, entities), 0, 0, EMPTY), 0, 0, 0)
  {
    ChunksKeepOrder(cap, [], objects);
    assert objects[0..0] == [] && objects[0..] == objects && objects[..0] == [];
  }

  /** The batch with object i in it. */
  lemma AddHalfway(t: Tally, u: Tally, cap: int, objects: seq<Object>, edges: seq<Edge>, entities: seq<Entity>,
      b: Batch, k: nat, start: nat, i: nat)
    requires Halfway(t, u, cap, objects, edges, entities, b, k, start, i) && i < |objects|
    requires !(start < i && cap > 0 && b.size + objects[i].size > cap)
    ensures Halfway(t, u, cap, objects, edges, entities, Added(b, objects[i], EdgesAt(objects, edges, Some(i))),
        k, start, i + 1)
  {
    SplitStep(cap, Chunks(cap, [], objects), k, objects, start, i);
    GatherNext(b.body, k, objects, edges, entities, start, i);
  }

  function Added(b: Batch, o: Object, own: seq<Edge>): Batch {
    Batch(Request(b.body.objects + [o], b.body.edges + own, b.body.entities), b.size + o.size, o.seqNo, o.id)
  }

  /** A request left behind, the next holds object i alone. */
  lemma NewHalfway(t: Tally, u: Tally, v: Tally, cap: int, objects: seq<Object>, edges: seq<Edge>,
      entities: seq<Entity>, b: Batch, k: nat, start: nat, i: nat)
    requires Halfway(t, u, cap, objects, edges, entities, b, k, start, i) && i < |objects|
    requires start < i && cap > 0 && b.size + objects[i].size > cap
    requires Sent(t, v, Requests(cap, objects, edges, entities), k + 1, objects, i, true)
        && v.fed.watermark == Mark(t.fed, objects, i)
    ensures Halfway(t, v, cap, objects, edges, entities,
        Added(Batch(Request([], [], []), 0, 0, EMPTY), objects[i], EdgesAt(objects, edges, Some(i))), k + 1, i, i + 1)
  {
    SplitStep(cap, Chunks(cap, [], objects), k, objects, start, i);
    assert objects[i..i] == [];
    GatherNext(Request([], [], []), k + 1, objects, edges, entities, i, i);
  }

  /** Sends the gathered request when it is whole: the next object does not fit, or there is none. */
  method SendBatch(w: World, ghost t: Tally, cap: int, objects: seq<Object>, ghost edges: seq<Edge>,
      ghost entities: seq<Entity>, b: Batch, ghost k: nat, ghost start: nat, i: nat)
    returns (res: PushResult, ghost fate: Fate)
    requires w.Valid() && Ready(w.now, objects) && Halfway(t, Of(w), cap, objects, edges, entities, b, k, start, i)
    requires i < |objects| ==> start < i && cap > 0 && b.size + objects[i].size > cap
    modifies w`now, w`history, w`delivered, w`round, w`writes, w`faults, w`lastFault, w`blames
    ensures w.Valid() && old(w.history) <= w.history && Ready(w.now, objects)
    ensures BatchEnded(t, Of(w), cap, objects, edges, entities, k, start, i, res, fate)
    ensures Explained(old(w.faults), old(w.blames), w, res)
  {
    ghost var u := Of(w);
    res, fate := Flush(w, b.body, b.last, b.lastId, objects, start, i);
    ReadyLasts(old(w.now), w.now, objects);
    BatchEnds(t, u, Of(w), cap, objects, edges, entities, b, k, start, i, res, fate);
  }

  /** A batch sent: the push goes on when it was acknowledged and marked, and may end here. */
  ghost predicate BatchEnded(t: Tally, v: Tally, cap: int, objects: seq<Object>, edges: seq<Edge>,
      entities: seq<Entity>, k: nat, start: nat, i: nat, res: PushResult, fate: Fate)
  {
    && (res.Pushed? ==>
        fate.Marked? && Sent(t, v, Requests(cap, objects, edges, entities), k + 1, objects, i, true)
        && v.fed.watermark == Mark(t.fed, objects, i))
    && (!res.Pushed? || i == |objects| ==> RemoteOutcome(t, v, cap, objects, edges, entities, res,
          if fate.Unsent? then k else k + 1, if fate.Unsent? then start else i, !fate.Unmarked?))
  }

  lemma BatchEnds(t: Tally, u: Tally, v: Tally, cap: int, objects: seq<Object>, edges: seq<Edge>, entities: seq<Entity>,
      b: Batch, k: nat, start: nat, i: nat, res: PushResult, fate: Fate)
    requires Halfway(t, u, cap, objects, edges, entities, b, k, start, i)
        && Flushed(u.fed, v.fed, b.body.objects, res, fate)
    requires i < |objects| ==> start < i && cap > 0 && b.size + objects[i].size > cap
    requires v.sent == (if fate.Unsent? then u.sent else u.sent + [b.body])
    requires v.round == (if fate.Unsent? then u.round else u.round + Seqs(b.body.objects))
    requires v.writes == u.writes + if !fate.Unsent? && v.fed.keeps && b.body.objects != [] then [fate.Marked?] else []
    ensures BatchEnded(t, v, cap, objects, edges, entities, k, start, i, res, fate)
  {
    WholeRequest(cap, objects, edges, entities, b, k, start, i);
    SentNext(t, u, v, Requests(cap, objects, edges, entities), k, objects, start, i, b.body, res, fate);
    if fate.Unsent? {
      UnsentEnds(t, v, cap, objects, edges, entities, k, start, i, b.body, res);
    } else {
      SentEnds(t, v, cap, objects, edges, entities, k, start, i, res, fate);
    }
  }

  lemma UnsentEnds(t: Tally, v: Tally, cap: int, objects: seq<Object>, edges: seq<Edge>, entities: seq<Entity>,
      k: nat, start: nat, i: nat, body: Request, res: PushResult)
    requires Sent(t, v, Requests(cap, objects, edges, entities), k, objects, start, true)
        && v.fed.watermark == Mark(t.fed, objects, start)
    requires start == Start(Chunks(cap, [], objects), k) && start <= i <= |objects| && body.objects == objects[start..i]
    requires !res.Pushed? && (res.ObjectFailed? ==> |body.objects| == 1 && res.id == body.objects[0].id)
    ensures RemoteOutcome(t, v, cap, objects, edges, entities, res, k, start, true)
  {
    if res.ObjectFailed? {
      assert objects[start].id == res.id;
    }
  }

  lemma SentEnds(t: Tally, v: Tally, cap: int, objects: seq<Object>, edges: seq<Edge>, entities: seq<Entity>,
      k: nat, start: nat, i: nat, res: PushResult, fate: Fate)
    requires k < |Chunks(cap, [], objects)| && start <= i <= |objects|
    requires Sent(t, v, Requests(cap, objects, edges, entities), k + 1, objects, i, fate.Marked?) && !fate.Unsent?
        && !res.ObjectFailed?
    requires v.fed.watermark == Mark(t.fed, objects, if fate.Marked? then i else start)
    requires start == Start(Chunks(cap, [], objects), k) && i == Start(Chunks(cap, [], objects), k + 1)
    requires i == |objects| ==> |Requests(cap, objects, edges, entities)| == k + 1
    requires res.Pushed? ==> fate.Marked?
    ensures BatchEnded(t, v, cap, objects, edges, entities, k, start, i, res, fate)
  {
  }

  lemma WholeRequest(cap: int, objects: seq<Object>, edges: seq<Edge>, entities: seq<Entity>, b: Batch, k: nat,
      start: nat, i: nat)
    requires Splitting(cap, Chunks(cap, [], objects), k, objects, start, i)
        && Gathered(b.body, k, objects, edges, entities, start, i)
    requires b.size == Size(objects[start..i])
        && (i < |objects| ==> start < i && cap > 0 && b.size + objects[i].size > cap)
    ensures var chunks, requests := Chunks(cap, [], objects), Requests(cap, objects, edges, entities);
            && requests[..k] + [b.body] == requests[..k + 1] && Start(chunks, k + 1) == i
            && (i == |objects| ==> |requests| == k + 1)
  {
    var chunks := Chunks(cap, [], objects);
    if i < |objects| {
      SplitStep(cap, chunks, k, objects, start, i);
    } else {
      assert chunks[k..] == [objects[start..i]];
      assert chunks[k] == chunks[k..][0];
    }
    GatheredRequest(b.body, chunks, k, objects, edges, entities, start, i);
  }

  /** An object that cannot be encoded ends the push where the last request left it. */
  lemma EncodingFails(t: Tally, u: Tally, cap: int, objects: seq<Object>, edges: seq<Edge>, entities: seq<Entity>,
      b: Batch, k: nat, start: nat, i: nat, res: PushResult)
    requires Halfway(t, u, cap, objects, edges, entities, b, k, start, i) && i < |objects|
    requires res == Failed || res == ObjectFailed(objects[i].id)
    ensures RemoteOutcome(t, u, cap, objects, edges, entities, res, k, start, true)
  {
  }

  /** Sends a batch object i does not fit in; the next one starts with that object. */
  method SendFull(w: World, ghost t: Tally, cap: int, objects: seq<Object>, ghost edges: seq<Edge>,
      ghost entities: seq<Entity>, own: seq<Edge>, b: Batch, ghost k: nat, ghost start: nat, i: nat)
    returns (res: PushResult, next: Batch, ghost k': nat, ghost start': nat, ghost marked: bool)
    requires w.Valid() && i < |objects| && Ready(w.now, objects)
        && Halfway(t, Of(w), cap, objects, edges, entities, b, k, start, i)
    requires start < i && cap > 0 && b.size + objects[i].size > cap && own == EdgesAt(objects, edges, Some(i))
    modifies w`now, w`history, w`delivered, w`round, w`writes, w`faults, w`lastFault, w`blames
    ensures w.Valid() && old(w.history) <= w.history && Ready(w.now, objects)
    ensures res.Pushed? ==> Halfway(t, Of(w), cap, objects, edges, entities, next, k', start', i + 1)
    ensures !res.Pushed? ==> RemoteOutcome(t, Of(w), cap, objects, edges, entities, res, k', start', marked)
    ensures Explained(old(w.faults), old(w.blames), w, res)
  {
    ghost var u, fate := Of(w), Unsent;
    res, fate := SendBatch(w, t, cap, objects, edges, entities, b, k, start, i);
    FullEnds(t, u, Of(w), cap, objects, edges, entities, b, k, start, i, res, fate);
    next := Added(Batch(Request([], [], []), 0, 0, EMPTY), objects[i], own);
    k', start', marked := if fate.Unsent? then k else k + 1, if fate.Unsent? then start else i, !fate.Unmarked?;
  }

  lemma FullEnds(t: Tally, u: Tally, v: Tally, cap: int, objects: seq<Object>, edges: seq<Edge>, entities: seq<Entity>,
      b: Batch, k: nat, start: nat, i: nat, res: PushResult, fate: Fate)
    requires Halfway(t, u, cap, objects, edges, entities, b, k, start, i) && i < |objects|
    requires start < i && cap > 0 && b.size + objects[i].size > cap
    requires BatchEnded(t, v, cap, objects, edges, entities, k, start, i, res, fate)
    ensures var next := Added(Batch(Request([], [], []), 0, 0, EMPTY), objects[i], EdgesAt(objects, edges, Some(i)));
            var k', start' := if fate.Unsent? then k else k + 1, if fate.Unsent? then start else i;
            if res.Pushed? then Halfway(t, v, cap, objects, edges, entities, next, k', start', i + 1)
            else RemoteOutcome(t, v, cap, objects, edges, entities, res, k', start', !fate.Unmarked?)
  {
    if res.Pushed? {
      NewHalfway(t, u, v, cap, objects, edges, entities, b, k, start, i);
    }
  }

  /** Takes object i into the batch, sending the batch first when the object does not fit. */
  method Gather(w: World, ghost t: Tally, cap: int, objects: seq<Object>, ghost edges: seq<Edge>,
      ghost entities: seq<Entity>, own: seq<Edge>, b: Batch, ghost k: nat, ghost start: nat, i: nat)
    returns (res: PushResult, next: Batch, ghost k': nat, ghost start': nat, ghost marked: bool)
    requires w.Valid() && i < |objects| && Ready(w.now, objects)
        && Halfway(t, Of(w), cap, objects, edges, entities, b, k, start, i)
    requires own == EdgesAt(objects, edges, Some(i))
    modifies w`now, w`history, w`delivered, w`round, w`writes, w`faults, w`lastFault, w`blames, w`looks
    ensures w.Valid() && old(w.history) <= w.history && Ready(w.now, objects)
    ensures res.Pushed? ==> Halfway(t, Of(w), cap, objects, edges, entities, next, k', start', i + 1)
    ensures !res.Pushed? ==> RemoteOutcome(t, Of(w), cap, objects, edges, entities, res, k', start', marked)
    ensures w.looks == old(w.looks) + 1
    ensures Explained(old(w.faults), old(w.blames), w, res)
  {
    next, k', start', marked := b, k, start, true;
    var content := w.Read(objects[i]);
    if !content.Readable? {
      res := if content.BlobMissing? then ObjectFailed(objects[i].id) else Failed;
      EncodingFails(t, Of(w), cap, objects, edges, entities, b, k, start, i, res);
    } else if |b.body.objects| > 0 && cap > 0 && b.size + objects[i].size > cap {
      res, next, k', start', marked := SendFull(w, t, cap, objects, edges, entities, own, b, k, start, i);
    } else {
      AddHalfway(t, Of(w), cap, objects, edges, entities, b, k, start, i);
      res, next := Pushed, Added(b, objects[i], own);
    }
  }

  lemma LastBatchEnds(t: Tally, v: Tally, cap: int, objects: seq<Object>, edges: seq<Edge>, entities: seq<Entity>,
      k: nat, start: nat, res: PushResult, fate: Fate)
    requires BatchEnded(t, v, cap, objects, edges, entities, k, start, |objects|, res, fate)
    ensures RemoteOutcome(t, v, cap, objects, edges, entities, res,
              if fate.Unsent? then k else k + 1, if fate.Unsent? then start else |objects|, !fate.Unmarked?)
  {
  }

  lemma OwnGroup(objects: seq<Object>, edges: seq<Edge>, byObject: map<nat, seq<Edge>>, loose: seq<Edge>, i: nat)
    requires Grouped(objects, edges, byObject, loose)
    ensures (if i in byObject then byObject[i] else []) == EdgesAt(objects, edges, Some(i))
  {
  }

  /** Takes object i into the batch with the edges of its group. */
  method GatherOwn(w: World, ghost t: Tally, cap: int, objects: seq<Object>, ghost edges: seq<Edge>,
      ghost entities: seq<Entity>, byObject: map<nat, seq<Edge>>, ghost loose: seq<Edge>, b: Batch, ghost k: nat,
      ghost start: nat, i: nat)
    returns (res: PushResult, next: Batch, ghost k': nat, ghost start': nat, ghost marked: bool)
    requires w.Valid() && i < |objects| && Ready(w.now, objects)
    requires Halfway(t, Of(w), cap, objects, edges, entities, b, k, start, i)
        && Grouped(objects, edges, byObject, loose)
    modifies w`now, w`history, w`delivered, w`round, w`writes, w`faults, w`lastFault, w`blames, w`looks
    ensures w.Valid() && old(w.history) <= w.history && Ready(w.now, objects)
    ensures res.Pushed? ==> Halfway(t, Of(w), cap, objects, edges, entities, next, k', start', i + 1)
    ensures !res.Pushed? ==> RemoteOutcome(t, Of(w), cap, objects, edges, entities, res, k', start', marked)
    ensures w.looks == old(w.looks) + 1
    ensures Explained(old(w.faults), old(w.blames), w, res)
  {
    var own := if i in byObject then byObject[i] else [];
    OwnGroup(objects, edges, byObject, loose, i);
    res, next, k', start', marked := Gather(w, t, cap, objects, edges, entities, own, b, k, start, i);
  }

  /** Sends the batch left when all objects are gathered. */
  method SendLast(w: World, ghost t: Tally, cap: int, objects: seq<Object>, ghost edges: seq<Edge>,
      ghost entities: seq<Entity>, b: Batch, ghost k: nat, ghost start: nat)
    returns (res: PushResult, ghost k': nat, ghost m: nat, ghost marked: bool)
    requires w.Valid() && Ready(w.now, objects)
        && Halfway(t, Of(w), cap, objects, edges, entities, b, k, start, |objects|)
    modifies w`now, w`history, w`delivered, w`round, w`writes, w`faults, w`lastFault, w`blames
    ensures w.Valid() && old(w.history) <= w.history
    ensures RemoteOutcome(t, Of(w), cap, objects, edges, entities, res, k', m, marked)
    ensures Explained(old(w.faults), old(w.blames), w, res)
  {
    ghost var fate;
    res, fate := SendBatch(w, t, cap, objects, edges, entities, b, k, start, |objects|);
    LastBatchEnds(t, Of(w), cap, objects, edges, entities, k, start, res, fate);
    k', m, marked := if fate.Unsent? then k else k + 1, if fate.Unsent? then start else |objects|, !fate.Unmarked?;
  }

  /** Takes every object into a batch, sending each batch that is full. */
  method GatherAll(w: World, ghost t: Tally, cap: int, objects: seq<Object>, ghost edges: seq<Edge>,
      ghost entities: seq<Entity>, byObject: map<nat, seq<Edge>>, ghost loose: seq<Edge>, b0: Batch)
    returns (res: PushResult, b: Batch, ghost k: nat, ghost m: nat, ghost marked: bool)
    requires w.Valid() && Ready(w.now, objects)
    requires Halfway(t, Of(w), cap, objects, edges, entities, b0, 0, 0, 0) && Grouped(objects, edges, byObject, loose)
    modifies w`now, w`history, w`delivered, w`round, w`writes, w`faults, w`lastFault, w`blames, w`looks
    ensures w.Valid() && old(w.history) <= w.history && Ready(w.now, objects)
    ensures res.Pushed? ==> Halfway(t, Of(w), cap, objects, edges, entities, b, k, m, |objects|)
    ensures !res.Pushed? ==> RemoteOutcome(t, Of(w), cap, objects, edges, entities, res, k, m, marked)
    ensures res.Pushed? ==> w.looks == old(w.looks) + |objects|
    ensures Explained(old(w.faults), old(w.blames), w, res)
  {
    res, b, k, m, marked := Pushed, b0, 0, 0, true;
    for i := 0 to |objects|
      invariant w.Valid() && old(w.history) <= w.history && Ready(w.now, objects)
      invariant Halfway(t, Of(w), cap, objects, edges, entities, b, k, m, i)
      invariant Grouped(objects, edges, byObject, loose)
      invariant res.Pushed? && w.faults == old(w.faults) && w.blames == old(w.blames) && w.looks == old(w.looks) + i
    {
      res, b, k, m, marked := GatherOwn(w, t, cap, objects, edges, entities, byObject, loose, b, k, m, i);
      if !res.Pushed? {
        return;
      }
    }
  }

  /** Pushes objects in as many requests as the cap asks for, stopping at the first that fails. marked is
      whether the watermark's write for the last acknowledged request took effect. */
  method RemotePush(w: World, cap: int, objects: seq<Object>, edges: seq<Edge>, entities: seq<Entity>)
    returns (res: PushResult, ghost k: nat, ghost m: nat, ghost marked: bool)
    requires w.Valid() && Ready(w.now, objects)
    modifies w`now, w`history, w`delivered, w`round, w`writes, w`faults, w`lastFault, w`blames, w`looks
    ensures w.Valid() && old(w.history) <= w.history
    ensures RemoteOutcome(old(Of(w)), Of(w), cap, objects, edges, entities, res, k, m, marked)
    ensures res.Pushed? ==> w.looks == old(w.looks) + |objects|
    ensures Explained(old(w.faults), old(w.blames), w, res)
  {
    var byObject, loose := AssignEdges(objects, edges);
    var b := Batch(Request([], loose, entities), 0, 0, EMPTY);
    ghost var t := Of(w);
    StartHalfway(t, cap, objects, edges, entities, byObject, loose);
    res, b, k, m, marked := GatherAll(w, t, cap, objects, edges, entities, byObject, loose, b);
    if res.Pushed? {
      res, k, m, marked := SendLast(w, t, cap, objects, edges, entities, b, k, m);
    }
  }

  /** A push that succeeds has sent every object exactly once, in order, every edge exactly once, and in
      requests that keep to the cap. */
  lemma SuccessSendsEverythingOnce(t: Tally, u: Tally, cap: int, objects: seq<Object>, edges: seq<Edge>,
      entities: seq<Entity>, k: nat, m: nat)
    requires RemoteOutcome(t, u, cap, objects, edges, entities, Pushed, k, m, true)
    ensures |t.sent| <= |u.sent| && u.sent[..|t.sent|] == t.sent
    ensures var requests := u.sent[|t.sent|..];
            && AllObjects(requests) == objects && multiset(AllEdges(requests)) == multiset(edges)
            && forall i :: 0 <= i < |requests| ==> Fits(cap, requests[i].objects)
  {
    var requests := Requests(cap, objects, edges, entities);
    assert requests[..k] == requests && u.sent[|t.sent|..] == requests;
    EverythingIsSentOnce(cap, objects, edges, entities);
    ChunksFit(cap, [], objects);
    AllFit(cap, Chunks(cap, [], objects), objects, edges, entities);
  }

  lemma AllFit(cap: int, chunks: seq<seq<Object>>, objects: seq<Object>, edges: seq<Edge>, entities: seq<Entity>)
    requires forall c :: c in chunks ==> Fits(cap, c)
    ensures var requests := RequestsOf(chunks, objects, edges, entities);
            forall i :: 0 <= i < |requests| ==> Fits(cap, requests[i].objects)
  {
    var requests := RequestsOf(chunks, objects, edges, entities);
    forall i | 0 <= i < |requests| ensures Fits(cap, requests[i].objects) {
      assert chunks[i] in chunks && requests[i] == RequestAt(chunks, i, objects, edges, entities);
    }
  }

  /** With every object above the watermark, a push that acknowledged some asked for one watermark write a
      request; all but the last took effect, and the watermark is at the last acknowledged object if and
      only if that one did, too. */
  lemma WatermarkFollowsItsLastWrite(t: Tally, u: Tally, cap: int, objects: seq<Object>, edges: seq<Edge>,
      entities: seq<Entity>, res: PushResult, k: nat, m: nat, marked: bool)
    requires RemoteOutcome(t, u, cap, objects, edges, entities, res, k, m, marked)
    requires t.fed.keeps && InOrder(objects) && m > 0 && t.fed.watermark < objects[0].seqNo
    ensures |u.writes| == |t.writes| + k && k > 0 && forall i :: |t.writes| <= i < |u.writes| - 1 ==> u.writes[i]
    ensures u.fed.watermark == objects[m - 1].seqNo <==> u.writes[|u.writes| - 1]
  {
    WritesInOrder(k, marked);
    if !marked {
      var chunks := Chunks(cap, [], objects);
      ChunksFit(cap, [], objects);
      assert chunks[k - 1] in chunks && chunks[k - 1] != [];
      assert Start(chunks, k) == Start(chunks, k - 1) + |chunks[k - 1]|;
    }
  }

  lemma {:induction false} WritesInOrder(n: nat, last: bool)
    ensures |Writes(n, last)| == n && (n > 0 ==> Writes(n, last)[n - 1] == last)
    ensures forall i :: 0 <= i < n - 1 ==> Writes(n, last)[i]
  {
    if n > 0 {
      WritesInOrder(n - 1, true);
    }
  }

  /** The state after a request that was acknowledged. */
  function Answered(t: Tally, body: Request, watermark: int, landed: bool): Tally {
    Tally(t.fed.(acked := t.fed.acked + Seqs(body.objects), watermark := watermark),
          t.sent + [body], t.round + Seqs(body.objects), t.writes + [landed])
  }

  lemma AnsweredFlush(t: Tally, body: Request, marked: bool)
    requires WellFormed(t.fed) && t.fed.keeps && body.objects != []
    requires 0 <= body.objects[|body.objects| - 1].seqNo <= t.fed.clock
    ensures var watermark := if marked then body.objects[|body.objects| - 1].seqNo else t.fed.watermark;
            Flushed(t.fed, Answered(t, body, watermark, marked).fed, body.objects,
                    if marked then Pushed else Failed, if marked then Marked else Unmarked)
  {
  }

  /** The first of two objects too large to share a request goes out alone and is acknowledged and marked. */
  lemma FirstOfTwo(t: Tally, a: Object, c: Object) returns (u: Tally)
    requires WellFormed(t.fed) && t.fed.keeps && t.fed.watermark < a.seqNo <= t.fed.clock
    requires a.size > 0 && c.size > 0
    ensures Halfway(t, u, a.size + c.size - 1, [a, c], [], [],
        Added(Batch(Request([], [], []), 0, 0, EMPTY), c, []), 1, 1, 2)
    ensures u.fed == t.fed.(acked := t.fed.acked + {a.seqNo}, watermark := a.seqNo)
  {
    var cap, objects := a.size + c.size - 1, [a, c];
    var empty := Batch(Request([], [], []), 0, 0, EMPTY);
    var first := Added(empty, a, []);
    assert first.body.objects == [a] && [a][0].seqNo in Seqs([a]);
    StartHalfway(t, cap, objects, [], [], map[], []);
    AddHalfway(t, t, cap, objects, [], [], empty, 0, 0, 0);
    u := Answered(t, first.body, a.seqNo, true);
    AnsweredFlush(t, first.body, true);
    BatchEnds(t, t, u, cap, objects, [], [], first, 0, 0, 1, Pushed, Marked);
    NewHalfway(t, t, u, cap, objects, [], [], first, 0, 0, 1);
  }

  /** Two objects too large to share a request: both requests are acknowledged, the first write of the
      watermark takes effect and the second is lost. The push fails with both objects acknowledged and the
      watermark a whole request behind. */
  lemma WatermarkCanLag(t: Tally, a: Object, c: Object) returns (u: Tally)
    requires WellFormed(t.fed) && t.fed.keeps && t.fed.watermark < a.seqNo < c.seqNo <= t.fed.clock
    requires a.size > 0 && c.size > 0
    ensures RemoteOutcome(t, u, a.size + c.size - 1, [a, c], [], [], Failed, 2, 2, false)
    ensures {a.seqNo, c.seqNo} <= u.fed.acked && u.fed.watermark == a.seqNo && u.writes == t.writes + [true, false]
  {
    var mid := FirstOfTwo(t, a, c);
    var second := Added(Batch(Request([], [], []), 0, 0, EMPTY), c, []);
    assert second.body.objects == [c] && [c][0].seqNo in Seqs([c]);
    u := Answered(mid, second.body, a.seqNo, false);
    AnsweredFlush(mid, second.body, false);
    BatchEnds(t, mid, u, a.size + c.size - 1, [a, c], [], [], second, 1, 1, 2, Failed, Unmarked);
    assert Writes(1, true) == Writes(0, true) + [true] == [true]
        && Writes(2, false) == Writes(1, true) + [false] == [true, false];
  }
}
