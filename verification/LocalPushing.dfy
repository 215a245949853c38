/** The local pusher: entities, then rows with their edges, and the watermark last. */
module LocalPushing {
  import opened LocalTarget
  import opened Pushers
  import opened PushRequests
  import opened SyncWorld
  import opened Wrappers

  datatype Insert = Inserted | Unique | Broken

  /** What the lookup before an insert finds: a row of the content hash and profile, or without a hash one of
      the id. */
  predicate Known(rows: set<Row>, o: Object) {
    exists r :: r in rows && (if o.hash == EMPTY then r.id == o.id else r.hash == o.hash && r.profile == o.profile)
  }

  predicate AllKnown(rows: set<Row>, objects: seq<Object>) {
    forall i :: 0 <= i < |objects| ==> Known(rows, objects[i])
  }

  /** A lookup whose errors are dropped: it may miss a row that is there. */
  method Find(w: World, o: Object) returns (found: bool)
    modifies w`misses
    ensures found ==> Taken(w.store.rows, RowOf(o))
    ensures found <==> Known(w.store.rows, o) && w.misses == old(w.misses)
    ensures old(w.misses) <= w.misses
  {
    var missed: bool := *;
    if missed {
      w.misses := w.misses + 1;
    }
    found := !missed && Known(w.store.rows, o);
    if found {
      var r :|
          r in w.store.rows && (if o.hash == EMPTY then r.id == o.id else r.hash == o.hash && r.profile == o.profile);
      assert Clash(r, RowOf(o));
    }
  }

  /** Copies the object's blobs and stores its row; the blobs are copied again once the row is in. */
  method CreateObject(w: World, o: Object) returns (res: Insert, blobMissing: bool)
    requires w.Sound()
    modifies w`store, w`faults, w`lastFault, w`blames, w`looks
    ensures w.Sound() && w.store == old(w.store).(rows := w.store.rows)
    ensures res.Inserted? ==> !Taken(old(w.store).rows, RowOf(o)) && w.store.rows == old(w.store).rows + {RowOf(o)}
    ensures (res.Inserted? ==> w.looks == old(w.looks) + 2) && (res.Unique? ==> w.looks == old(w.looks) + 1)
    ensures res.Unique? ==> Taken(old(w.store).rows, RowOf(o)) && w.store.rows == old(w.store).rows
    ensures res.Broken? ==> w.store.rows == Absorb(old(w.store).rows, [o]) || w.store.rows == old(w.store).rows
    ensures w.Met(old(w.faults), old(w.blames),
      if !res.Broken? then None else Some(if blobMissing then ContentMissing(o.id) else CallFailed))
  {
    var content := w.Read(o);
    if !content.Readable? {
      return Broken, content.BlobMissing?;
    }
    if Taken(w.store.rows, RowOf(o)) {
      return Unique, false;
    }
    var stored := w.Call();
    if !stored {
      return Broken, false;
    }
    assert [o][..0] == [] && Absorb(w.store.rows, []) == w.store.rows;
    AbsorbKeepsAndCovers(w.store.rows, [o]);
    w.store := w.store.(rows := w.store.rows + {RowOf(o)});
    content := w.Read(o);
    res, blobMissing := if content.Readable? then Inserted else Broken, content.BlobMissing?;
  }

  method CreateEdge(w: World, e: Edge) returns (res: Insert)
    requires w.Sound()
    modifies w`store, w`faults, w`lastFault, w`blames
    ensures w.Sound() && w.Met(old(w.faults), old(w.blames), if res.Broken? then Some(CallFailed) else None)
    ensures res.Inserted? ==>
        e.key !in old(w.store).edges && w.store == old(w.store).(edges := old(w.store).edges[e.key := e])
    ensures res.Unique? ==> e.key in old(w.store).edges && w.store == old(w.store)
    ensures res.Broken? ==> w.store == old(w.store)
  {
    if e.key in w.store.edges {
      return Unique;
    }
    var stored := w.Call();
    if !stored {
      return Broken;
    }
    w.store := w.store.(edges := w.store.edges[e.key := e]);
    res := Inserted;
  }

  /** Inserts the edges that touch a newly created object, each key at most once a push. */
  method LinkObject(w: World, o: Object, edges: seq<Edge>, inserted: set<Name>, ghost before: map<Name, Edge>,
      ghost created: set<Name>)
    returns (ok: bool, inserted': set<Name>)
    requires w.Sound() && Linked(before, w.store.edges, edges, created) && inserted <= w.store.edges.Keys
    modifies w`store, w`faults, w`lastFault, w`blames
    ensures w.Sound() && w.store == old(w.store).(edges := w.store.edges)
    ensures w.Met(old(w.faults), old(w.blames), if ok then None else Some(CallFailed))
    ensures ok ==> Linked(before, w.store.edges, edges, created + {o.id}) && inserted' <= w.store.edges.Keys
    ensures !ok ==> Preserved(before, w.store.edges)
  {
    inserted' := inserted;
    for j := 0 to |edges|
      invariant w.Sound() && w.store == old(w.store).(edges := w.store.edges)
      invariant w.faults == old(w.faults) && w.blames == old(w.blames)
      invariant inserted' <= w.store.edges.Keys && Preserved(before, w.store.edges)
      invariant forall k :: k in w.store.edges && k !in before ==>
          w.store.edges[k] in edges && w.store.edges[k].key == k && TouchesAny(w.store.edges[k], created + {o.id})
      invariant forall e :: e in edges && TouchesAny(e, created) ==> e.key in w.store.edges
      invariant forall n :: 0 <= n < j && TouchesAny(edges[n], {o.id}) ==> edges[n].key in w.store.edges
    {
      var e := edges[j];
      if !Touches(o, e) || e.key in inserted' {
        continue;
      }
      var res := CreateEdge(w, e);
      if res.Broken? {
        return false, inserted';
      }
      inserted' := inserted' + {e.key};
    }
    ok := true;
  }

  function Named(entities: seq<Entity>, n: nat): set<Name>
    requires n <= |entities|
  {
    set i | 0 <= i < n && entities[i].slug != EMPTY :: entities[i].slug
  }

  /** The named entities, upserted before anything that may mention them. */
  method UpsertEntities(w: World, entities: seq<Entity>) returns (ok: bool)
    requires w.Sound()
    modifies w`store, w`faults, w`lastFault, w`blames
    ensures w.Met(old(w.faults), old(w.blames), if ok then None else Some(CallFailed))
    ensures w.Sound() && w.store == old(w.store).(slugs := w.store.slugs) && old(w.store).slugs <= w.store.slugs
    ensures ok ==> w.store.slugs == old(w.store).slugs + Named(entities, |entities|)
  {
    for j := 0 to |entities|
      invariant w.Sound() && w.store == old(w.store).(slugs := w.store.slugs)
      invariant w.store.slugs == old(w.store).slugs + Named(entities, j)
      invariant w.faults == old(w.faults) && w.blames == old(w.blames)
    {
      if entities[j].slug != EMPTY {
        ok := w.Call();
        if !ok {
          return;
        }
        w.store := w.store.(slugs := w.store.slugs + {entities[j].slug});
      }
    }
    ok := true;
  }

  /** Offers one object to the target, with the edges touching it when it is created. */
  method WriteRow(w: World, o: Object, edges: seq<Edge>, inserted: set<Name>, ghost before: map<Name, Edge>,
      ghost created: set<Name>)
    returns (res: PushResult, inserted': set<Name>)
    requires w.Sound() && Linked(before, w.store.edges, edges, created) && inserted <= w.store.edges.Keys
    modifies w`store, w`faults, w`lastFault, w`blames, w`looks, w`misses
    ensures Explained(old(w.faults), old(w.blames), w, res) && w.Sound() && w.store.slugs == old(w.store).slugs
    ensures old(w.store).rows <= w.store.rows && Preserved(before, w.store.edges) && old(w.misses) <= w.misses
    ensures var taken := Taken(old(w.store).rows, RowOf(o));
      res.Pushed? ==>
        && w.store.rows == old(w.store).rows + (if taken then {} else {RowOf(o)}) && inserted' <= w.store.edges.Keys
        && Linked(before, w.store.edges, edges, created + if taken then {} else {o.id})
    ensures res.ObjectFailed? ==> res.id == o.id
    ensures Known(old(w.store).rows, o) && w.misses == old(w.misses) ==> res.Pushed? && w.looks == old(w.looks)
  {
    res, inserted' := Pushed, inserted;
    AbsorbKeepsAndCovers(w.store.rows, [o]);
    var found := Find(w, o);
    if found {
      return;
    }
    var made, blobMissing := CreateObject(w, o);
    match made {
      case Unique =>
      case Broken => res := if blobMissing then ObjectFailed(o.id) else Failed;
      case Inserted =>
        var ok;
        ok, inserted' := LinkObject(w, o, edges, inserted, before, created);
        res := if ok then Pushed else Failed;
    }
  }

  lemma StaysKnown(rows: set<Row>, later: set<Row>, o: Object)
    requires rows <= later && Known(rows, o)
    ensures Known(later, o)
  {
  }

  /** Offers every object to the target in turn, each one it creates with the edges touching it. When the
      lookups find all of them, no content is looked at and nothing can fail. */
  method WriteRows(w: World, objects: seq<Object>, edges: seq<Edge>) returns (res: PushResult)
    requires w.Sound()
    modifies w`store, w`faults, w`lastFault, w`blames, w`looks, w`misses
    ensures Explained(old(w.faults), old(w.blames), w, res)
    ensures w.Sound() && w.store.slugs == old(w.store).slugs
    ensures old(w.store).rows <= w.store.rows && Preserved(old(w.store).edges, w.store.edges)
    ensures res.Pushed? ==> w.store.rows == Absorb(old(w.store).rows, objects)
    ensures res.Pushed? ==> Linked(old(w.store).edges, w.store.edges, edges, Created(old(w.store).rows, objects))
    ensures AllKnown(old(w.store).rows, objects) && w.misses == old(w.misses) ==>
        res.Pushed? && w.looks == old(w.looks)
    ensures res.ObjectFailed? ==> exists j :: 0 <= j < |objects| && objects[j].id == res.id
  {
    var inserted: set<Name> := {};
    for i := 0 to |objects|
      invariant w.Sound() && w.store.slugs == old(w.store).slugs
      invariant w.faults == old(w.faults) && w.blames == old(w.blames) && old(w.misses) <= w.misses
      invariant AllKnown(old(w.store).rows, objects) && w.misses == old(w.misses) ==> w.looks == old(w.looks)
      invariant w.store.rows == Absorb(old(w.store).rows, objects[..i]) && inserted <= w.store.edges.Keys
      invariant Linked(old(w.store).edges, w.store.edges, edges, Created(old(w.store).rows, objects[..i]))
    {
      AbsorbKeepsAndCovers(old(w.store).rows, objects[..i]);
      AbsorbNext(old(w.store).rows, objects, i);
      if Known(old(w.store).rows, objects[i]) {
        StaysKnown(old(w.store).rows, w.store.rows, objects[i]);
      }
      res, inserted := WriteRow(w, objects[i], edges, inserted, old(w.store).edges,
          Created(old(w.store).rows, objects[..i]));
      if !res.Pushed? {
        return;
      }
    }
    assert objects[..|objects|] == objects;
    AbsorbKeepsAndCovers(old(w.store).rows, objects);
    res := Pushed;
  }

  /** Everything a batch writes but the watermark. */
  method WriteBatch(w: World, objects: seq<Object>, edges: seq<Edge>, entities: seq<Entity>) returns (res: PushResult)
    requires w.Sound()
    modifies w`store, w`faults, w`lastFault, w`blames, w`looks, w`misses
    ensures Explained(old(w.faults), old(w.blames), w, res) && w.Sound()
    ensures old(w.store).rows <= w.store.rows && Preserved(old(w.store).edges, w.store.edges)
    ensures res.Pushed? ==>
      && w.store.rows == Absorb(old(w.store).rows, objects)
      && Linked(old(w.store).edges, w.store.edges, edges, Created(old(w.store).rows, objects))
      && w.store.slugs == old(w.store).slugs + Named(entities, |entities|)
    ensures res.ObjectFailed? ==> exists j :: 0 <= j < |objects| && objects[j].id == res.id
  {
    var ok := UpsertEntities(w, entities);
    if !ok {
      return Failed;
    }
    res := WriteRows(w, objects, edges);
  }

  lemma SettledPrefix(f: Fed, g: Fed, h: Fed, objects: seq<Object>, ok: bool, landed: bool)
    requires Written(f, g) && WellFormed(h) && (ok ==> landed) && f.keeps && objects != []
    requires if landed then Moved(g, h, Seqs(objects)) else Stood(g, h)
    requires h.watermark == if landed then objects[|objects| - 1].seqNo else g.watermark
    ensures var m := if landed then |objects| else 0;
            PushedPrefix(f, h, objects, if ok then Pushed else Failed, m) && h.watermark == Mark(f, objects, m)
            && Seqs(objects[..m]) == if landed then Seqs(objects) else {}
  {
    assert objects[..0] == [] && objects[..|objects|] == objects;
    LaterCompose(f, g, h);
  }

  /** Pushes a batch into the target's database. A push that fails before its watermark write lands has
      moved no watermark and acknowledged nothing. */
  method LocalPush(w: World, objects: seq<Object>, edges: seq<Edge>, entities: seq<Entity>)
    returns (res: PushResult, ghost m: nat)
    requires w.Valid() && w.Sound() && w.now.keeps && Ready(w.now, objects)
    modifies w`now, w`history, w`round, w`store, w`writes, w`faults, w`lastFault, w`blames, w`looks, w`opens, w`misses
    ensures w.opens == old(w.opens) + if objects == [] then 0 else 1
    ensures Explained(old(w.faults), old(w.blames), w, res)
    ensures w.Valid() && w.Sound() && old(w.history) <= w.history
    ensures PushedPrefix(old(w.now), w.now, objects, res, m) && (m == 0 || m == |objects|)
    ensures w.now.watermark == Mark(old(w.now), objects, m)
    ensures w.round == old(w.round) + Seqs(objects[..m])
    ensures old(w.store).rows <= w.store.rows && Preserved(old(w.store).edges, w.store.edges)
    ensures res.Pushed? && objects != [] ==>
      && w.store.rows == Absorb(old(w.store).rows, objects)
      && Linked(old(w.store).edges, w.store.edges, edges, Created(old(w.store).rows, objects))
      && w.store.slugs == old(w.store).slugs + Named(entities, |entities|)
  {
    m := 0;
    assert objects[..0] == [] && objects[..|objects|] == objects;
    w.Others();
    if objects == [] {
      return Pushed, m;
    }
    var reachable := w.OpenTarget();
    if !reachable {
      return Failed, m;
    }
    res := WriteBatch(w, objects, edges, entities);
    if !res.Pushed? {
      return;
    }
    ReadyLasts(old(w.now), w.now, objects);
    var ok;
    ghost var landed;
    ghost var g := w.now;
    ok, landed := w.Settle(objects);
    SettledPrefix(old(w.now), g, w.now, objects, ok, landed);
    res, m := if ok then Pushed else Failed, if landed then |objects| else 0;
  }
}
