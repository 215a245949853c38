/** How a batch becomes requests: objects in order, each request within the byte cap or holding one
    object, each edge in the request of the first object it touches. */
module PushRequests {
  import opened Wrappers

  /** An id, a hash, a slug: only equality and being empty matter. */
  datatype Name = Name(text: string)

  const EMPTY := Name("")

  /** One version of an object: its id, its ChangeSeq, the bytes it takes encoded, and what else a local
      target keys it by: content hash and profile, the source key, the ids of its graph nodes. */
  datatype Object = Object(id: Name, seqNo: int, size: nat, hash: Name, profile: Name, sourceKey: Name,
      nodes: seq<Name>)

  datatype Edge = Edge(key: Name, fromId: Name, toId: Name)

  datatype Entity = Entity(slug: Name)

  datatype Request = Request(objects: seq<Object>, edges: seq<Edge>, entities: seq<Entity>)

  function Size(objects: seq<Object>): nat {
    if objects == [] then 0 else Size(objects[..|objects| - 1]) + objects[|objects| - 1].size
  }

  /** What every request keeps to; without a positive cap, anything goes. */
  predicate Fits(cap: int, objects: seq<Object>) {
    cap <= 0 || |objects| <= 1 || Size(objects) <= cap
  }

  function Flatten(chunks: seq<seq<Object>>): seq<Object> {
    if chunks == [] then [] else chunks[0] + Flatten(chunks[1..])
  }

  /** The split as it is made: rest goes object by object into the open request cur, which is sent
      when the next one would take it over the cap. */
  function Chunks(cap: int, cur: seq<Object>, rest: seq<Object>): seq<seq<Object>>
    decreases |rest|
  {
    if rest == [] then [cur]
    else if cur != [] && cap > 0 && Size(cur) + rest[0].size > cap then [cur] + Chunks(cap, [rest[0]], rest[1..])
    else Chunks(cap, cur + [rest[0]], rest[1..])
  }

  // ---- The split is in order, within the cap, and as short as any ----

  lemma {:induction false} ChunksKeepOrder(cap: int, cur: seq<Object>, rest: seq<Object>)
    ensures Flatten(Chunks(cap, cur, rest)) == cur + rest
    ensures Chunks(cap, cur, rest) != []
    decreases |rest|
  {
    if rest == [] {
      assert Flatten([cur]) == cur + Flatten([]);
    } else {
      assert rest == [rest[0]] + rest[1..];
      if cur != [] && cap > 0 && Size(cur) + rest[0].size > cap {
        ChunksKeepOrder(cap, [rest[0]], rest[1..]);
        assert Chunks(cap, cur, rest)[1..] == Chunks(cap, [rest[0]], rest[1..]);
      } else {
        ChunksKeepOrder(cap, cur + [rest[0]], rest[1..]);
        assert cur + [rest[0]] + rest[1..] == cur + rest;
      }
    }
  }

  lemma {:induction false} ChunksFit(cap: int, cur: seq<Object>, rest: seq<Object>)
    requires Fits(cap, cur)
    ensures forall c :: c in Chunks(cap, cur, rest) ==> Fits(cap, c)
    ensures cur + rest != [] ==> forall c :: c in Chunks(cap, cur, rest) ==> c != []
    decreases |rest|
  {
    if rest != [] {
      if cur != [] && cap > 0 && Size(cur) + rest[0].size > cap {
        ChunksFit(cap, [rest[0]], rest[1..]);
      } else {
        assert (cur + [rest[0]])[..|cur|] == cur;
        assert Size(cur + [rest[0]]) == Size(cur) + rest[0].size;
        ChunksFit(cap, cur + [rest[0]], rest[1..]);
      }
    }
  }

  /** How many of rest the open request takes before it is sent. */
  function Take(cap: int, cur: seq<Object>, rest: seq<Object>): (n: nat)
    ensures n <= |rest| && (cur == [] && rest != [] ==> n > 0)
    decreases |rest|
  {
    if rest == [] || (cur != [] && cap > 0 && Size(cur) + rest[0].size > cap) then 0
    else 1 + Take(cap, cur + [rest[0]], rest[1..])
  }

  lemma {:induction false} ChunksUnfold(cap: int, cur: seq<Object>, rest: seq<Object>)
    ensures var n := Take(cap, cur, rest);
            Chunks(cap, cur, rest) == [cur + rest[..n]] + (if n == |rest| then [] else Chunks(cap, [], rest[n..]))
    decreases |rest|
  {
    var n := Take(cap, cur, rest);
    if rest == [] {
      assert cur + rest[..n] == cur;
    } else if n == 0 {
      assert rest[n..] == rest && cur + rest[..n] == cur;
      assert [] + [rest[0]] == [rest[0]];
    } else {
      ChunksUnfold(cap, cur + [rest[0]], rest[1..]);
      assert cur + [rest[0]] + rest[1..][..n - 1] == cur + rest[..n];
      assert rest[1..][n - 1..] == rest[n..];
    }
  }

  lemma {:induction false} SizeOfPrefix(objects: seq<Object>, n: nat)
    requires n <= |objects|
    ensures Size(objects[..n]) <= Size(objects)
  {
    if n < |objects| {
      var front := objects[..|objects| - 1];
      SizeOfPrefix(front, n);
      assert front[..n] == objects[..n];
    } else {
      assert objects[..n] == objects;
    }
  }

  lemma {:induction false} SizeOfConcat(a: seq<Object>, b: seq<Object>)
    ensures Size(a + b) == Size(a) + Size(b)
  {
    if b == [] {
      assert a + b == a;
    } else {
      SizeOfConcat(a, b[..|b| - 1]);
      assert (a + b)[..|a + b| - 1] == a + b[..|b| - 1];
    }
  }

  /** The open request takes as many objects as any request that starts with the same ones could. */
  lemma {:induction false} TakeIsMaximal(cap: int, cur: seq<Object>, rest: seq<Object>, n: nat)
    requires n <= |rest| && Fits(cap, cur + rest[..n])
    ensures n <= Take(cap, cur, rest)
    decreases |rest|
  {
    if n > 0 {
      var next, more := cur + [rest[0]], rest[1..][..n - 1];
      assert cur + rest[..n] == next + more;
      SizeOfConcat(next, more);
      assert next[..|cur|] == cur && Size(next) == Size(cur) + rest[0].size;
      TakeIsMaximal(cap, next, rest[1..], n - 1);
    }
  }

  lemma FitsWithin(cap: int, a: seq<Object>, b: seq<Object>)
    requires Fits(cap, a + b)
    ensures Fits(cap, b)
  {
    SizeOfConcat(a, b);
  }

  /** Greedy stays ahead: splitting what any other split has not sent yet takes no more requests than
      that split has left. */
  lemma {:induction false} GreedyStaysAhead(cap: int, rest: seq<Object>, split: seq<seq<Object>>, ahead: seq<Object>)
    requires split != [] && Flatten(split) == ahead + rest
    requires forall c :: c in split ==> Fits(cap, c)
    ensures |Chunks(cap, [], rest)| <= |split|
    decreases |split|
  {
    var first, more := split[0], split[1..];
    assert first in split && forall c :: c in more ==> c in split;
    if rest == [] {
    } else if |first| <= |ahead| {
      assert Flatten(more) == ahead[|first|..] + rest by {
        assert first + Flatten(more) == ahead + rest;
        assert (first + Flatten(more))[|first|..] == Flatten(more);
        assert (ahead + rest)[|first|..] == ahead[|first|..] + rest;
      }
      GreedyStaysAhead(cap, rest, more, ahead[|first|..]);
    } else {
      var k := |first| - |ahead|;
      SplitCut(rest, first, more, ahead);
      FitsWithin(cap, ahead, rest[..k]);
      assert [] + rest[..k] == rest[..k];
      TakeIsMaximal(cap, [], rest, k);
      var n := Take(cap, [], rest);
      ChunksUnfold(cap, [], rest);
      if n < |rest| {
        assert rest[k..] == rest[k..n] + rest[n..];
        GreedyStaysAhead(cap, rest[n..], more, rest[k..n]);
      }
    }
  }

  lemma SplitCut(rest: seq<Object>, first: seq<Object>, more: seq<seq<Object>>, ahead: seq<Object>)
    requires first + Flatten(more) == ahead + rest && |first| > |ahead|
    ensures var k := |first| - |ahead|; k <= |rest| && first == ahead + rest[..k] && Flatten(more) == rest[k..]
  {
    var k := |first| - |ahead|;
    var whole := ahead + rest;
    assert |whole| == |first| + |Flatten(more)|;
    assert first == whole[..|first|] && Flatten(more) == whole[|first|..];
    assert whole[..|first|] == ahead + rest[..k] && whole[|first|..] == rest[k..];
  }

  /** No order-preserving split that keeps every request within the cap, or to one object, uses fewer
      requests; and this one keeps to that. */
  lemma SplitIsOptimal(cap: int, objects: seq<Object>, split: seq<seq<Object>>)
    requires split != [] && Flatten(split) == objects
    requires forall c :: c in split ==> Fits(cap, c)
    ensures |Chunks(cap, [], objects)| <= |split|
    ensures Flatten(Chunks(cap, [], objects)) == objects
    ensures forall c :: c in Chunks(cap, [], objects) ==> Fits(cap, c)
  {
    assert [] + objects == objects;
    GreedyStaysAhead(cap, objects, split, []);
    ChunksKeepOrder(cap, [], objects);
    ChunksFit(cap, [], objects);
  }

  // ---- Edges ----

  predicate Touches(o: Object, e: Edge) {
    o.id == e.fromId || o.id == e.toId
  }

  /** The index of the first object the edge touches. */
  function FirstTouch(objects: seq<Object>, e: Edge): (r: Option<nat>)
    ensures r.Some? ==> r.value < |objects| && Touches(objects[r.value], e)
    ensures r.Some? ==> forall k :: 0 <= k < r.value ==> !Touches(objects[k], e)
    ensures r.None? ==> forall k :: 0 <= k < |objects| ==> !Touches(objects[k], e)
  {
    if objects == [] then None
    else match FirstTouch(objects[..|objects| - 1], e)
      case Some(i) => Some(i)
      case None => if Touches(objects[|objects| - 1], e) then Some(|objects| - 1) else None
  }

  /** The edges whose first touched object is at i; at None, those touching no object. */
  function EdgesAt(objects: seq<Object>, edges: seq<Edge>, i: Option<nat>): seq<Edge> {
    if edges == [] then []
    else
      var before := EdgesAt(objects, edges[..|edges| - 1], i);
      if FirstTouch(objects, edges[|edges| - 1]) == i then before + [edges[|edges| - 1]] else before
  }

  lemma NextEdge(objects: seq<Object>, edges: seq<Edge>, j: nat, i: Option<nat>)
    requires j < |edges|
    ensures EdgesAt(objects, edges[..j + 1], i)
            == EdgesAt(objects, edges[..j], i) + if FirstTouch(objects, edges[j]) == i then [edges[j]] else []
  {
    assert edges[..j + 1][..j] == edges[..j];
  }

  /** first holds the index at which each id first occurs from i on. */
  ghost predicate FirstIndex(objects: seq<Object>, i: nat, first: map<Name, nat>) {
    && (forall id :: id in first ==> i <= first[id] < |objects| && objects[first[id]].id == id)
    && (forall id, k :: id in first && i <= k < first[id] ==> objects[k].id != id)
    && (forall k :: i <= k < |objects| ==> objects[k].id in first)
  }

  lemma EarlierIndex(objects: seq<Object>, i: nat, first: map<Name, nat>)
    requires i < |objects| && FirstIndex(objects, i + 1, first)
    ensures FirstIndex(objects, i, first[objects[i].id := i])
  {
  }

  /** The groups of edges, by object, and the edges touching none. */
  ghost predicate Grouped(objects: seq<Object>, edges: seq<Edge>, byObject: map<nat, seq<Edge>>, loose: seq<Edge>) {
    && loose == EdgesAt(objects, edges, None)
    && (forall i :: i in byObject ==> byObject[i] == EdgesAt(objects, edges, Some(i)))
    && (forall i: nat :: i !in byObject ==> EdgesAt(objects, edges, Some(i)) == [])
  }

  lemma NextGrouped(objects: seq<Object>, edges: seq<Edge>, j: nat, byObject: map<nat, seq<Edge>>, loose: seq<Edge>)
    requires j < |edges| && Grouped(objects, edges[..j], byObject, loose)
    ensures var at := FirstTouch(objects, edges[j]);
            if at.None? then Grouped(objects, edges[..j + 1], byObject, loose + [edges[j]])
            else Grouped(objects, edges[..j + 1],
                         byObject[at.value := (if at.value in byObject then byObject[at.value] else []) + [edges[j]]],
                         loose)
  {
    forall k: Option<nat> {
      NextEdge(objects, edges, j, k);
    }
  }

  /** Groups edges by the first object each one touches; loose are the edges touching none. */
  method AssignEdges(objects: seq<Object>, edges: seq<Edge>) returns (byObject: map<nat, seq<Edge>>, loose: seq<Edge>)
    ensures Grouped(objects, edges, byObject, loose)
  {
    var first: map<Name, nat> := map[];
    var i := |objects|;
    while i > 0
      invariant 0 <= i <= |objects| && FirstIndex(objects, i, first)
    {
      i := i - 1;
      EarlierIndex(objects, i, first);
      first := first[objects[i].id := i];
    }
    byObject, loose := map[], [];
    for j := 0 to |edges|
      invariant Grouped(objects, edges[..j], byObject, loose)
    {
      var at := FirstOf(objects, first, edges[j]);
      NextGrouped(objects, edges, j, byObject, loose);
      if at.None? {
        loose := loose + [edges[j]];
      } else {
        byObject := byObject[at.value := (if at.value in byObject then byObject[at.value] else []) + [edges[j]]];
      }
    }
    assert edges[..|edges|] == edges;
  }

  method FirstOf(objects: seq<Object>, first: map<Name, nat>, e: Edge) returns (at: Option<nat>)
    requires FirstIndex(objects, 0, first)
    ensures at == FirstTouch(objects, e)
  {
    at := if e.fromId in first then Some(first[e.fromId]) else None;
    if e.toId in first && (at.None? || first[e.toId] < at.value) {
      at := Some(first[e.toId]);
    }
  }

  /** The edges whose first touched object is one of the n from lo on, object by object. */
  function EdgesFrom(objects: seq<Object>, edges: seq<Edge>, lo: nat, n: nat): seq<Edge> {
    if n == 0 then [] else EdgesFrom(objects, edges, lo, n - 1) + EdgesAt(objects, edges, Some(lo + n - 1))
  }

  // ---- The requests of a whole push ----

  /** How many objects go out before request k. */
  function Start(chunks: seq<seq<Object>>, k: nat): nat
    requires k <= |chunks|
  {
    if k == 0 then 0 else Start(chunks, k - 1) + |chunks[k - 1]|
  }

  /** Request k: its objects, the edges they are the first touched by, and in the first request all the
      entities and the edges touching no object. */
  function RequestAt(chunks: seq<seq<Object>>, k: nat, objects: seq<Object>, edges: seq<Edge>,
      entities: seq<Entity>): Request
    requires k < |chunks|
  {
    var own := EdgesFrom(objects, edges, Start(chunks, k), |chunks[k]|);
    if k == 0 then Request(chunks[k], EdgesAt(objects, edges, None) + own, entities)
    else Request(chunks[k], own, [])
  }

  function RequestsOf(chunks: seq<seq<Object>>, objects: seq<Object>, edges: seq<Edge>,
      entities: seq<Entity>): seq<Request>
  {
    seq(|chunks|, k requires 0 <= k < |chunks| => RequestAt(chunks, k, objects, edges, entities))
  }

  function Requests(cap: int, objects: seq<Object>, edges: seq<Edge>, entities: seq<Entity>): seq<Request> {
    RequestsOf(Chunks(cap, [], objects), objects, edges, entities)
  }

  function AllObjects(requests: seq<Request>): seq<Object> {
    if requests == [] then [] else AllObjects(requests[..|requests| - 1]) + requests[|requests| - 1].objects
  }

  function AllEdges(requests: seq<Request>): seq<Edge> {
    if requests == [] then [] else AllEdges(requests[..|requests| - 1]) + requests[|requests| - 1].edges
  }

  lemma {:induction false} StartsAt(chunks: seq<seq<Object>>, k: nat)
    requires k <= |chunks|
    ensures Start(chunks, k) == |Flatten(chunks[..k])| && Flatten(chunks) == Flatten(chunks[..k]) + Flatten(chunks[k..])
    ensures k < |chunks| ==> Flatten(chunks[..k + 1]) == Flatten(chunks[..k]) + chunks[k]
    decreases |chunks| + k
  {
    if k > 0 {
      StartsAt(chunks, k - 1);
      FlattenOfConcat(chunks[..k - 1], [chunks[k - 1]]);
      assert Flatten([chunks[k - 1]]) == chunks[k - 1] + Flatten([]);
      assert chunks[..k - 1] + [chunks[k - 1]] == chunks[..k];
    }
    FlattenOfConcat(chunks[..k], chunks[k..]);
    assert chunks[..k] + chunks[k..] == chunks;
    if k < |chunks| {
      FlattenOfConcat(chunks[..k], [chunks[k]]);
      assert Flatten([chunks[k]]) == chunks[k] + Flatten([]);
      assert chunks[..k] + [chunks[k]] == chunks[..k + 1];
    }
  }

  lemma Regrouped<T>(a: seq<T>, b: seq<T>, c: seq<T>)
    ensures a + (b + c) == (a + b) + c
  {
  }

  lemma {:induction false} FlattenOfConcat(a: seq<seq<Object>>, b: seq<seq<Object>>)
    ensures Flatten(a + b) == Flatten(a) + Flatten(b)
  {
    if a == [] {
      assert a + b == b;
    } else {
      FlattenOfConcat(a[1..], b);
      assert (a + b)[1..] == a[1..] + b;
      Regrouped(a[0], Flatten(a[1..]), Flatten(b));
    }
  }

  lemma {:induction false} EdgesFromSplits(objects: seq<Object>, edges: seq<Edge>, lo: nat, n: nat, m: nat)
    ensures EdgesFrom(objects, edges, lo, n + m)
        == EdgesFrom(objects, edges, lo, n) + EdgesFrom(objects, edges, lo + n, m)
  {
    if m > 0 {
      EdgesFromSplits(objects, edges, lo, n, m - 1);
    }
  }

  lemma NextRequest(requests: seq<Request>, k: nat)
    requires k < |requests|
    ensures AllObjects(requests[..k + 1]) == AllObjects(requests[..k]) + requests[k].objects
    ensures AllEdges(requests[..k + 1]) == AllEdges(requests[..k]) + requests[k].edges
  {
    assert requests[..k + 1][..k] == requests[..k];
  }

  /** The edges that have gone out before request k. */
  function EdgesBefore(chunks: seq<seq<Object>>, k: nat, objects: seq<Object>, edges: seq<Edge>): seq<Edge>
    requires k <= |chunks|
  {
    if k == 0 then [] else EdgesAt(objects, edges, None) + EdgesFrom(objects, edges, 0, Start(chunks, k))
  }

  lemma EdgesNext(chunks: seq<seq<Object>>, k: nat, objects: seq<Object>, edges: seq<Edge>, entities: seq<Entity>)
    requires k < |chunks|
    ensures EdgesBefore(chunks, k + 1, objects, edges)
            == EdgesBefore(chunks, k, objects, edges) + RequestAt(chunks, k, objects, edges, entities).edges
  {
    var n, m := Start(chunks, k), |chunks[k]|;
    assert Start(chunks, k + 1) == n + m;
    EdgesFromSplits(objects, edges, 0, n, m);
    assert EdgesFrom(objects, edges, 0, 0) == [];
    Regrouped(EdgesAt(objects, edges, None), EdgesFrom(objects, edges, 0, n), EdgesFrom(objects, edges, n, m));
  }

  lemma {:induction false} RequestsInOrder(chunks: seq<seq<Object>>, objects: seq<Object>, edges: seq<Edge>,
      entities: seq<Entity>, k: nat)
    requires k <= |chunks|
    ensures AllObjects(RequestsOf(chunks, objects, edges, entities)[..k]) == Flatten(chunks[..k])
    ensures AllEdges(RequestsOf(chunks, objects, edges, entities)[..k]) == EdgesBefore(chunks, k, objects, edges)
  {
    if k > 0 {
      RequestsInOrder(chunks, objects, edges, entities, k - 1);
      NextRequest(RequestsOf(chunks, objects, edges, entities), k - 1);
      StartsAt(chunks, k - 1);
      EdgesNext(chunks, k - 1, objects, edges, entities);
    }
  }

  lemma OneMoreAt(objects: seq<Object>, edges: seq<Edge>, e: Edge, i: Option<nat>)
    ensures EdgesAt(objects, edges + [e], i)
        == EdgesAt(objects, edges, i) + if FirstTouch(objects, e) == i then [e] else []
  {
    assert (edges + [e])[..|edges|] == edges;
  }

  lemma {:induction false} OneMoreElsewhere(objects: seq<Object>, edges: seq<Edge>, e: Edge, n: nat)
    requires var at := FirstTouch(objects, e); at.None? || n <= at.value
    ensures EdgesFrom(objects, edges + [e], 0, n) == EdgesFrom(objects, edges, 0, n)
  {
    if n > 0 {
      OneMoreElsewhere(objects, edges, e, n - 1);
      OneMoreAt(objects, edges, e, Some(n - 1));
    }
  }

  function Inserted(edges: seq<Edge>, i: nat, e: Edge): seq<Edge>
    requires i <= |edges|
  {
    edges[..i] + [e] + edges[i..]
  }

  lemma InsertedBefore(a: seq<Edge>, b: seq<Edge>, i: nat, e: Edge)
    requires i <= |a|
    ensures Inserted(a + b, i, e) == Inserted(a, i, e) + b
  {
  }

  lemma InsertedAfter(a: seq<Edge>, b: seq<Edge>, e: Edge)
    ensures Inserted(a + b, |a + b|, e) == a + (b + [e])
  {
  }

  /** A new edge comes last in its object's group. */
  lemma {:induction false} OneMoreEdge(objects: seq<Object>, edges: seq<Edge>, e: Edge, n: nat) returns (i: nat)
    requires var at := FirstTouch(objects, e); at.Some? && at.value < n
    ensures var without := EdgesFrom(objects, edges, 0, n);
            i <= |without| && EdgesFrom(objects, edges + [e], 0, n) == Inserted(without, i, e)
  {
    var a, b := EdgesFrom(objects, edges, 0, n - 1), EdgesAt(objects, edges, Some(n - 1));
    OneMoreAt(objects, edges, e, Some(n - 1));
    if FirstTouch(objects, e).value < n - 1 {
      i := OneMoreEdge(objects, edges, e, n - 1);
      InsertedBefore(a, b, i, e);
    } else {
      OneMoreElsewhere(objects, edges, e, n - 1);
      i := |a + b|;
      InsertedAfter(a, b, e);
    }
  }

  lemma OneMoreIn(without: seq<Edge>, i: nat, e: Edge)
    requires i <= |without|
    ensures multiset(Inserted(without, i, e)) == multiset(without) + multiset{e}
  {
    assert without[..i] + without[i..] == without;
  }

  lemma OneMoreLoose(objects: seq<Object>, edges: seq<Edge>, e: Edge)
    requires FirstTouch(objects, e).None?
    ensures multiset(EdgesAt(objects, edges + [e], None)) == multiset(EdgesAt(objects, edges, None)) + multiset{e}
    ensures EdgesFrom(objects, edges + [e], 0, |objects|) == EdgesFrom(objects, edges, 0, |objects|)
  {
    OneMoreAt(objects, edges, e, None);
    OneMoreElsewhere(objects, edges, e, |objects|);
  }

  lemma OneMoreTouching(objects: seq<Object>, edges: seq<Edge>, e: Edge)
    requires FirstTouch(objects, e).Some?
    ensures EdgesAt(objects, edges + [e], None) == EdgesAt(objects, edges, None)
    ensures multiset(EdgesFrom(objects, edges + [e], 0, |objects|))
        == multiset(EdgesFrom(objects, edges, 0, |objects|)) + multiset{e}
  {
    OneMoreAt(objects, edges, e, None);
    var i := OneMoreEdge(objects, edges, e, |objects|);
    OneMoreIn(EdgesFrom(objects, edges, 0, |objects|), i, e);
  }

  lemma {:induction false} GroupsHoldEveryEdgeOnce(objects: seq<Object>, edges: seq<Edge>)
    ensures multiset(EdgesAt(objects, edges, None)) + multiset(EdgesFrom(objects, edges, 0, |objects|))
        == multiset(edges)
  {
    if edges == [] {
      NoEdges(objects, |objects|);
    } else {
      var front, e := edges[..|edges| - 1], edges[|edges| - 1];
      GroupsHoldEveryEdgeOnce(objects, front);
      assert front + [e] == edges;
      if FirstTouch(objects, e).None? {
        OneMoreLoose(objects, front, e);
      } else {
        OneMoreTouching(objects, front, e);
      }
      assert multiset(front + [e]) == multiset(front) + multiset{e};
    }
  }

  lemma {:induction false} NoEdges(objects: seq<Object>, n: nat)
    ensures EdgesFrom(objects, [], 0, n) == []
  {
    if n > 0 {
      NoEdges(objects, n - 1);
    }
  }

  /** The requests of a push carry its objects exactly once, in order, and its edges exactly once. */
  lemma EverythingIsSentOnce(cap: int, objects: seq<Object>, edges: seq<Edge>, entities: seq<Entity>)
    ensures var requests := Requests(cap, objects, edges, entities);
            AllObjects(requests) == objects && multiset(AllEdges(requests)) == multiset(edges)
  {
    var requests, chunks := Requests(cap, objects, edges, entities), Chunks(cap, [], objects);
    var k := |chunks|;
    RequestsInOrder(chunks, objects, edges, entities, k);
    assert requests[..k] == requests && chunks[..k] == chunks;
    ChunksKeepOrder(cap, [], objects);
    assert [] + objects == objects;
    StartsAt(chunks, k);
    GroupsHoldEveryEdgeOnce(objects, edges);
  }

  lemma {:induction false} GroupedEdge(objects: seq<Object>, edges: seq<Edge>, i: Option<nat>, e: Edge)
    requires e in EdgesAt(objects, edges, i)
    ensures e in edges && FirstTouch(objects, e) == i
  {
    if e != edges[|edges| - 1] || FirstTouch(objects, edges[|edges| - 1]) != i {
      GroupedEdge(objects, edges[..|edges| - 1], i, e);
    }
  }

  lemma {:induction false} GroupedFrom(objects: seq<Object>, edges: seq<Edge>, lo: nat, n: nat, e: Edge)
    requires e in EdgesFrom(objects, edges, lo, n)
    ensures e in edges && FirstTouch(objects, e).Some? && lo <= FirstTouch(objects, e).value < lo + n
  {
    if e in EdgesAt(objects, edges, Some(lo + n - 1)) {
      GroupedEdge(objects, edges, Some(lo + n - 1), e);
    } else {
      GroupedFrom(objects, edges, lo, n - 1, e);
    }
  }

  lemma ChunkIsSlice(chunks: seq<seq<Object>>, k: nat)
    requires k < |chunks|
    ensures var objects := Flatten(chunks);
            Start(chunks, k) + |chunks[k]| <= |objects| && objects[Start(chunks, k)..][..|chunks[k]|] == chunks[k]
  {
    StartsAt(chunks, k);
    StartsAt(chunks, k + 1);
  }

  /** Request k is the one that carries the first object e touches; with none to touch, the first. The
      first request alone carries the entities. */
  ghost predicate RidesRight(requests: seq<Request>, objects: seq<Object>, entities: seq<Entity>, k: nat, e: Edge)
    requires k < |requests|
  {
    && requests[k].entities == (if k == 0 then entities else [])
    && match FirstTouch(objects, e)
       case None => k == 0
       case Some(i) =>
         var before := |AllObjects(requests[..k])|;
         before <= i < before + |requests[k].objects| && requests[k].objects[i - before] == objects[i]
  }

  lemma RideInChunks(chunks: seq<seq<Object>>, k: nat, edges: seq<Edge>, entities: seq<Entity>, e: Edge)
    requires k < |chunks| && e in RequestsOf(chunks, Flatten(chunks), edges, entities)[k].edges
    ensures RidesRight(RequestsOf(chunks, Flatten(chunks), edges, entities), Flatten(chunks), entities, k, e)
  {
    var objects := Flatten(chunks);
    RequestsInOrder(chunks, objects, edges, entities, k);
    StartsAt(chunks, k);
    EdgeOfRequest(chunks, k, objects, edges, entities, e);
    ChunkIsSlice(chunks, k);
  }

  /** An edge rides with the first object it touches, one touching none in the first request, which
      alone carries the entities: no edge goes out before an entity it mentions. */
  lemma EdgesRideWithFirstTouched(cap: int, objects: seq<Object>, edges: seq<Edge>, entities: seq<Entity>, k: nat,
      e: Edge)
    requires k < |Requests(cap, objects, edges, entities)| && e in Requests(cap, objects, edges, entities)[k].edges
    ensures RidesRight(Requests(cap, objects, edges, entities), objects, entities, k, e)
  {
    ChunksKeepOrder(cap, [], objects);
    assert [] + objects == objects;
    RideInChunks(Chunks(cap, [], objects), k, edges, entities, e);
  }

  lemma EdgeOfRequest(chunks: seq<seq<Object>>, k: nat, objects: seq<Object>, edges: seq<Edge>, entities: seq<Entity>,
      e: Edge)
    requires k < |chunks| && e in RequestAt(chunks, k, objects, edges, entities).edges
    ensures match FirstTouch(objects, e)
            case None => k == 0
            case Some(i) => Start(chunks, k) <= i < Start(chunks, k) + |chunks[k]|
  {
    if e in EdgesFrom(objects, edges, Start(chunks, k), |chunks[k]|) {
      GroupedFrom(objects, edges, Start(chunks, k), |chunks[k]|, e);
    } else {
      GroupedEdge(objects, edges, None, e);
    }
  }
}
