/** What a sync runs against: a source others keep writing to, a target acknowledging requests and the
    watermark kept for it. Every state ever reached is recorded, so a claim about the record is a claim
    about a run cut off anywhere. */
module SyncWorld {
  import opened LocalTarget
  import opened Paging
  import opened PushRequests
  import opened Wrappers

  /** objects holds the source's current versions by ChangeSeq, clock the last ChangeSeq committed. acked
      holds the versions a push has reported acknowledged, skipped those given up on; keeps is whether a
      watermark is kept at all. */
  datatype Fed = Fed(objects: map<int, Object>, clock: int, watermark: int, keeps: bool, acked: set<int>,
      skipped: set<int>)

  predicate WellFormed(f: Fed) {
    && 0 <= f.watermark <= f.clock
    && (f.keeps || f.watermark == 0)
    && (forall k :: k in f.objects ==> 0 < k <= f.clock && f.objects[k].seqNo == k)
    && (forall k, m {:trigger f.objects[k].id, f.objects[m].id} ::
        k in f.objects && m in f.objects && f.objects[k].id == f.objects[m].id ==> k == m)
  }

  /** No current version up to n is passed over. */
  ghost predicate CoveredUpTo(f: Fed, n: int) {
    forall k :: k in f.objects && k <= n ==> k in f.acked || k in f.skipped
  }

  ghost predicate Good(f: Fed) {
    WellFormed(f) && CoveredUpTo(f, f.watermark)
  }

  /** g follows f: versions committed by f are the same or gone, none appears behind its clock, and what
      was acknowledged or skipped stays so. */
  predicate Later(f: Fed, g: Fed) {
    && f.clock <= g.clock && f.keeps == g.keeps
    && (forall k :: k in g.objects && k <= f.clock ==> k in f.objects && g.objects[k] == f.objects[k])
    && f.acked <= g.acked && f.skipped <= g.skipped
  }

  /** g follows f with exactly these versions newly acknowledged. */
  predicate Moved(f: Fed, g: Fed, acks: set<int>) {
    Later(f, g) && g.acked == f.acked + acks && g.skipped == f.skipped
  }

  /** g follows f with nothing newly acknowledged or skipped. */
  predicate Stood(f: Fed, g: Fed) {
    Later(f, g) && g.acked == f.acked && g.skipped == f.skipped
  }

  /** What the source's other writers do: any inserts, edits and deletes, each write under a ChangeSeq
      larger than all before. */
  predicate Written(f: Fed, g: Fed) {
    WellFormed(g) && Stood(f, g) && g.watermark == f.watermark
  }

  lemma LaterCompose(f: Fed, g: Fed, h: Fed)
    requires Later(f, g) && Later(g, h)
    ensures Later(f, h)
  {
  }

  lemma CoverageLasts(f: Fed, g: Fed, n: int)
    requires CoveredUpTo(f, n) && n <= f.clock && Later(f, g)
    ensures CoveredUpTo(g, n)
  {
  }

  // ---- Batches ----

  function Seqs(objects: seq<Object>): set<int> {
    set i | 0 <= i < |objects| :: objects[i].seqNo
  }

  ghost predicate InOrder(objects: seq<Object>) {
    forall i, j :: 0 <= i < j < |objects| ==> objects[i].seqNo < objects[j].seqNo
  }

  /** The ChangeSeq a batch in order ends with. */
  function End(objects: seq<Object>): int {
    if objects == [] then 0 else objects[|objects| - 1].seqNo
  }

  /** Pushing objects leaves nothing behind that is not acknowledged or skipped. */
  ghost predicate Ready(f: Fed, objects: seq<Object>) {
    && InOrder(objects)
    && (forall i :: 0 <= i < |objects| ==> 0 < objects[i].seqNo <= f.clock)
    && forall k :: k in f.objects && 0 < k <= End(objects) ==> k in f.acked || k in f.skipped || k in Seqs(objects)
  }

  lemma ReadyLasts(f: Fed, g: Fed, objects: seq<Object>)
    requires Ready(f, objects) && Later(f, g)
    ensures Ready(g, objects)
  {
  }

  /** Once the first m of a batch are acknowledged, everything up to the m-th is covered. */
  lemma PrefixCovers(f: Fed, objects: seq<Object>, m: nat)
    requires WellFormed(f) && Ready(f, objects) && 0 < m <= |objects| && Seqs(objects[..m]) <= f.acked
    ensures CoveredUpTo(f, objects[m - 1].seqNo)
  {
    forall k | k in f.objects && k <= objects[m - 1].seqNo && k !in f.skipped ensures k in f.acked {
      if k in Seqs(objects) {
        var i :| 0 <= i < |objects| && objects[i].seqNo == k;
        assert i < m;
        assert objects[..m][i].seqNo in Seqs(objects[..m]);
      }
    }
  }

  /** What a listing after pos answers: the next current versions in ChangeSeq order, at most limit. */
  ghost predicate Listed(f: Fed, pos: int, limit: nat, page: seq<Object>) {
    && InOrder(page) && |page| <= limit
    && (forall i :: 0 <= i < |page| ==>
        pos < page[i].seqNo && page[i].seqNo in f.objects && f.objects[page[i].seqNo] == page[i])
    && (forall k :: k in f.objects && pos < k && k !in Seqs(page) ==>
          |page| == limit && forall i :: 0 <= i < |page| ==> page[i].seqNo < k)
  }

  ghost predicate UniqueIds(objects: seq<Object>) {
    forall i, j {:trigger objects[i].id, objects[j].id} :: 0 <= i < j < |objects| ==> objects[i].id != objects[j].id
  }

  lemma ListedIsReady(f: Fed, pos: int, limit: nat, page: seq<Object>)
    requires WellFormed(f) && CoveredUpTo(f, pos) && Listed(f, pos, limit, page)
    ensures Ready(f, page) && UniqueIds(page)
  {
  }

  /** The objects a run of keys names. */
  function At(objects: map<int, Object>, keys: seq<int>): (r: seq<Object>)
    requires forall i :: 0 <= i < |keys| ==> keys[i] in objects
    ensures |r| == |keys| && forall i :: 0 <= i < |r| ==> r[i] == objects[keys[i]]
  {
    seq(|keys|, i requires 0 <= i < |keys| => objects[keys[i]])
  }

  lemma PageIsListed(f: Fed, pos: int, limit: nat)
    requires WellFormed(f)
    ensures var keys := Page(f.objects.Keys, pos, limit);
            (forall i :: 0 <= i < |keys| ==> keys[i] in f.objects) && Listed(f, pos, limit, At(f.objects, keys))
  {
    PageIsNextKeys(f.objects.Keys, pos, limit);
    var keys := Page(f.objects.Keys, pos, limit);
    var page := At(f.objects, keys);
    forall k | k in keys ensures k in Seqs(page) {
      var i :| 0 <= i < |keys| && keys[i] == k;
      assert page[i].seqNo == k;
    }
  }

  /** Every state on record is good, the present one last. */
  ghost predicate Recorded(history: seq<Fed>, now: Fed) {
    && history != [] && history[|history| - 1] == now
    && forall i :: 0 <= i < |history| ==> Good(history[i]) && history[i].keeps == now.keeps
  }

  /** How sending a request ends. */
  datatype Reply = Acknowledged | TooLarge | Refused

  /** One attempt's answer: an HTTP status, or none. */
  datatype Answer = Status(code: int) | NoAnswer

  const MAX_ATTEMPTS := 3

  /** Worth another attempt: anything but success and a 4xx other than 429. */
  predicate Transient(a: Answer) {
    a.Status? ==> a.code != 200 && (a.code < 400 || a.code >= 500 || a.code == 429)
  }

  function Outcome(answers: seq<Answer>): Reply {
    if answers == [] then Refused
    else match answers[|answers| - 1]
      case Status(200) => Acknowledged
      case Status(413) => TooLarge
      case _ => Refused
  }

  /** Attempts go on exactly while they are worth it: at most three, and fewer only for an answer that
      settles the matter, or because the context ended or no request could be made (cut). */
  ghost predicate Attempted(answers: seq<Answer>, cut: bool) {
    && |answers| <= MAX_ATTEMPTS
    && (forall i :: 0 <= i < |answers| - 1 ==> Transient(answers[i]))
    && (|answers| < MAX_ATTEMPTS ==> cut || (answers != [] && !Transient(answers[|answers| - 1])))
  }

  /** One attempt after another: a request is acknowledged exactly by an answer of 200 and too large exactly
      by a 413, in the last attempt. Three are made at most, and fewer only when one was answered with 200
      or with a client error that is not 429, or the context cut them short; no attempt before the last had
      such an answer. */
  lemma AttemptsEnd(answers: seq<Answer>, cut: bool)
    requires Attempted(answers, cut)
    ensures Outcome(answers) == Acknowledged <==> answers != [] && answers[|answers| - 1] == Status(200)
    ensures Outcome(answers) == TooLarge <==> answers != [] && answers[|answers| - 1] == Status(413)
    ensures |answers| <= 3 && (|answers| == 3 || cut || (answers != [] && Final(answers[|answers| - 1])))
    ensures forall i :: 0 <= i < |answers| - 1 ==> !Final(answers[i])
  {
  }

  /** Success, or the receiver's word that asking again is of no use. */
  predicate Final(a: Answer) {
    a.Status? && (a.code == 200 || (400 <= a.code <= 499 && a.code != 429))
  }

  /** What reading an object's content from the source's blobs came to. */
  datatype Content = Readable | BlobMissing | Unreadable

  /** A call a push cannot do without that failed: content that is gone, a request not acknowledged, or
      anything else. */
  datatype Fault = CallFailed | ContentMissing(id: Name) | NotTaken(reply: Reply, ids: seq<Name>)

  /** The fault it is not to get at the content of an object. */
  function Loss(content: Content, id: Name): Option<Fault> {
    match content
    case Readable => None
    case BlobMissing => Some(ContentMissing(id))
    case Unreadable => Some(CallFailed)
  }

  /** The fault is down to this object: its content is gone, or it is too large for the receiver even
      alone. */
  predicate Blames(f: Fault, id: Name) {
    f == ContentMissing(id) || f == NotTaken(TooLarge, [id])
  }

  predicate BlamesOne(f: Fault) {
    f.ContentMissing? || (f.NotTaken? && f.reply == TooLarge && |f.ids| == 1)
  }

  function Ids(objects: seq<Object>): seq<Name> {
    seq(|objects|, i requires 0 <= i < |objects| => objects[i].id)
  }

  class World {
    var now: Fed
    /** Every state so far; only a crash goes back in it. */
    var history: seq<Fed>
    /** The database of a local target. */
    var store: Store
    /** The requests acknowledged so far. */
    ghost var delivered: seq<Request>
    /** The versions acknowledged since the present sync began. */
    ghost var round: set<int>
    /** For each watermark write asked for, whether it took effect. */
    ghost var writes: seq<bool>
    /** How many faults there were, which came last, and how many of them were down to one object. */
    ghost var faults: nat
    ghost var lastFault: Fault
    ghost var blames: nat
    /** The edges the source last answered for each object, and the entities it last answered. */
    ghost var outgoing: map<Name, seq<Edge>>
    ghost var mentioned: seq<Entity>
    /** How often an object's content was looked for, and a local target opened. */
    ghost var looks: nat
    ghost var opens: nat
    /** How often a lookup at the target, its error dropped, missed what it might have found. */
    ghost var misses: nat
    /** How often the source was asked for a listing, and how often it answered with less than was asked
        for. */
    ghost var listings: nat
    ghost var shorts: nat
    /** The source's clock at the last listing. */
    ghost var listedAt: int

    ghost predicate Valid()
      reads this
    {
      Recorded(history, now)
    }

    /** The target's unique indexes hold. */
    ghost predicate Sound()
      reads `store
    {
      Distinct(store.rows)
    }

    /** A source with nothing acknowledged yet. */
    constructor (objects: map<int, Object>, clock: int, keeps: bool)
      requires WellFormed(Fed(objects, clock, 0, keeps, {}, {}))
      ensures Valid() && Sound() && now == Fed(objects, clock, 0, keeps, {}, {})
    {
      now := Fed(objects, clock, 0, keeps, {}, {});
      history := [Fed(objects, clock, 0, keeps, {}, {})];
      store := Store({}, map[], {});
      delivered, round, writes, listedAt := [], {}, [], 0;
      faults, lastFault, blames, listings := 0, CallFailed, 0, 0;
      outgoing, mentioned, looks, opens, misses, shorts := map[], [], 0, 0, 0, 0;
    }

    /** Since there were so many, this fault came, or none. */
    ghost predicate Met(before: nat, blamed: nat, fault: Option<Fault>)
      reads `faults, `lastFault, `blames
    {
      match fault
      case None => faults == before && blames == blamed
      case Some(f) => faults == before + 1 && lastFault == f && blames == blamed + (if BlamesOne(f) then 1 else 0)
    }

    ghost method Meet(fault: Option<Fault>)
      modifies `faults, `lastFault, `blames
      ensures Met(old(faults), old(blames), fault)
    {
      if fault.Some? {
        faults, lastFault := faults + 1, fault.value;
        blames := blames + if BlamesOne(fault.value) then 1 else 0;
      }
    }

    /** Any other call, to the source or the target. */
    method Call() returns (ok: bool)
      modifies `faults, `lastFault, `blames
      ensures Met(old(faults), old(blames), if ok then None else Some(CallFailed))
    {
      ok := *;
      Meet(if ok then None else Some(CallFailed));
    }

    /** The source's edges from an object. */
    method ListEdges(id: Name) returns (ok: bool, from: seq<Edge>)
      modifies `faults, `lastFault, `blames, `outgoing
      ensures Met(old(faults), old(blames), if ok then None else Some(CallFailed))
      ensures ok ==> outgoing == old(outgoing)[id := from]
    {
      ok := Call();
      from := *;
      outgoing := outgoing[id := from];
    }

    /** The entities the source has for the mentions among edges. */
    method CollectEntities(edges: seq<Edge>) returns (ok: bool, entities: seq<Entity>)
      modifies `faults, `lastFault, `blames, `mentioned
      ensures Met(old(faults), old(blames), if ok then None else Some(CallFailed))
      ensures ok ==> mentioned == entities
    {
      ok := Call();
      entities := *;
      mentioned := entities;
    }

    /** Reads an object's content where it is kept apart. */
    method Read(o: Object) returns (content: Content)
      modifies `faults, `lastFault, `blames, `looks
      ensures Met(old(faults), old(blames), Loss(content, o.id)) && looks == old(looks) + 1
    {
      content, looks := *, looks + 1;
      Meet(Loss(content, o.id));
    }

    /** Opens the database of a local target. */
    method OpenTarget() returns (ok: bool)
      modifies `faults, `lastFault, `blames, `opens
      ensures Met(old(faults), old(blames), if ok then None else Some(CallFailed)) && opens == old(opens) + 1
    {
      opens := opens + 1;
      ok := Call();
    }

    method Move(next: Fed)
      requires Valid() && Good(next) && next.keeps == now.keeps
      modifies `now, `history
      ensures Valid() && now == next && history == old(history) + [next]
    {
      now := next;
      history := history + [next];
    }

    /** Other writers get their turn. */
    method Others()
      requires Valid()
      modifies `now, `history
      ensures Valid() && old(history) <= history
      ensures Written(old(now), now)
    {
      var next: Fed := *;
      if Written(now, next) {
        CoverageLasts(now, next, now.watermark);
        Move(next);
      } else {
        Move(now);
      }
    }

    /** A new sync begins. */
    method Begin()
      requires Valid()
      modifies `now, `history, `round
      ensures Valid() && old(history) <= history
      ensures Written(old(now), now) && round == {}
    {
      Others();
      round := {};
    }

    method List(pos: int, limit: nat) returns (ok: bool, page: seq<Object>)
      requires Valid()
      modifies `now, `history, `listedAt, `listings, `shorts, `faults, `lastFault, `blames
      ensures Valid() && old(history) <= history
      ensures Written(old(now), now)
      ensures ok ==> Listed(now, pos, limit, page) && listedAt == now.clock
      ensures shorts == old(shorts) + if ok && |page| < limit then 1 else 0
      ensures listings == old(listings) + 1 && Met(old(faults), old(blames), if ok then None else Some(CallFailed))
    {
      Others();
      listings := listings + 1;
      ok := Call();
      page := [];
      if ok {
        PageIsListed(now, pos, limit);
        page := At(now.objects, Page(now.objects.Keys, pos, limit));
        listedAt := now.clock;
        shorts := shorts + if |page| < limit then 1 else 0;
      }
    }

    /** One request to the receiver, tried again after a transient failure. Whatever the receiver made of
        the attempts before, the sender only counts on an answer of 200. */
    method Send(request: Request) returns (reply: Reply, ghost answers: seq<Answer>, ghost cut: bool)
      requires Valid()
      modifies `now, `history, `delivered, `round, `faults, `lastFault, `blames
      ensures Valid() && old(history) <= history && WellFormed(now)
      ensures now.watermark == old(now).watermark
      ensures reply == Outcome(answers) && Attempted(answers, cut)
      ensures reply.Acknowledged? ==>
        && Moved(old(now), now, Seqs(request.objects)) && delivered == old(delivered) + [request]
        && round == old(round) + Seqs(request.objects)
      ensures !reply.Acknowledged? ==> Stood(old(now), now) && delivered == old(delivered) && round == old(round)
      ensures Met(old(faults), old(blames), if reply.Acknowledged? then None
          else Some(NotTaken(reply, Ids(request.objects))))
    {
      Others();
      reply, answers, cut := Refused, [], false;
      var attempt := 0;
      while attempt < MAX_ATTEMPTS
        invariant attempt == |answers| <= MAX_ATTEMPTS && reply == Outcome(answers) == Refused
        invariant forall i :: 0 <= i < |answers| ==> Transient(answers[i])
        invariant Valid() && old(history) <= history && WellFormed(now) && now.watermark == old(now).watermark
        invariant Stood(old(now), now) && delivered == old(delivered) && round == old(round)
        invariant faults == old(faults) && blames == old(blames)
      {
        var ended: bool, answer: Answer := *, *;
        if ended {
          cut := true;
          break;
        }
        ghost var f := now;
        Others();
        LaterCompose(old(now), f, now);
        answers := answers + [answer];
        if answer == Status(200) {
          reply := Acknowledged;
          round := round + Seqs(request.objects);
          Move(now.(acked := now.acked + Seqs(request.objects)));
          delivered := delivered + [request];
          return;
        }
        if !Transient(answer) {
          reply := if answer == Status(413) then TooLarge else Refused;
          break;
        }
        attempt := attempt + 1;
      }
      Meet(Some(NotTaken(reply, Ids(request.objects))));
    }

    /** The watermark moves only over versions already acknowledged or skipped. The write may fail, and it
        may land although an error is reported. */
    method SetWatermark(n: int) returns (ok: bool, ghost landed: bool)
      requires Valid() && now.keeps && 0 <= n <= now.clock && CoveredUpTo(now, n)
      modifies `now, `history, `writes, `faults, `lastFault, `blames
      ensures Valid() && old(history) <= history
      ensures Stood(old(now), now) && WellFormed(now) && writes == old(writes) + [landed]
      ensures (ok ==> landed) && now.watermark == if landed then n else old(now).watermark
      ensures Met(old(faults), old(blames), if ok then None else Some(CallFailed))
    {
      Others();
      CoverageLasts(old(now), now, n);
      var lands: bool, told: bool := *, *;
      ok, landed := lands && told, lands;
      Meet(if ok then None else Some(CallFailed));
      writes := writes + [landed];
      if lands {
        Move(now.(watermark := n));
      }
    }

    /** A local target acknowledges a whole batch by writing its watermark, in the target's own database;
        that write, too, may land although an error is reported. */
    method Settle(objects: seq<Object>) returns (ok: bool, ghost landed: bool)
      requires Valid() && now.keeps && objects != [] && Ready(now, objects)
      modifies `now, `history, `round, `writes, `faults, `lastFault, `blames
      ensures Valid() && old(history) <= history && WellFormed(now) && (ok ==> landed)
          && writes == old(writes) + [landed]
      ensures if landed then Moved(old(now), now, Seqs(objects)) else Stood(old(now), now)
      ensures now.watermark == if landed then objects[|objects| - 1].seqNo else old(now).watermark
      ensures round == old(round) + if landed then Seqs(objects) else {}
      ensures Met(old(faults), old(blames), if ok then None else Some(CallFailed))
    {
      Others();
      var lands: bool, told: bool := *, *;
      ok, landed := lands && told, lands;
      Meet(if ok then None else Some(CallFailed));
      writes := writes + [landed];
      if lands {
        ReadyLasts(old(now), now, objects);
        var next := now.(acked := now.acked + Seqs(objects), watermark := objects[|objects| - 1].seqNo);
        assert objects[..|objects|] == objects;
        assert Later(now, next);
        PrefixCovers(next, objects, |objects|);
        round := round + Seqs(objects);
        Move(next);
      }
    }

    /** A version is given up on. */
    method Skip(seqNo: int)
      requires Valid()
      modifies `now, `history
      ensures Valid() && old(history) <= history
      ensures now == old(now).(skipped := old(now).skipped + {seqNo})
    {
      Move(now.(skipped := now.skipped + {seqNo}));
    }

    /** The syncing process dies right after state i of the record. What the target's database held by then
        is not on record, nor which requests had been answered. */
    method CutAt(i: nat)
      requires Valid() && Sound() && i < |history|
      modifies `now, `history, `store, `delivered, `round, `writes, `listedAt
      ensures Valid() && Sound() && now == old(history)[i] && history == old(history)[..i + 1]
    {
      now, history := history[i], history[..i + 1];
      var held: Store := *;
      if Distinct(held.rows) {
        store := held;
      }
      delivered, round, writes, listedAt := *, *, *, *;
    }
  }
}
