/** Key rotation: the append-only rotation log and the chain walk that accepts an old fingerprint
    when the log leads from it to the current key. */
module RotationChain {
  import opened Wrappers

  type Fingerprint = string

  datatype Entry = Entry(oldKey: Fingerprint, newKey: Fingerprint)

  /** Where the log sends fp: the last entry for an old key wins. */
  function Successor(log: seq<Entry>, fp: Fingerprint): Option<Fingerprint> {
    if log == [] then None
    else if log[|log| - 1].oldKey == fp then Some(log[|log| - 1].newKey)
    else Successor(log[..|log| - 1], fp)
  }

  /** The fingerprint n rotations after fp, when the log has that many. */
  ghost function After(log: seq<Entry>, fp: Fingerprint, n: nat): Option<Fingerprint>
    decreases n
  {
    if n == 0 then Some(fp)
    else match Successor(log, fp)
      case None => None
      case Some(next) => After(log, next, n - 1)
  }

  /** An unbroken chain of zero or more rotations leads from fp to current. */
  ghost predicate Reaches(log: seq<Entry>, fp: Fingerprint, current: Fingerprint) {
    exists n: nat :: After(log, fp, n) == Some(current)
  }

  lemma ReachesHere(log: seq<Entry>, fp: Fingerprint)
    ensures Reaches(log, fp, fp)
  {
    assert After(log, fp, 0) == Some(fp);
  }

  lemma ReachesNext(log: seq<Entry>, fp: Fingerprint, next: Fingerprint, current: Fingerprint)
    requires Successor(log, fp) == Some(next)
    ensures Reaches(log, next, current) ==> Reaches(log, fp, current)
    ensures fp != current && Reaches(log, fp, current) ==> Reaches(log, next, current)
  {
    if Reaches(log, next, current) {
      var n: nat :| After(log, next, n) == Some(current);
      assert After(log, fp, n + 1) == Some(current);
    }
    if fp != current && Reaches(log, fp, current) {
      var n: nat :| After(log, fp, n) == Some(current);
      assert After(log, next, n - 1) == Some(current);
    }
  }

  /** A set that every successor stays in is never left. */
  lemma {:induction false} ClosedSetKeeps(log: seq<Entry>, s: set<Fingerprint>, fp: Fingerprint, n: nat)
    requires fp in s
    requires forall k :: k in s && Successor(log, k).Some? ==> Successor(log, k).value in s
    ensures After(log, fp, n).Some? ==> After(log, fp, n).value in s
    decreases n
  {
    if n != 0 && Successor(log, fp).Some? {
      ClosedSetKeeps(log, s, Successor(log, fp).value, n - 1);
    }
  }

  lemma ClosedSetShutsOut(log: seq<Entry>, s: set<Fingerprint>, fp: Fingerprint, current: Fingerprint)
    requires fp in s && current !in s
    requires forall k :: k in s && Successor(log, k).Some? ==> Successor(log, k).value in s
    ensures !Reaches(log, fp, current)
  {
    forall n: nat ensures After(log, fp, n) != Some(current) {
      ClosedSetKeeps(log, s, fp, n);
    }
  }

  lemma SuccessorIsLogged(log: seq<Entry>, fp: Fingerprint)
    ensures Successor(log, fp).Some? ==> exists e :: e in log && e.oldKey == fp && e.newKey == Successor(log, fp).value
  {
    if log != [] && log[|log| - 1].oldKey != fp {
      SuccessorIsLogged(log[..|log| - 1], fp);
    }
  }

  /** The keys directory: its log only grows, one entry a rotation. */
  class KeyDirectory {
    var entries: seq<Entry>

    constructor ()
      ensures entries == []
    {
      entries := [];
    }

    /** Saving the log and archiving the old private key can each fail; a rotation whose archive
        failed is reported as an error although its entry is in the log. Once saved, the old key leads
        to the fresh one and every other key where it led before. */
    method RotateKeys(oldKey: Fingerprint, freshKey: Fingerprint, saved: bool, archived: bool) returns (ok: bool)
      modifies this
      ensures ok <==> saved && archived
      ensures entries == if saved then old(entries) + [Entry(oldKey, freshKey)] else old(entries)
      ensures forall k ::
          Successor(entries, k) == if saved && k == oldKey then Some(freshKey) else Successor(old(entries), k)
    {
      if !saved {
        return false;
      }
      entries := entries + [Entry(oldKey, freshKey)];
      assert entries[..|entries| - 1] == old(entries);
      return archived;
    }

    /** Builds old -> new with later entries overwriting earlier ones, then walks it from fp until
        it meets current, a dead end or a fingerprint it has been at. */
    method FingerprintInChain(fp: Fingerprint, current: Fingerprint) returns (found: bool)
      ensures found <==> Reaches(entries, fp, current)
    {
      if fp == current {
        ReachesHere(entries, fp);
        return true;
      }
      var successor: map<Fingerprint, Fingerprint> := map[];
      for i := 0 to |entries|
        invariant forall k :: k in successor <==> Successor(entries[..i], k).Some?
        invariant forall k :: k in successor ==> Some(successor[k]) == Successor(entries[..i], k)
      {
        assert entries[..i + 1][..i] == entries[..i];
        successor := successor[entries[i].oldKey := entries[i].newKey];
      }
      assert entries[..|entries|] == entries;
      var cur := fp;
      var visited: set<Fingerprint> := {};
      ghost var nodes := {fp} + successor.Values;
      while cur !in visited
        invariant cur in nodes && visited <= nodes
        invariant current !in visited && cur != current
        invariant fp in visited || fp == cur
        invariant forall k :: k in visited && k in successor ==> successor[k] in visited || successor[k] == cur
        invariant Reaches(entries, cur, current) ==> Reaches(entries, fp, current)
        decreases nodes - visited
      {
        visited := visited + {cur};
        if cur !in successor {
          ClosedSetShutsOut(entries, visited, fp, current);
          return false;
        }
        var next := successor[cur];
        ReachesNext(entries, cur, next, current);
        if next == current {
          ReachesHere(entries, current);
          return true;
        }
        assert next in successor.Values;
        cur := next;
      }
      ClosedSetShutsOut(entries, visited, fp, current);
      return false;
    }
  }

  // ---- Runs of rotations ----

  /** One rotation from the active key: the key it minted, and whether the caller went on to store
      it (adopted) or lost it (abandoned, for example the keychain refused). */
  datatype Rotation = Rotation(minted: Fingerprint, adopted: bool)

  function ActiveAfter(first: Fingerprint, run: seq<Rotation>): Fingerprint {
    if run == [] then first
    else if run[|run| - 1].adopted then run[|run| - 1].minted
    else ActiveAfter(first, run[..|run| - 1])
  }

  function LogAfter(first: Fingerprint, run: seq<Rotation>): seq<Entry> {
    if run == [] then []
    else
      var before := run[..|run| - 1];
      LogAfter(first, before) + [Entry(ActiveAfter(first, before), run[|run| - 1].minted)]
  }

  /** Every key that was active at some time of the run. */
  ghost function EverActive(first: Fingerprint, run: seq<Rotation>): set<Fingerprint> {
    if run == [] then {first}
    else EverActive(first, run[..|run| - 1]) + {ActiveAfter(first, run)}
  }

  /** Key generation never repeats a fingerprint. */
  ghost predicate AllFresh(first: Fingerprint, run: seq<Rotation>) {
    && (forall i :: 0 <= i < |run| ==> run[i].minted != first)
    && (forall i, j :: 0 <= i < j < |run| ==> run[i].minted != run[j].minted)
  }

  ghost function Seen(first: Fingerprint, run: seq<Rotation>): set<Fingerprint> {
    {first} + set r | r in run :: r.minted
  }

  lemma {:induction false} EverActiveAreSeen(first: Fingerprint, run: seq<Rotation>)
    ensures EverActive(first, run) <= Seen(first, run)
    ensures ActiveAfter(first, run) in EverActive(first, run)
    ensures forall e :: e in LogAfter(first, run) ==> e.oldKey in EverActive(first, run) && e.newKey in Seen(first, run)
  {
    if run != [] {
      EverActiveAreSeen(first, run[..|run| - 1]);
      assert run[|run| - 1] in run;
    }
  }

  /** A log that gains an entry for `at` keeps every chain that gets to `at`, for it is the last step
      of the chain only. */
  lemma {:induction false} AppendKeepsChain(log: seq<Entry>, e: Entry, fp: Fingerprint, n: nat)
    requires After(log, fp, n) == Some(e.oldKey)
    ensures Reaches(log + [e], fp, e.oldKey)
    decreases n
  {
    var longer := log + [e];
    assert longer[..|longer| - 1] == log;
    if fp == e.oldKey {
      ReachesHere(longer, fp);
    } else {
      var next := Successor(log, fp).value;
      AppendKeepsChain(log, e, next, n - 1);
      ReachesNext(longer, fp, next, e.oldKey);
    }
  }

  lemma ChainExtends(log: seq<Entry>, fp: Fingerprint, n: nat, mid: Fingerprint, end: Fingerprint)
    requires After(log, fp, n) == Some(mid) && Successor(log, mid) == Some(end)
    ensures Reaches(log, fp, end)
    decreases n
  {
    if n == 0 {
      ReachesHere(log, end);
      ReachesNext(log, fp, end, end);
    } else {
      var next := Successor(log, fp).value;
      ChainExtends(log, next, n - 1, mid, end);
      ReachesNext(log, fp, next, end);
    }
  }

  /** However many rotations were abandoned in between, the chain of the active key holds exactly
      the keys that were ever active: a bundle signed by any of them still verifies, and one signed
      by an abandoned or foreign key does not. */
  lemma {:induction false} ChainHoldsExactlyTheActiveKeys(first: Fingerprint, run: seq<Rotation>, fp: Fingerprint)
    requires AllFresh(first, run)
    ensures Reaches(LogAfter(first, run), fp, ActiveAfter(first, run)) <==> fp in EverActive(first, run)
  {
    var log, active := LogAfter(first, run), ActiveAfter(first, run);
    if run == [] {
      ReachesHere(log, fp);
      if fp != first {
        ClosedSetShutsOut(log, {fp}, fp, first);
      }
      return;
    }
    var before, last := run[..|run| - 1], run[|run| - 1];
    var oldLog, at := LogAfter(first, before), ActiveAfter(first, before);
    var e := Entry(at, last.minted);
    EverActiveAreSeen(first, before);
    assert log[..|log| - 1] == oldLog;
    assert last.minted !in Seen(first, before);
    ChainHoldsExactlyTheActiveKeys(first, before, fp);
    if fp in EverActive(first, before) {
      var n: nat :| After(oldLog, fp, n) == Some(at);
      AppendKeepsChain(oldLog, e, fp, n);
      if last.adopted {
        var m: nat :| After(log, fp, m) == Some(at);
        ChainExtends(log, fp, m, at, last.minted);
      }
    } else if last.adopted && fp == last.minted {
      ReachesHere(log, fp);
    } else {
      // fp was never an old key, so nothing follows it.
      SuccessorIsLogged(log, fp);
      assert forall x :: x in log ==> x in oldLog || x == e;
      assert Successor(log, fp).None?;
      EverActiveAreSeen(first, run);
      ClosedSetShutsOut(log, {fp}, fp, active);
    }
  }

  /** One call of RotateKeys from the active key: the key it mints, whether the log was saved and the
      old key archived, and whether the caller could store the new key. */
  datatype Attempt = Attempt(minted: Fingerprint, saved: bool, archived: bool, stored: bool)

  ghost predicate AllMintedFresh(first: Fingerprint, attempts: seq<Attempt>) {
    && (forall i :: 0 <= i < |attempts| ==> attempts[i].minted != first)
    && (forall i, j :: 0 <= i < j < |attempts| ==> attempts[i].minted != attempts[j].minted)
  }

  /** What the log knows of the attempts: those that were saved, adopted when the call succeeded and
      the caller stored the key. */
  ghost function Rotations(attempts: seq<Attempt>): seq<Rotation> {
    if attempts == [] then []
    else
      var a := attempts[|attempts| - 1];
      Rotations(attempts[..|attempts| - 1]) + if a.saved then [Rotation(a.minted, a.archived && a.stored)] else []
  }

  lemma {:induction false} RotationsAreAttempts(attempts: seq<Attempt>)
    ensures forall r :: r in Rotations(attempts) ==> exists i :: 0 <= i < |attempts| && attempts[i].minted == r.minted
  {
    if attempts != [] {
      RotationsAreAttempts(attempts[..|attempts| - 1]);
      forall r | r in Rotations(attempts) ensures exists i :: 0 <= i < |attempts| && attempts[i].minted == r.minted {
        if r in Rotations(attempts[..|attempts| - 1]) {
          var i :| 0 <= i < |attempts| - 1 && attempts[..|attempts| - 1][i].minted == r.minted;
          assert attempts[i].minted == r.minted;
        } else {
          assert attempts[|attempts| - 1].minted == r.minted;
        }
      }
    }
  }

  lemma {:induction false} RotationsAreFresh(first: Fingerprint, attempts: seq<Attempt>)
    requires AllMintedFresh(first, attempts)
    ensures AllFresh(first, Rotations(attempts))
  {
    if attempts != [] {
      var front := attempts[..|attempts| - 1];
      RotationsAreFresh(first, front);
      RotationsAreAttempts(front);
      forall i | 0 <= i < |Rotations(front)|
        ensures Rotations(front)[i].minted != attempts[|attempts| - 1].minted
      {
        var j :| 0 <= j < |front| && front[j].minted == Rotations(front)[i].minted;
        assert front[j] == attempts[j];
      }
    }
  }

  /** The keys the caller came to hold. */
  function Adopted(attempts: seq<Attempt>): set<Fingerprint> {
    set a | a in attempts && a.saved && a.archived && a.stored :: a.minted
  }

  lemma AdoptedNext(attempts: seq<Attempt>, i: nat)
    requires i < |attempts|
    ensures var a := attempts[i];
            Adopted(attempts[..i + 1])
            == Adopted(attempts[..i]) + if a.saved && a.archived && a.stored then {a.minted} else {}
  {
    assert attempts[..i + 1] == attempts[..i] + [attempts[i]];
  }

  lemma ChainOfAttempts(first: Fingerprint, attempts: seq<Attempt>, k: Fingerprint)
    requires AllMintedFresh(first, attempts)
    ensures var run := Rotations(attempts);
            Reaches(LogAfter(first, run), k, ActiveAfter(first, run)) <==> k in EverActive(first, run)
  {
    RotationsAreFresh(first, attempts);
    ChainHoldsExactlyTheActiveKeys(first, Rotations(attempts), k);
  }

  /** Any run over the keys directory itself: each call rotates from the active key, saving and archiving
      may each fail, and a new key becomes active only when the call succeeded and the caller stored it.
      Afterwards the directory accepts exactly the keys that were ever active. */
  method RotateAndAsk(first: Fingerprint, attempts: seq<Attempt>, fp: Fingerprint)
    returns (dir: KeyDirectory, active: Fingerprint, found: bool)
    requires AllMintedFresh(first, attempts)
    ensures active == ActiveAfter(first, Rotations(attempts)) && active in {first} + Adopted(attempts)
    ensures found <==> fp in {first} + Adopted(attempts)
    ensures forall k :: Reaches(dir.entries, k, active) <==> k in {first} + Adopted(attempts)
  {
    dir := new KeyDirectory();
    active := first;
    for i := 0 to |attempts|
      invariant fresh(dir)
      invariant dir.entries == LogAfter(first, Rotations(attempts[..i]))
          && active == ActiveAfter(first, Rotations(attempts[..i]))
      invariant EverActive(first, Rotations(attempts[..i])) == {first} + Adopted(attempts[..i])
    {
      NextAttempt(first, attempts, i);
      AdoptedNext(attempts, i);
      var ok := dir.RotateKeys(active, attempts[i].minted, attempts[i].saved, attempts[i].archived);
      if ok && attempts[i].stored {
        active := attempts[i].minted;
      }
    }
    assert attempts[..|attempts|] == attempts;
    EverActiveAreSeen(first, Rotations(attempts));
    forall k ensures Reaches(dir.entries, k, active) <==> k in {first} + Adopted(attempts) {
      ChainOfAttempts(first, attempts, k);
    }
    found := dir.FingerprintInChain(fp, active);
  }

  lemma NextRotation(first: Fingerprint, run: seq<Rotation>, r: Rotation)
    ensures LogAfter(first, run + [r]) == LogAfter(first, run) + [Entry(ActiveAfter(first, run), r.minted)]
    ensures ActiveAfter(first, run + [r]) == if r.adopted then r.minted else ActiveAfter(first, run)
    ensures EverActive(first, run + [r]) == EverActive(first, run) + {ActiveAfter(first, run + [r])}
    ensures ActiveAfter(first, run) in EverActive(first, run)
  {
    assert (run + [r])[..|run|] == run;
    EverActiveAreSeen(first, run);
  }

  lemma NextAttempt(first: Fingerprint, attempts: seq<Attempt>, i: nat)
    requires i < |attempts|
    ensures var before, after, a := Rotations(attempts[..i]), Rotations(attempts[..i + 1]), attempts[i];
            && LogAfter(first, after)
                == LogAfter(first, before) + (if a.saved then [Entry(ActiveAfter(first, before), a.minted)] else [])
            && ActiveAfter(first, after)
                == (if a.saved && a.archived && a.stored then a.minted else ActiveAfter(first, before))
            && EverActive(first, after)
                == EverActive(first, before) + (if a.saved && a.archived && a.stored then {a.minted} else {})
  {
    var before, a := Rotations(attempts[..i]), attempts[i];
    assert attempts[..i + 1][..i] == attempts[..i];
    if a.saved {
      NextRotation(first, before, Rotation(a.minted, a.archived && a.stored));
    } else {
      assert before + [] == before;
    }
  }
}
