/** The local target: a database that takes a row only when none of its unique keys is taken, and whose
    watermark is written last. */
module LocalTarget {
  import opened PushRequests

  /** What tells one object row from another at the target. */
  datatype Row = Row(id: Name, hash: Name, profile: Name, sourceKey: Name, nodes: seq<Name>)

  function RowOf(o: Object): Row {
    Row(o.id, o.hash, o.profile, o.sourceKey, o.nodes)
  }

  /** The target's database: object rows, edges by their key, entities by slug. */
  datatype Store = Store(rows: set<Row>, edges: map<Name, Edge>, slugs: set<Name>)

  /** The unique keys two rows may share: the id, a content hash that is not empty per profile, a source
      key that is not empty, and the id of any graph node. */
  predicate Clash(a: Row, b: Row) {
    || a.id == b.id
    || (a.hash != EMPTY && a.hash == b.hash && a.profile == b.profile)
    || (a.sourceKey != EMPTY && a.sourceKey == b.sourceKey)
    || exists n :: n in a.nodes && n in b.nodes
  }

  /** A row two of whose nodes share an id clashes with itself. */
  predicate NodesApart(row: Row) {
    forall i, j :: 0 <= i < j < |row.nodes| ==> row.nodes[i] != row.nodes[j]
  }

  /** The unique indexes hold. */
  predicate Distinct(rows: set<Row>) {
    && (forall a, b :: a in rows && b in rows && Clash(a, b) ==> a == b)
    && (forall a :: a in rows ==> NodesApart(a))
  }

  /** The database refuses the row. */
  predicate Taken(rows: set<Row>, row: Row) {
    !NodesApart(row) || exists r :: r in rows && Clash(r, row)
  }

  /** The rows once objects are offered in turn. */
  function Absorb(rows: set<Row>, objects: seq<Object>): set<Row> {
    if objects == [] then rows
    else
      var before := Absorb(rows, objects[..|objects| - 1]);
      var row := RowOf(objects[|objects| - 1]);
      if Taken(before, row) then before else before + {row}
  }

  /** The ids of the objects that became rows. */
  function Created(rows: set<Row>, objects: seq<Object>): set<Name> {
    if objects == [] then {}
    else
      var front, o := objects[..|objects| - 1], objects[|objects| - 1];
      if Taken(Absorb(rows, front), RowOf(o)) then Created(rows, front) else Created(rows, front) + {o.id}
  }

  /** Nothing at the target is ever replaced, afterwards every object is there or refused, and a new row
      is a created object's own. */
  lemma {:induction false} AbsorbKeepsAndCovers(rows: set<Row>, objects: seq<Object>)
    requires Distinct(rows)
    ensures rows <= Absorb(rows, objects) && Distinct(Absorb(rows, objects))
    ensures forall i :: 0 <= i < |objects| ==> Taken(Absorb(rows, objects), RowOf(objects[i]))
    ensures forall r :: r in Absorb(rows, objects) && r !in rows ==> exists i ::
        0 <= i < |objects| && RowOf(objects[i]) == r && r.id in Created(rows, objects)
  {
    if objects != [] {
      var front, o := objects[..|objects| - 1], objects[|objects| - 1];
      AbsorbKeepsAndCovers(rows, front);
      var before, after := Absorb(rows, front), Absorb(rows, objects);
      OneMoreRow(before, RowOf(o));
      forall i | 0 <= i < |objects| ensures Taken(after, RowOf(objects[i])) {
        if i < |front| {
          assert front[i] == objects[i];
          StaysTaken(before, after, RowOf(front[i]));
        }
      }
      forall r | r in after && r !in rows
        ensures exists i :: 0 <= i < |objects| && RowOf(objects[i]) == r && r.id in Created(rows, objects) {
        if r in before {
          var i :| 0 <= i < |front| && RowOf(front[i]) == r && r.id in Created(rows, front);
          assert RowOf(objects[i]) == r;
        } else {
          assert RowOf(objects[|objects| - 1]) == r;
        }
      }
    }
  }

  lemma StaysTaken(rows: set<Row>, later: set<Row>, row: Row)
    requires rows <= later && Taken(rows, row)
    ensures Taken(later, row)
  {
    if NodesApart(row) {
      var r :| r in rows && Clash(r, row);
      assert r in later;
    }
  }

  lemma OneMoreRow(rows: set<Row>, row: Row)
    requires Distinct(rows)
    ensures !Taken(rows, row) ==> Distinct(rows + {row})
    ensures Taken(rows + {row}, row)
  {
    assert Clash(row, row);
    forall a | a in rows ensures Clash(row, a) <==> Clash(a, row) {
    }
  }

  /** Shut out at its turn, shut out for good: an object's own row is at the target after the push exactly
      when it was there before its turn or nothing refused it then. */
  lemma {:induction false} OwnRowIsDecidedAtItsTurn(rows: set<Row>, objects: seq<Object>, i: nat)
    requires Distinct(rows) && i < |objects|
    ensures var row, before := RowOf(objects[i]), Absorb(rows, objects[..i]);
            row in Absorb(rows, objects) <==> row in before || !Taken(before, row)
  {
    var front := objects[..|objects| - 1];
    var row := RowOf(objects[i]);
    if i < |objects| - 1 {
      OwnRowIsDecidedAtItsTurn(rows, front, i);
      assert front[..i] == objects[..i] && front[i] == objects[i];
      AbsorbKeepsAndCovers(rows, front);
      assert Taken(Absorb(rows, front), RowOf(front[i]));
    }
  }

  /** No two objects share a unique key, as two rows of one source do not. */
  ghost predicate Apart(objects: seq<Object>) {
    && (forall i, j :: 0 <= i < j < |objects| ==> !Clash(RowOf(objects[i]), RowOf(objects[j])))
    && (forall i :: 0 <= i < |objects| ==> NodesApart(RowOf(objects[i])))
  }

  /** Which acknowledged objects a target really takes: a batch of one source's rows leaves an object's own
      row at the target if and only if it was there already or the target held no other row with its id,
      its content, its source key or one of its graph nodes. */
  lemma OwnRowReachesTheTarget(rows: set<Row>, objects: seq<Object>, i: nat)
    requires Distinct(rows) && Apart(objects) && i < |objects|
    ensures var row := RowOf(objects[i]);
            row in Absorb(rows, objects) <==> row in rows || forall r :: r in rows ==> !Clash(r, row)
  {
    var row, before := RowOf(objects[i]), Absorb(rows, objects[..i]);
    OwnRowIsDecidedAtItsTurn(rows, objects, i);
    AbsorbKeepsAndCovers(rows, objects[..i]);
    forall r | r in before && r !in rows ensures !Clash(r, row) {
      var j :| 0 <= j < |objects[..i]| && RowOf(objects[..i][j]) == r;
      assert !Clash(RowOf(objects[j]), RowOf(objects[i]));
    }
    if row in before && row !in rows {
      assert Clash(row, row);
    }
  }

  /** A target holding one row stores an object exactly when they have no id, no content under one profile,
      no source key and no graph node in common, an empty key being none, and no two of its own nodes share
      an id. */
  lemma StoredBesideExactly(held: Object, o: Object)
    requires NodesApart(RowOf(held)) && RowOf(o) != RowOf(held)
    ensures RowOf(o) in Absorb({RowOf(held)}, [o]) <==>
            && o.id != held.id && !(o.hash == held.hash != EMPTY && o.profile == held.profile)
            && !(o.sourceKey == held.sourceKey != EMPTY) && (forall n :: n in o.nodes ==> n !in held.nodes)
            && forall i, j :: 0 <= i < j < |o.nodes| ==> o.nodes[i] != o.nodes[j]
  {
    assert [o][..0] == [] && Absorb({RowOf(held)}, []) == {RowOf(held)};
    if exists n :: n in o.nodes && n in held.nodes {
      assert Clash(RowOf(held), RowOf(o));
    }
  }

  /** Neither its id nor its content needs to be there for an object to be shut out: a source key is
      enough. The push succeeds all the same. */
  lemma SourceKeyShutsOut(held: Object, o: Object)
    requires held.sourceKey == o.sourceKey != EMPTY && held.id != o.id && held.hash != o.hash
    requires NodesApart(RowOf(held))
    ensures Distinct({RowOf(held)}) && Absorb({RowOf(held)}, [o]) == {RowOf(held)}
    ensures forall r :: r in Absorb({RowOf(held)}, [o]) ==> r.id != o.id && r.hash != o.hash
  {
    assert [o][..0] == [] && Absorb({RowOf(held)}, []) == {RowOf(held)};
    assert Clash(RowOf(held), RowOf(o));
  }

  /** So is one graph node, or two of the object's own nodes with one id. */
  lemma NodesShutOut(rows: set<Row>, o: Object)
    requires Distinct(rows) && RowOf(o) !in rows
    requires !NodesApart(RowOf(o)) || exists r, n :: r in rows && n in r.nodes && n in o.nodes
    ensures Absorb(rows, [o]) == rows && RowOf(o) !in Absorb(rows, [o])
  {
    assert [o][..0] == [] && Absorb(rows, []) == rows;
    if NodesApart(RowOf(o)) {
      var r, n :| r in rows && n in r.nodes && n in o.nodes;
      assert Clash(r, RowOf(o));
    }
  }

  lemma {:induction false} TakenObjectsChangeNothing(rows: set<Row>, objects: seq<Object>)
    requires forall i :: 0 <= i < |objects| ==> Taken(rows, RowOf(objects[i]))
    ensures Absorb(rows, objects) == rows && Created(rows, objects) == {}
  {
    if objects != [] {
      TakenObjectsChangeNothing(rows, objects[..|objects| - 1]);
    }
  }

  /** A batch pushed again, whatever else the target took in between, changes no row: a push cut off
      before its watermark can be repeated. */
  lemma RepushIsNoOp(rows: set<Row>, objects: seq<Object>, later: set<Row>)
    requires Distinct(rows) && Absorb(rows, objects) <= later
    ensures Absorb(later, objects) == later && Created(later, objects) == {}
  {
    AbsorbKeepsAndCovers(rows, objects);
    forall i | 0 <= i < |objects| ensures Taken(later, RowOf(objects[i])) {
      StaysTaken(Absorb(rows, objects), later, RowOf(objects[i]));
    }
    TakenObjectsChangeNothing(later, objects);
  }

  /** Duplicates being no-ops, an edit never reaches the target: with a row of its id there, an object is
      acknowledged and the row stays as it was. */
  lemma EditsDoNotReachTheTarget(rows: set<Row>, r: Row, o: Object)
    requires Distinct(rows) && r in rows && r.id == o.id && RowOf(o) != r
    ensures Absorb(rows, [o]) == rows && RowOf(o) !in rows
  {
    assert [o][..0] == [];
    assert Clash(r, RowOf(o));
    assert Absorb(rows, []) == rows;
  }

  predicate TouchesAny(e: Edge, ids: set<Name>) {
    e.fromId in ids || e.toId in ids
  }

  ghost predicate Preserved(before: map<Name, Edge>, after: map<Name, Edge>) {
    forall k :: k in before ==> k in after && after[k] == before[k]
  }

  /** The target's edges after those of the batch touching a created object were inserted: nothing is
      replaced, nothing else is added. */
  ghost predicate Linked(before: map<Name, Edge>, after: map<Name, Edge>, batch: seq<Edge>, created: set<Name>) {
    && Preserved(before, after)
    && (forall k :: k in after && k !in before ==>
        after[k] in batch && after[k].key == k && TouchesAny(after[k], created))
    && (forall e :: e in batch && TouchesAny(e, created) ==> e.key in after)
  }

  lemma AbsorbNext(rows: set<Row>, objects: seq<Object>, i: nat)
    requires i < |objects|
    ensures var before, row := Absorb(rows, objects[..i]), RowOf(objects[i]);
            && Absorb(rows, objects[..i + 1]) == (if Taken(before, row) then before else before + {row})
            && Created(rows, objects[..i + 1])
                == Created(rows, objects[..i]) + if Taken(before, row) then {} else {objects[i].id}
  {
    assert objects[..i + 1][..i] == objects[..i];
  }
}
