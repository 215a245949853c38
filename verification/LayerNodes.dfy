/** The node tree of a layer as its edits see it: nodes changed in place, each under one parent. */
module LayerNodes {
  import opened LayerEdit
  import opened Wrappers

  datatype Kind = ScalarKind | MappingKind | SequenceKind | AliasKind

  lemma StillApart(kids: seq<YamlNode>, i: nat)
    requires i < |kids| && forall j, k :: 0 <= j < k < |kids| ==> kids[j].repr !! kids[k].repr
    ensures var left := kids[..i] + kids[i + 1..]; forall j, k :: 0 <= j < k < |left| ==> left[j].repr !! left[k].repr
  {
    var left := kids[..i] + kids[i + 1..];
    assert forall j :: 0 <= j < |left| ==> left[j] == kids[if j < i then j else j + 1];
  }

  lemma OneMoreApart(kids: seq<YamlNode>, child: YamlNode)
    requires forall j, k :: 0 <= j < k < |kids| ==> kids[j].repr !! kids[k].repr
    requires forall k :: k in kids ==> child.repr !! k.repr
    ensures var more := kids + [child]; forall j, k :: 0 <= j < k < |more| ==> more[j].repr !! more[k].repr
  {
  }

  /** A node. value is a scalar's text or an alias's target; keys name a mapping's kids, in order. */
  class YamlNode {
    var kind: Kind
    var tag: string
    var value: string
    var look: Look
    var keys: seq<string>
    var kids: seq<YamlNode>
    /** The node and all below it, and what they stand for. */
    ghost var repr: set<YamlNode>
    ghost var tree: Node

    ghost predicate Valid()
      reads this, repr
      decreases repr
    {
      && this in repr
      && (forall k :: k in kids ==> k in repr && k.repr < repr && this !in k.repr && k.Valid())
      && (forall i, j :: 0 <= i < j < |kids| ==> kids[i].repr !! kids[j].repr)
      && (kind == MappingKind ==> |keys| == |kids|)
      && (kind == ScalarKind || kind == AliasKind ==> kids == [])
      && tree == Value()
    }

    ghost function Value(): Node
      reads this, kids
      requires kind == MappingKind ==> |keys| == |kids|
    {
      match kind
      case ScalarKind => Scalar(tag, value, look)
      case MappingKind =>
        Mapping(seq(|kids|, i requires 0 <= i < |kids| && |keys| == |kids| reads this, kids => (keys[i], kids[i].tree)),
                look)
      case SequenceKind => Sequence(seq(|kids|, i requires 0 <= i < |kids| reads this, kids => kids[i].tree), look)
      case AliasKind => Alias(value, look)
    }

    constructor EmptyMapping()
      ensures Valid() && kind == MappingKind && tree == EMPTY_MAPPING && repr == {this} && fresh(this)
    {
      kind, tag, value, look, keys, kids := MappingKind, "!!map", "", NO_LOOK, [], [];
      repr, tree := {this}, EMPTY_MAPPING;
    }

    /** A null level becomes a mapping in place, keeping its comments only. */
    method BecomeMapping()
      requires Valid() && IsNull(tree)
      modifies this
      ensures Valid() && kind == MappingKind && tree == MappingForNull(old(tree)) && repr == {this}
    {
      kind, tag, value, keys, kids := MappingKind, "!!map", "", [], [];
      look := NO_LOOK.(head := look.head, line := look.line, foot := look.foot);
      repr, tree := {this}, Mapping([], look);
    }

    /** Puts a new entry last; an empty flow mapping turns to block style first. */
    method Append(key: string, child: YamlNode)
      requires Valid() && kind == MappingKind && child.Valid() && child.repr !! repr
      modifies this
      ensures Valid() && kind == MappingKind && tree == Appended(old(tree), key, child.tree)
      ensures repr == old(repr) + child.repr && kids == old(kids) + [child]
    {
      if |kids| == 0 {
        look := look.(flow := false);
      }
      OneMoreApart(kids, child);
      keys, kids := keys + [key], kids + [child];
      repr := repr + child.repr;
      tree := Appended(tree, key, child.tree);
    }

    /** Takes over everything n holds, so whoever points at this node sees n's value. */
    method Assign(n: YamlNode)
      requires n.Valid() && this !in n.repr
      modifies this
      ensures Valid() && tree == n.tree && repr == {this} + n.repr - {n}
    {
      kind, tag, value, look, keys, kids := n.kind, n.tag, n.value, n.look, n.keys, n.kids;
      repr, tree := {this} + n.repr - {n}, n.tree;
    }

    method RemoveAt(i: nat)
      requires Valid() && kind == MappingKind && i < |kids|
      modifies this
      ensures Valid() && kind == MappingKind && repr == old(repr)
      ensures tree == old(tree).(entries := Without(old(tree).entries, i))
    {
      ghost var left := Without(tree.entries, i);
      StillApart(kids, i);
      assert forall j :: 0 <= j < |left| ==> left[j] == tree.entries[if j < i then j else j + 1];
      keys, kids := keys[..i] + keys[i + 1..], kids[..i] + kids[i + 1..];
      assert forall j :: 0 <= j < |kids| ==>
          kids[j] == old(kids)[if j < i then j else j + 1] && left[j] == (keys[j], kids[j].tree);
      tree := tree.(entries := left);
    }

    /** The index of the first entry under key. */
    method IndexOf(key: string) returns (at: Option<nat>)
      requires Valid() && kind == MappingKind
      ensures at == Find(tree.entries, key) && (at.Some? ==> at.value < |kids|)
    {
      for i := 0 to |kids|
        invariant forall j :: 0 <= j < i ==> keys[j] != key
      {
        if keys[i] == key {
          assert tree.entries[i].0 == key;
          return Some(i);
        }
      }
      assert forall j :: 0 <= j < |kids| ==> tree.entries[j].0 == keys[j];
      at := None;
    }

    /** The look of this node once it has replaced o. */
    method Carried(o: YamlNode) returns (carried: Look)
      requires Valid() && o.Valid()
      ensures WithLook(tree, carried) == CarryPresentation(o.tree, tree)
    {
      var was := o.look;
      carried := look;
      carried := carried.(head := if carried.head == "" then was.head else carried.head);
      carried := carried.(line := if carried.line == "" then was.line else carried.line);
      carried := carried.(foot := if carried.foot == "" then was.foot else carried.foot);
      carried := carried.(anchor := was.anchor);
      if o.kind == ScalarKind && kind == ScalarKind {
        var quoted := was.quoting == SingleQuoted || was.quoting == DoubleQuoted;
        if quoted && tag == "!!str" && value != "" {
          carried := carried.(quoting := was.quoting);
        }
      } else if o.kind == kind && |o.kids| > 0 && (kind == SequenceKind || kind == MappingKind) {
        carried := carried.(flow := carried.flow || was.flow);
      }
    }

    /** Copies the comments, anchor and style choices of the node this one replaces. */
    method CarryFrom(o: YamlNode)
      requires Valid() && o.Valid()
      modifies this`look, this`tree
      ensures Valid() && tree == CarryPresentation(o.tree, old(tree))
    {
      var carried := Carried(o);
      look, tree := carried, WithLook(tree, carried);
    }
  }

  /** Whether replacing one node by the other would change the file. */
  method SameNode(a: YamlNode, b: YamlNode) returns (same: bool)
    requires a.Valid() && b.Valid()
    ensures same <==> a.tree == b.tree
    decreases a.repr
  {
    assert a.kind == MappingKind ==> |a.tree.entries| == |a.kids|;
    assert b.kind == MappingKind ==> |b.tree.entries| == |b.kids|;
    assert a.kind == SequenceKind ==> |a.tree.items| == |a.kids|;
    assert b.kind == SequenceKind ==> |b.tree.items| == |b.kids|;
    if a.kind != b.kind || a.look != b.look || |a.kids| != |b.kids| {
      return false;
    }
    match a.kind {
      case ScalarKind =>
        return a.tag == b.tag && a.value == b.value;
      case AliasKind =>
        return a.value == b.value;
      case MappingKind =>
        for i := 0 to |a.kids|
          invariant forall j :: 0 <= j < i ==> a.tree.entries[j] == b.tree.entries[j]
        {
          same := SameNode(a.kids[i], b.kids[i]);
          if !same || a.keys[i] != b.keys[i] {
            assert a.tree.entries[i] != b.tree.entries[i];
            return false;
          }
        }
        return true;
      case SequenceKind =>
        for i := 0 to |a.kids|
          invariant forall j :: 0 <= j < i ==> a.tree.items[j] == b.tree.items[j]
        {
          same := SameNode(a.kids[i], b.kids[i]);
          if !same {
            assert a.tree.items[i] != b.tree.items[i];
            return false;
          }
        }
        return true;
    }
  }

  /** Everything about n is in order but that its kid i may have changed, on its own nodes. */
  ghost predicate ValidBut(n: YamlNode, i: nat)
    reads n, n.repr, n.kids, set k, m | k in n.kids && m in k.repr :: m
  {
    && n in n.repr && n.kind == MappingKind && |n.keys| == |n.kids| && i < |n.kids|
    && (forall k :: k in n.kids ==> n !in k.repr && k.Valid())
    && (forall j :: 0 <= j < |n.kids| && j != i ==> n.kids[j] in n.repr && n.kids[j].repr < n.repr)
    && (forall j, k :: 0 <= j < k < |n.kids| ==> n.kids[j].repr !! n.kids[k].repr)
    && n.tree.Mapping? && n.tree.look == n.look && |n.tree.entries| == |n.kids|
    && (forall j :: 0 <= j < |n.kids| ==> n.tree.entries[j].0 == n.keys[j])
    && (forall j :: 0 <= j < |n.kids| && j != i ==> n.tree.entries[j].1 == n.kids[j].tree)
  }

  /** Brings what n stands for up to date with its kid i. */
  ghost method Refresh(n: YamlNode, i: nat)
    requires ValidBut(n, i)
    modifies n`repr, n`tree
    ensures n.Valid() && n.repr == old(n.repr) + n.kids[i].repr
    ensures n.tree == old(n.tree).(entries := old(n.tree).entries[i := (n.keys[i], n.kids[i].tree)])
  {
    n.repr := n.repr + n.kids[i].repr;
    n.tree := n.tree.(entries := n.tree.entries[i := (n.keys[i], n.kids[i].tree)]);
  }

  datatype Edited = Did | Idle | Refused

  /** What an edit that came to r did to the tree before. */
  ghost predicate CameTo(r: Edited, edit: Edit, before: Node, after: Node) {
    match edit
    case Changed(tree) => r == Did && after == tree
    case Same => r == Idle && after == before
    case NotAMapping => r == Refused && after == before
  }

  /** The value at o is replaced by v's in place, so an alias of o sees it, unless it is there already. */
  method Replace(o: YamlNode, v: YamlNode) returns (changed: bool)
    requires o.Valid() && v.Valid() && o.repr !! v.repr
    modifies o, v
    ensures o.Valid() && o.repr <= old(o.repr) + old(v.repr)
    ensures var carried := CarryPresentation(old(o.tree), old(v.tree));
            changed == (carried != old(o.tree)) && o.tree == carried
  {
    v.CarryFrom(o);
    var same := SameNode(o, v);
    changed := !same;
    if changed {
      o.Assign(v);
    }
  }

  lemma SetInLeaf(t: Node, key: string, v: Node)
    requires t.Mapping?
    ensures match Find(t.entries, key)
            case None => SetIn(t, [key], v) == Changed(Appended(t, key, v))
            case Some(i) =>
              var carried := CarryPresentation(t.entries[i].1, v);
              if carried == t.entries[i].1 then SetIn(t, [key], v) == Same
              else SetIn(t, [key], v) == Changed(t.(entries := t.entries[i := (key, carried)]))
  {
  }

  lemma UpdatedToItself(t: Node, i: nat)
    requires t.Mapping? && i < |t.entries|
    ensures t.(entries := t.entries[i := (t.entries[i].0, t.entries[i].1)]) == t
  {
    assert t.entries[i := (t.entries[i].0, t.entries[i].1)] == t.entries;
  }

  method ReplaceKid(n: YamlNode, i: nat, v: YamlNode) returns (changed: bool)
    requires n.Valid() && n.kind == MappingKind && v.Valid() && n.repr !! v.repr && i < |n.kids|
    modifies n.repr, v
    ensures n.Valid() && n.kind == MappingKind && n.repr <= old(n.repr) + old(v.repr) && n.kids == old(n.kids)
    ensures i < |old(n.tree).entries|
    ensures var t := old(n.tree); var carried := CarryPresentation(t.entries[i].1, old(v.tree));
            changed == (carried != t.entries[i].1) && n.tree == t.(entries := t.entries[i := (t.entries[i].0, carried)])
  {
    changed := Replace(n.kids[i], v);
    forall j | 0 <= j < |n.kids| && j != i
      ensures n.kids[j].Valid() && n.kids[j].repr == old(n.kids[j].repr) && n.kids[j].tree == old(n.kids[j].tree)
    {
      assert old(n.kids[j].repr) !! old(n.kids[i].repr);
    }
    assert ValidBut(n, i);
    Refresh(n, i);
  }

  /** Sets the last key where n has an entry for it: every node under n stays the node it was. */
  method SetHeldLeaf(n: YamlNode, i: nat, key: string, v: YamlNode) returns (r: Edited)
    requires n.Valid() && n.kind == MappingKind && v.Valid() && n.repr !! v.repr
    requires Find(n.tree.entries, key) == Some(i)
    modifies n.repr, v
    ensures n.Valid() && n.kind == MappingKind && n.repr <= old(n.repr) + old(v.repr) && n.kids == old(n.kids)
    ensures CameTo(r, SetIn(old(n.tree), [key], old(v.tree)), old(n.tree), n.tree)
  {
    SetInLeaf(n.tree, key, v.tree);
    UpdatedToItself(n.tree, i);
    var changed := ReplaceKid(n, i, v);
    r := if changed then Did else Idle;
  }

  /** Sets the last key under n: an entry there takes the new value over in place, else the new node is
      put last. */
  method SetLeaf(n: YamlNode, key: string, v: YamlNode) returns (r: Edited)
    requires n.Valid() && n.kind == MappingKind && v.Valid() && n.repr !! v.repr
    modifies n.repr, v
    ensures n.Valid() && n.kind == MappingKind && n.repr <= old(n.repr) + old(v.repr)
    ensures CameTo(r, SetIn(old(n.tree), [key], old(v.tree)), old(n.tree), n.tree)
  {
    var at := n.IndexOf(key);
    if at.Some? {
      r := SetHeldLeaf(n, at.value, key, v);
    } else {
      SetInLeaf(n.tree, key, v.tree);
      n.Append(key, v);
      r := Did;
    }
  }

  lemma SetInNewLevel(t: Node, keys: Path, v: Node, level: Node)
    requires t.Mapping? && |keys| > 1 && Find(t.entries, keys[0]).None?
    requires SetIn(EMPTY_MAPPING, keys[1..], v) == Changed(level)
    ensures var made := Appended(t, keys[0], EMPTY_MAPPING);
            SetIn(t, keys, v) == Changed(made.(entries := made.entries[|t.entries| := (keys[0], level)]))
  {
  }

  lemma SetInHeldLevel(t: Node, keys: Path, v: Node, r: Edited, after: Node)
    requires t.Mapping? && |keys| > 1 && Find(t.entries, keys[0]).Some?
    requires var was := t.entries[Find(t.entries, keys[0]).value].1;
             var level := if IsNull(was) then MappingForNull(was) else was;
             level.Mapping? && CameTo(r, SetIn(level, keys[1..], v), level, after)
    ensures CameTo(r, SetIn(t, keys, v), t,
        t.(entries := t.entries[Find(t.entries, keys[0]).value := (keys[0], after)]))
  {
    var i := Find(t.entries, keys[0]).value;
    assert t.entries[i := (keys[0], t.entries[i].1)] == t.entries;
  }

  /** Goes on in a level that is there: a null becomes a mapping first, and the user's own value stays. */
  method SetInLevel(level: YamlNode, rest: Path, v: YamlNode) returns (r: Edited)
    requires level.Valid() && v.Valid() && level.repr !! v.repr && rest != []
    modifies level.repr, v
    ensures level.Valid() && fresh(level.repr - old(level.repr) - old(v.repr))
    ensures LevelCameTo(r, old(level.tree), rest, old(v.tree), level.tree)
    decreases |rest|, 2
  {
    var isNull := level.kind == ScalarKind && level.tag == "!!null";
    if isNull {
      level.BecomeMapping();
    } else if level.kind != MappingKind {
      return Refused;
    }
    r := SetUnder(level, rest, v);
  }

  lemma SetInRefused(t: Node, keys: Path, v: Node)
    requires t.Mapping? && |keys| > 1 && Find(t.entries, keys[0]).Some?
    requires var was := t.entries[Find(t.entries, keys[0]).value].1; !IsNull(was) && !was.Mapping?
    ensures SetIn(t, keys, v) == NotAMapping
  {
  }

  /** What setting rest in the level that stood for was came to. */
  ghost predicate LevelCameTo(r: Edited, was: Node, rest: Path, v: Node, after: Node)
    requires rest != []
  {
    var before := if IsNull(was) then MappingForNull(was) else was;
    if before.Mapping? then CameTo(r, SetIn(before, rest, v), before, after) else r == Refused && after == was
  }

  /** Goes on in kid i of n. */
  method SetInKid(n: YamlNode, i: nat, rest: Path, v: YamlNode) returns (r: Edited)
    requires n.Valid() && n.kind == MappingKind && v.Valid() && n.repr !! v.repr && rest != [] && i < |n.kids|
    modifies n.repr, v
    ensures n.Valid() && n.kind == MappingKind && fresh(n.repr - old(n.repr) - old(v.repr)) && n.kids == old(n.kids)
    ensures var t := old(n.tree);
            && n.tree.Mapping? && |n.tree.entries| == |t.entries| && i < |t.entries|
            && n.tree == t.(entries := t.entries[i := (t.entries[i].0, n.tree.entries[i].1)])
            && LevelCameTo(r, t.entries[i].1, rest, old(v.tree), n.tree.entries[i].1)
    decreases |rest|, 3
  {
    r := SetInLevel(n.kids[i], rest, v);
    forall j | 0 <= j < |n.kids| && j != i
      ensures n.kids[j].Valid() && n.kids[j].repr == old(n.kids[j].repr) && n.kids[j].tree == old(n.kids[j].tree)
    {
      assert old(n.kids[j].repr) !! old(n.kids[i].repr);
    }
    assert ValidBut(n, i);
    Refresh(n, i);
  }

  /** The level is missing: an empty mapping is put under n, and the walk goes on in it. */
  method SetInNew(n: YamlNode, keys: Path, v: YamlNode) returns (r: Edited)
    requires n.Valid() && n.kind == MappingKind && v.Valid() && n.repr !! v.repr && |keys| > 1
    requires Find(n.tree.entries, keys[0]).None?
    modifies n.repr, v
    ensures n.Valid() && n.kind == MappingKind && fresh(n.repr - old(n.repr) - old(v.repr))
    ensures CameTo(r, SetIn(old(n.tree), keys, old(v.tree)), old(n.tree), n.tree)
    decreases |keys|, 0
  {
    var level := new YamlNode.EmptyMapping();
    n.Append(keys[0], level);
    r := SetInKid(n, |n.kids| - 1, keys[1..], v);
    SetInNewLevel(old(n.tree), keys, old(v.tree), n.tree.entries[|n.tree.entries| - 1].1);
  }

  /** The level is there. */
  method SetInHeld(n: YamlNode, i: nat, keys: Path, v: YamlNode) returns (r: Edited)
    requires n.Valid() && n.kind == MappingKind && v.Valid() && n.repr !! v.repr && |keys| > 1
    requires Find(n.tree.entries, keys[0]) == Some(i)
    modifies n.repr, v
    ensures n.Valid() && n.kind == MappingKind && fresh(n.repr - old(n.repr) - old(v.repr))
    ensures CameTo(r, SetIn(old(n.tree), keys, old(v.tree)), old(n.tree), n.tree)
    decreases |keys|, 0
  {
    UpdatedToItself(n.tree, i);
    ghost var was := n.tree.entries[i].1;
    r := SetInKid(n, i, keys[1..], v);
    if IsNull(was) || was.Mapping? {
      SetInHeldLevel(old(n.tree), keys, old(v.tree), r, n.tree.entries[i].1);
    } else {
      SetInRefused(old(n.tree), keys, old(v.tree));
    }
  }

  /** Walks down from n, creating missing and null levels, and sets the last key. */
  method SetUnder(n: YamlNode, keys: Path, v: YamlNode) returns (r: Edited)
    requires n.Valid() && n.kind == MappingKind && v.Valid() && n.repr !! v.repr && keys != []
    modifies n.repr, v
    ensures n.Valid() && n.kind == MappingKind && fresh(n.repr - old(n.repr) - old(v.repr))
    ensures CameTo(r, SetIn(old(n.tree), keys, old(v.tree)), old(n.tree), n.tree)
    decreases |keys|, 1
  {
    if |keys| == 1 {
      assert keys == [keys[0]];
      r := SetLeaf(n, keys[0], v);
    } else {
      var at := n.IndexOf(keys[0]);
      if at.None? {
        r := SetInNew(n, keys, v);
      } else {
        r := SetInHeld(n, at.value, keys, v);
      }
    }
  }

  lemma DeleteInLevel(t: Node, keys: Path)
    requires t.Mapping? && |keys| > 1 && Find(t.entries, keys[0]).Some?
    ensures var i := Find(t.entries, keys[0]).value;
            match DeleteIn(t.entries[i].1, keys[1..])
            case None => DeleteIn(t, keys).None?
            case Some(level) => DeleteIn(t, keys) == Some(t.(entries := t.entries[i := (keys[0], level)]))
  {
  }

  /** Drops the entry at keys, if it is there. */
  method DeleteUnder(n: YamlNode, keys: Path) returns (there: bool)
    requires n.Valid() && keys != []
    modifies n.repr
    ensures n.Valid() && n.repr == old(n.repr) && n.kind == old(n.kind)
    ensures there <==> DeleteIn(old(n.tree), keys).Some?
    ensures n.tree == if there then DeleteIn(old(n.tree), keys).value else old(n.tree)
    decreases |keys|
  {
    if n.kind != MappingKind {
      return false;
    }
    var at := n.IndexOf(keys[0]);
    if at.None? {
      return false;
    }
    if |keys| == 1 {
      n.RemoveAt(at.value);
      return true;
    }
    there := DeleteInKid(n, at.value, keys);
  }

  method DeleteInKid(n: YamlNode, i: nat, keys: Path) returns (there: bool)
    requires n.Valid() && n.kind == MappingKind && |keys| > 1 && Find(n.tree.entries, keys[0]) == Some(i)
    modifies n.repr
    ensures n.Valid() && n.repr == old(n.repr) && n.kind == MappingKind
    ensures there <==> DeleteIn(old(n.tree), keys).Some?
    ensures n.tree == if there then DeleteIn(old(n.tree), keys).value else old(n.tree)
    decreases |keys|, 0
  {
    DeleteInLevel(n.tree, keys);
    UpdatedToItself(n.tree, i);
    there := DeleteUnder(n.kids[i], keys[1..]);
    forall j | 0 <= j < |n.kids| && j != i
      ensures n.kids[j].Valid() && n.kids[j].repr == old(n.kids[j].repr) && n.kids[j].tree == old(n.kids[j].tree)
    {
      assert old(n.kids[j].repr) !! old(n.kids[i].repr);
    }
    assert ValidBut(n, i);
    Refresh(n, i);
  }

  datatype SetOutcome = SetOk | NeedsKey | CannotEncode | LevelIsNotAMapping

  /** One config file's own layer: its root never moves, edits go into the nodes below it. */
  class Layer {
    const root: YamlNode
    var dirty: bool

    ghost predicate Valid()
      reads this, root, root.repr
    {
      root.Valid() && root.kind == MappingKind
    }

    constructor (root: YamlNode)
      requires root.Valid() && root.kind == MappingKind
      ensures Valid() && this.root == root && !dirty
    {
      this.root, dirty := root, false;
    }

    /** The node at keys, walking down a level a key; no keys means the root. */
    method NodeAt(keys: Path) returns (node: Option<YamlNode>)
      requires Valid()
      ensures node.Some? <==> Lookup(root.tree, keys).Some?
      ensures node.Some? ==>
          node.value in root.repr && node.value.Valid() && Some(node.value.tree) == Lookup(root.tree, keys)
    {
      var cur := root;
      assert keys[0..] == keys;
      for i := 0 to |keys|
        invariant cur in root.repr && cur.repr <= root.repr && cur.Valid()
        invariant Lookup(root.tree, keys) == Lookup(cur.tree, keys[i..])
      {
        assert keys[i..][0] == keys[i] && keys[i..][1..] == keys[i + 1..];
        if cur.kind != MappingKind {
          return None;
        }
        var at := cur.IndexOf(keys[i]);
        if at.None? {
          return None;
        }
        cur := cur.kids[at.value];
      }
      node := Some(cur);
    }

    /** value is what encodeNode makes of the new value, a node tree of its own: none when YAML cannot
        represent it. */
    method Set(value: Option<YamlNode>, keys: Path) returns (outcome: SetOutcome)
      requires Valid() && (value.Some? ==> value.value.Valid() && value.value.repr !! root.repr)
      modifies this, root.repr, if value.Some? then {value.value} else {}
      ensures Valid()
      ensures keys == [] ==> outcome == NeedsKey
      ensures keys != [] && value.None? ==> outcome == CannotEncode
      ensures keys != [] && value.Some? ==>
                match SetIn(old(root.tree), keys, old(value.value.tree))
                case Changed(tree) => outcome == SetOk && root.tree == tree && dirty
                case Same => outcome == SetOk && root.tree == old(root.tree) && dirty == old(dirty)
                case NotAMapping => outcome == LevelIsNotAMapping && root.tree == old(root.tree) && dirty == old(dirty)
      ensures !outcome.SetOk? ==> root.tree == old(root.tree) && dirty == old(dirty)
    {
      if keys == [] {
        return NeedsKey;
      }
      if value.None? {
        return CannotEncode;
      }
      var r := SetUnder(root, keys, value.value);
      if r == Did {
        dirty := true;
      }
      outcome := if r == Refused then LevelIsNotAMapping else SetOk;
    }

    method Delete(keys: Path) returns (there: bool)
      requires Valid()
      modifies this, root.repr
      ensures Valid()
      ensures there <==> keys != [] && DeleteIn(old(root.tree), keys).Some?
      ensures there ==> root.tree == DeleteIn(old(root.tree), keys).value && dirty
      ensures !there ==> root.tree == old(root.tree) && dirty == old(dirty)
    {
      if keys == [] {
        return false;
      }
      there := DeleteUnder(root, keys);
      if there {
        dirty := true;
      }
    }
  }
}
