/** What setting and deleting a key path in a config file's own YAML layer makes of its node tree, and
    the laws those edits keep. */
module LayerEdit {
  import opened Wrappers

  datatype Quoting = Plain | SingleQuoted | DoubleQuoted | OtherStyle

  /** What an edit carries over and a reader of values does not see. */
  datatype Look = Look(head: string, line: string, foot: string, anchor: string, flow: bool, quoting: Quoting)

  const NO_LOOK := Look("", "", "", "", false, Plain)

  datatype Node =
    | Scalar(tag: string, value: string, look: Look)
    | Mapping(entries: seq<(string, Node)>, look: Look)
    | Sequence(items: seq<Node>, look: Look)
    | Alias(target: string, look: Look)

  const EMPTY_MAPPING := Mapping([], NO_LOOK)

  type Path = seq<string>

  predicate IsNull(n: Node) {
    n.Scalar? && n.tag == "!!null"
  }

  /** The first entry under key, as mappingValue finds it. */
  function Find(entries: seq<(string, Node)>, key: string): (i: Option<nat>)
    ensures i.Some? ==> i.value < |entries| && entries[i.value].0 == key
    ensures i.Some? ==> forall k :: 0 <= k < i.value ==> entries[k].0 != key
    ensures i.None? ==> forall k :: 0 <= k < |entries| ==> entries[k].0 != key
  {
    if entries == [] then None
    else if entries[0].0 == key then Some(0)
    else match Find(entries[1..], key)
      case None => None
      case Some(i) => Some(i + 1)
  }

  function Lookup(n: Node, keys: Path): Option<Node>
    decreases |keys|
  {
    if keys == [] then Some(n)
    else if !n.Mapping? then None
    else match Find(n.entries, keys[0])
      case None => None
      case Some(i) => Lookup(n.entries[i].1, keys[1..])
  }

  predicate Empty(n: Node) {
    match n
    case Mapping(entries, _) => entries == []
    case Sequence(items, _) => items == []
    case _ => false
  }

  predicate Collection(n: Node) {
    n.Mapping? || n.Sequence?
  }

  function WithLook(n: Node, look: Look): Node {
    match n
    case Scalar(tag, value, _) => Scalar(tag, value, look)
    case Mapping(entries, _) => Mapping(entries, look)
    case Sequence(items, _) => Sequence(items, look)
    case Alias(target, _) => Alias(target, look)
  }

  /** The replacement keeps the old node's comments, anchor, and quoting or flow style. */
  function CarryPresentation(was: Node, n: Node): Node {
    var look := Look(if n.look.head == "" then was.look.head else n.look.head,
                     if n.look.line == "" then was.look.line else n.look.line,
                     if n.look.foot == "" then was.look.foot else n.look.foot,
                     was.look.anchor, n.look.flow, n.look.quoting);
    if was.Scalar? && n.Scalar? then
      var quoted := was.look.quoting == SingleQuoted || was.look.quoting == DoubleQuoted;
      if quoted && n.tag == "!!str" && n.value != "" then WithLook(n, look.(quoting := was.look.quoting))
      else WithLook(n, look)
    else if Collection(n) && n.Mapping? == was.Mapping? && n.Sequence? == was.Sequence? && !Empty(was) then
      WithLook(n, look.(flow := n.look.flow || was.look.flow))
    else WithLook(n, look)
  }

  /** Equal but for their own presentation. */
  predicate SameValue(a: Node, b: Node) {
    WithLook(a, NO_LOOK) == WithLook(b, NO_LOOK)
  }

  datatype Edit = Changed(node: Node) | Same | NotAMapping

  /** A null level becomes a mapping that keeps only its comments. */
  function MappingForNull(n: Node): Node {
    Mapping([], NO_LOOK.(head := n.look.head, line := n.look.line, foot := n.look.foot))
  }

  /** An empty flow mapping that gains a key becomes a block mapping. */
  function Appended(n: Node, key: string, child: Node): Node
    requires n.Mapping?
  {
    Mapping(n.entries + [(key, child)], if n.entries == [] then n.look.(flow := false) else n.look)
  }

  /** The tree after v is set at keys under mapping n, creating missing or null levels. */
  function SetIn(n: Node, keys: Path, v: Node): (r: Edit)
    requires n.Mapping? && keys != []
    ensures r.Changed? ==> r.node.Mapping? && r.node.entries != []
    ensures n.entries == [] ==> r.Changed?
    decreases |keys|
  {
    var key, rest := keys[0], keys[1..];
    match Find(n.entries, key)
    case None =>
      Changed(Appended(n, key, if rest == [] then v else SetIn(EMPTY_MAPPING, rest, v).node))
    case Some(i) =>
      var was := n.entries[i].1;
      if rest == [] then
        var carried := CarryPresentation(was, v);
        if carried == was then Same else Changed(n.(entries := n.entries[i := (key, carried)]))
      else if IsNull(was) then
        Changed(n.(entries := n.entries[i := (key, SetIn(MappingForNull(was), rest, v).node)]))
      else if !was.Mapping? then NotAMapping
      else
        match SetIn(was, rest, v)
        case Changed(child) => Changed(n.(entries := n.entries[i := (key, child)]))
        case Same => Same
        case NotAMapping => NotAMapping
  }

  function Without(entries: seq<(string, Node)>, i: nat): seq<(string, Node)>
    requires i < |entries|
  {
    entries[..i] + entries[i + 1..]
  }

  /** The tree without the entry at keys, or None when there is none. */
  function DeleteIn(n: Node, keys: Path): (r: Option<Node>)
    requires keys != []
    ensures r.Some? ==> n.Mapping? && r.value.Mapping?
    decreases |keys|
  {
    if !n.Mapping? then None
    else match Find(n.entries, keys[0])
      case None => None
      case Some(i) =>
        if |keys| == 1 then Some(n.(entries := Without(n.entries, i)))
        else match DeleteIn(n.entries[i].1, keys[1..])
          case None => None
          case Some(child) => Some(n.(entries := n.entries[i := (keys[0], child)]))
  }

  // ---- What the edits promise ----

  ghost predicate UniqueKeys(n: Node) {
    match n
    case Mapping(entries, _) =>
      && (forall i, j :: 0 <= i < j < |entries| ==> entries[i].0 != entries[j].0)
      && (forall e :: e in entries ==> UniqueKeys(e.1))
    case _ => true
  }

  /** Neither path leads through the other. */
  ghost predicate Unrelated(p: Path, q: Path) {
    !(p <= q) && !(q <= p)
  }

  lemma CarriedValue(was: Node, v: Node)
    ensures SameValue(CarryPresentation(was, v), v)
    ensures CarryPresentation(was, v).Mapping? == v.Mapping?
  {
  }

  /** An edit changes the value and nothing around it: the node that takes a value's place has the old
      one's comments but where it brings its own, the old one's anchor, the old one's quotes if it is a
      string that can be quoted, and stays in flow style where a collection that was not empty was. */
  lemma CarriedLook(was: Node, v: Node)
    ensures var look := CarryPresentation(was, v).look;
            && look.head == (if v.look.head != "" then v.look.head else was.look.head)
            && look.line == (if v.look.line != "" then v.look.line else was.look.line)
            && look.foot == (if v.look.foot != "" then v.look.foot else was.look.foot)
            && look.anchor == was.look.anchor
    ensures var keepsQuotes := was.Scalar? && v.Scalar? && v.tag == "!!str" && v.value != ""
                               && was.look.quoting in {SingleQuoted, DoubleQuoted};
            CarryPresentation(was, v).look.quoting == if keepsQuotes then was.look.quoting else v.look.quoting
    ensures var keepsFlow := (was.Mapping? && v.Mapping? && was.entries != [])
        || (was.Sequence? && v.Sequence? && was.items != []);
            CarryPresentation(was, v).look.flow <==> v.look.flow || (keepsFlow && was.look.flow)
  {
  }

  lemma FindAfterUpdate(entries: seq<(string, Node)>, key: string, child: Node, q: string)
    requires Find(entries, key).Some?
    ensures Find(entries[Find(entries, key).value := (key, child)], q) == Find(entries, q)
  {
    var i := Find(entries, key).value;
    var updated := entries[i := (key, child)];
    assert forall k :: 0 <= k < |entries| ==> updated[k].0 == entries[k].0;
    if Find(updated, q).Some? && Find(entries, q).Some? {
      var a, b := Find(updated, q).value, Find(entries, q).value;
      assert updated[a].0 == entries[a].0 && updated[b].0 == entries[b].0;
    }
  }

  lemma FindAfterAppend(entries: seq<(string, Node)>, key: string, child: Node, q: string)
    requires Find(entries, key).None?
    ensures Find(entries + [(key, child)], q) == if q == key then Some(|entries|) else Find(entries, q)
  {
    var longer := entries + [(key, child)];
    assert longer[|entries|].0 == key;
    match Find(longer, q)
    case None =>
      assert forall k :: 0 <= k < |entries| ==> entries[k] == longer[k];
    case Some(i) =>
      assert i < |entries| ==> entries[i] == longer[i];
      assert forall k :: 0 <= k < |entries| ==> entries[k] == longer[k];
  }

  /** The node the edit leaves in the tree, or the old one when nothing changed. */
  ghost function Result(n: Node, r: Edit): Node {
    if r.Changed? then r.node else n
  }

  /** After a Set that did not fail, the path holds the new value, and everything below it is what
      the new value holds there. */
  lemma {:induction false} SetHolds(n: Node, keys: Path, v: Node) returns (held: Node)
    requires n.Mapping? && keys != []
    requires !SetIn(n, keys, v).NotAMapping?
    ensures Lookup(Result(n, SetIn(n, keys, v)), keys) == Some(held)
    ensures SameValue(held, v)
    decreases |keys|
  {
    var key, rest := keys[0], keys[1..];
    match Find(n.entries, key)
    case None =>
      held := v;
      var child := if rest == [] then v else SetIn(EMPTY_MAPPING, rest, v).node;
      FindAfterAppend(n.entries, key, child, key);
      if rest != [] {
        held := SetHolds(EMPTY_MAPPING, rest, v);
      }
    case Some(i) =>
      var was := n.entries[i].1;
      if rest == [] {
        held := CarryPresentation(was, v);
        CarriedValue(was, v);
        FindAfterUpdate(n.entries, key, held, key);
      } else {
        var level := if IsNull(was) then MappingForNull(was) else was;
        held := SetHolds(level, rest, v);
        FindAfterUpdate(n.entries, key, Result(level, SetIn(level, rest, v)), key);
      }
  }

  // ---- The whole tree after an edit ----

  /** The tree with x in the place of what is at path. */
  function Put(n: Node, path: Path, x: Node): Node
    requires Lookup(n, path).Some?
    decreases |path|
  {
    if path == [] then x
    else
      var i := Find(n.entries, path[0]).value;
      Mapping(n.entries[i := (path[0], Put(n.entries[i].1, path[1..], x))], n.look)
  }

  /** v below one new block mapping a key. */
  function Chain(keys: Path, v: Node): Node {
    if keys == [] then v else Mapping([(keys[0], Chain(keys[1..], v))], Look("", "", "", "", false, Plain))
  }

  lemma {:induction false} SetInEmpty(keys: Path, v: Node)
    requires keys != []
    ensures SetIn(EMPTY_MAPPING, keys, v) == Changed(Chain(keys, v))
    decreases |keys|
  {
    if |keys| > 1 {
      SetInEmpty(keys[1..], v);
    }
    assert EMPTY_MAPPING.entries + [(keys[0], Chain(keys[1..], v))] == [(keys[0], Chain(keys[1..], v))];
  }

  /** A Set of a path that is there: the tree is what it was, every level, entry and comment, but for the
      one node, which holds v as it looked before; it is Same exactly when that was there already. */
  lemma {:induction false} SetReplacesOneNode(n: Node, keys: Path, v: Node)
    requires n.Mapping? && keys != [] && Lookup(n, keys).Some?
    ensures var was := Lookup(n, keys).value;
            var held := CarryPresentation(was, v);
            SetIn(n, keys, v) == if held == was then Same else Changed(Put(n, keys, held))
    decreases |keys|
  {
    if |keys| > 1 {
      SetReplacesOneNode(n.entries[Find(n.entries, keys[0]).value].1, keys[1..], v);
    }
  }

  /** The tree a Set leaves that finds its path down to level and no further. */
  function Extended(n: Node, path: Path, level: Node, missing: Path, v: Node): Edit
    requires missing != [] && Lookup(n, path) == Some(level)
  {
    var entry := (missing[0], Chain(missing[1..], v));
    match level
    case Mapping(entries, look) =>
      Changed(Put(n, path, Mapping(entries + [entry], if entries == [] then look.(flow := false) else look)))
    case Scalar(tag, _, look) =>
      if tag == "!!null" then Changed(Put(n, path,
          Mapping([entry], Look(look.head, look.line, look.foot, "", false, Plain))))
      else NotAMapping
    case _ => NotAMapping
  }

  /** A Set of a path that is there only down to a level: that level gains, last, one entry with the missing
      keys below each other and v at the end; a null there first becomes a mapping with its comments, an
      empty flow mapping a block one, and anything else refuses. The rest of the tree is what it was. */
  lemma {:induction false} SetExtendsOneLevel(n: Node, keys: Path, v: Node, d: nat)
    requires n.Mapping? && d < |keys| && Lookup(n, keys[..d]).Some? && Lookup(n, keys[..d + 1]).None?
    ensures SetIn(n, keys, v) == Extended(n, keys[..d], Lookup(n, keys[..d]).value, keys[d..], v)
    decreases |keys|
  {
    var key, rest := keys[0], keys[1..];
    if d == 0 {
      assert keys[..1] == [key] && keys[0..] == keys;
      LookupOne(n, key);
      if rest != [] {
        SetInEmpty(rest, v);
      }
    } else {
      assert keys[..d][1..] == rest[..d - 1] && keys[..d + 1][1..] == rest[..d] && keys[d..] == rest[d - 1..];
      var child := n.entries[Find(n.entries, key).value].1;
      if child.Mapping? {
        SetExtendsOneLevel(child, rest, v, d - 1);
      } else {
        assert d == 1;
        SetBelowLeaf(n, keys, v);
      }
    }
  }

  lemma LookupOne(n: Node, key: string)
    requires n.Mapping?
    ensures Lookup(n, [key]).Some? <==> Find(n.entries, key).Some?
  {
    assert [key][1..] == [];
  }

  /** The level right below n holds no mapping. */
  lemma SetBelowLeaf(n: Node, keys: Path, v: Node)
    requires n.Mapping? && |keys| > 1 && Find(n.entries, keys[0]).Some?
    requires !n.entries[Find(n.entries, keys[0]).value].1.Mapping?
    ensures Lookup(n, keys[..1]).Some?
    ensures SetIn(n, keys, v) == Extended(n, keys[..1], Lookup(n, keys[..1]).value, keys[1..], v)
  {
    var i := Find(n.entries, keys[0]).value;
    var child := n.entries[i].1;
    assert keys[..1] == [keys[0]] && [keys[0]][1..] == [] && Lookup(n, [keys[0]]) == Some(child);
    forall x: Node ensures Put(n, [keys[0]], x) == Mapping(n.entries[i := (keys[0], x)], n.look) {
      assert Put(child, [], x) == x;
    }
    if IsNull(child) {
      SetInNullLevel(child, keys[1..], v);
    }
  }

  lemma SetInNullLevel(was: Node, keys: Path, v: Node)
    requires was.Scalar? && keys != []
    ensures var level := Mapping([], Look(was.look.head, was.look.line, was.look.foot, "", false, Plain));
            MappingForNull(was) == level
            && SetIn(level, keys, v) == Changed(level.(entries := [(keys[0], Chain(keys[1..], v))]))
  {
    if |keys| > 1 {
      SetInEmpty(keys[1..], v);
    }
    var entry := (keys[0], Chain(keys[1..], v));
    assert [] + [entry] == [entry];
  }

  /** A Delete cuts one entry, the first under the last key, out of the mapping above it and leaves the rest
      of the tree as it was; where there is no such entry it does nothing. */
  lemma {:induction false} DeleteCutsOneEntry(n: Node, keys: Path)
    requires keys != []
    ensures var above, leaf := keys[..|keys| - 1], keys[|keys| - 1];
            var parent := Lookup(n, above);
            if parent.Some? && parent.value.Mapping? && Find(parent.value.entries, leaf).Some? then
              var entries, i := parent.value.entries, Find(parent.value.entries, leaf).value;
              DeleteIn(n, keys) == Some(Put(n, above, Mapping(entries[..i] + entries[i + 1..], parent.value.look)))
            else DeleteIn(n, keys).None?
    decreases |keys|
  {
    var above := keys[..|keys| - 1];
    if |keys| > 1 {
      assert above[1..] == keys[1..][..|keys[1..]| - 1] && above[0] == keys[0];
      if n.Mapping? && Find(n.entries, keys[0]).Some? {
        DeleteCutsOneEntry(n.entries[Find(n.entries, keys[0]).value].1, keys[1..]);
      }
    }
  }

  lemma UnrelatedBelow(keys: Path, q: Path)
    requires keys != [] && Unrelated(keys, q)
    ensures q != []
    ensures q[0] == keys[0] ==> keys[1..] != [] && q[1..] != [] && Unrelated(keys[1..], q[1..])
  {
    assert keys == [keys[0]] + keys[1..];
    if q[0] == keys[0] {
      assert q == [q[0]] + q[1..];
    }
  }

  lemma NothingInEmpty(look: Look, q: Path)
    requires q != []
    ensures Lookup(Mapping([], look), q).None?
  {
  }

  /** Paths that lead neither to nor through the edited one look up as before. */
  lemma {:induction false} SetLeavesOthers(n: Node, keys: Path, v: Node, q: Path)
    requires n.Mapping? && keys != [] && Unrelated(keys, q)
    ensures Lookup(Result(n, SetIn(n, keys, v)), q) == Lookup(n, q)
    decreases |keys|
  {
    var key, rest, below := keys[0], keys[1..], q[1..];
    UnrelatedBelow(keys, q);
    match Find(n.entries, key)
    case None =>
      var child := if rest == [] then v else SetIn(EMPTY_MAPPING, rest, v).node;
      FindAfterAppend(n.entries, key, child, q[0]);
      if q[0] == key {
        SetLeavesOthers(EMPTY_MAPPING, rest, v, below);
        NothingInEmpty(NO_LOOK, below);
      }
    case Some(i) =>
      var was := n.entries[i].1;
      if SetIn(n, keys, v).Changed? {
        SetChangesOneEntry(n, keys, v, q[0]);
        if q[0] == key {
          if IsNull(was) {
            SetLeavesOthers(MappingForNull(was), rest, v, below);
            NothingInEmpty(MappingForNull(was).look, below);
          } else {
            SetLeavesOthers(was, rest, v, below);
          }
        }
      }
  }

  lemma SetChangesOneEntry(n: Node, keys: Path, v: Node, q: string)
    requires n.Mapping? && keys != []
    requires Find(n.entries, keys[0]).Some? && SetIn(n, keys, v).Changed?
    ensures var i := Find(n.entries, keys[0]).value;
            var was := n.entries[i].1;
            var level := if IsNull(was) then MappingForNull(was) else was;
            var after := SetIn(n, keys, v).node.entries;
            && Find(after, q) == Find(n.entries, q)
            && (q != keys[0] && Find(n.entries, q).Some? ==>
                after[Find(n.entries, q).value] == n.entries[Find(n.entries, q).value])
            && (|keys| > 1 ==> level.Mapping? && after[i].1 == Result(level, SetIn(level, keys[1..], v)))
  {
    var i := Find(n.entries, keys[0]).value;
    FindAfterUpdate(n.entries, keys[0], SetIn(n, keys, v).node.entries[i].1, q);
  }

  /** A Set fails exactly when some level above the key holds a value that is neither a mapping nor
      null; what it then leaves behind is the tree it found. */
  lemma {:induction false} SetFailsExactlyOnForeignLevel(n: Node, keys: Path, v: Node)
    requires n.Mapping? && keys != []
    ensures SetIn(n, keys, v).NotAMapping? <==>
            exists d :: 0 < d < |keys| && Lookup(n, keys[..d]).Some?
                        && !Lookup(n, keys[..d]).value.Mapping? && !IsNull(Lookup(n, keys[..d]).value)
    decreases |keys|
  {
    var key, rest := keys[0], keys[1..];
    forall d | 0 < d < |keys|
      ensures Find(n.entries, key).None? ==> Lookup(n, keys[..d]).None?
      ensures Find(n.entries, key).Some? ==>
          Lookup(n, keys[..d]) == Lookup(n.entries[Find(n.entries, key).value].1, rest[..d - 1])
    {
      assert keys[..d][1..] == rest[..d - 1];
    }
    match Find(n.entries, key)
    case None =>
    case Some(i) =>
      var was := n.entries[i].1;
      if rest != [] {
        assert Lookup(n, keys[..1]) == Some(was);
        if was.Mapping? {
          SetFailsExactlyOnForeignLevel(was, rest, v);
          forall d | 0 < d < |rest|
            ensures Lookup(n, keys[..d + 1]) == Lookup(was, rest[..d])
          {
          }
        }
      }
  }

  /** Set never makes two entries of one mapping share a key. */
  lemma {:induction false} SetKeepsKeysUnique(n: Node, keys: Path, v: Node)
    requires n.Mapping? && keys != [] && UniqueKeys(n) && UniqueKeys(v)
    ensures SetIn(n, keys, v).Changed? ==> UniqueKeys(SetIn(n, keys, v).node)
    decreases |keys|
  {
    var key, rest := keys[0], keys[1..];
    match Find(n.entries, key)
    case None =>
      if rest != [] {
        SetKeepsKeysUnique(EMPTY_MAPPING, rest, v);
      }
    case Some(i) =>
      var was := n.entries[i].1;
      assert n.entries[i] in n.entries;
      if rest != [] && (IsNull(was) || was.Mapping?) {
        SetKeepsKeysUnique(if IsNull(was) then MappingForNull(was) else was, rest, v);
      }
  }

  /** The one case a repeated Set is not idle: the new value is an empty collection in block style
      and takes the place of a non-empty flow one. YAML writes empty collections in flow style, so
      an encoded value never is that. */
  predicate FlowFlips(held: Node, v: Node) {
    Collection(v) && Empty(v) && !v.look.flow && held.look.flow
  }

  lemma CarryTwice(was: Node, v: Node)
    ensures var held := CarryPresentation(was, v); CarryPresentation(held, v) == held <==> !FlowFlips(held, v)
  {
  }

  lemma CarryOntoItself(v: Node)
    ensures CarryPresentation(v, v) == v
  {
  }

  lemma SetTwiceAtLeaf(n: Node, key: string, v: Node)
    requires n.Mapping?
    ensures FoundAgain(Result(n, SetIn(n, [key], v)), [key], v)
  {
    match Find(n.entries, key)
    case None =>
      FindAfterAppend(n.entries, key, v, key);
      CarryOntoItself(v);
    case Some(i) =>
      var was := n.entries[i].1;
      CarryTwice(was, v);
      FindAfterUpdate(n.entries, key, CarryPresentation(was, v), key);
  }

  /** A second Set of v finds it at keys in tree exactly when it does not flip there. */
  ghost predicate FoundAgain(tree: Node, keys: Path, v: Node)
    requires keys != []
  {
    && tree.Mapping? && Lookup(tree, keys).Some?
    && (SetIn(tree, keys, v).Same? <==> !FlowFlips(Lookup(tree, keys).value, v))
  }

  /** It finds it below an entry when it finds it in the level the entry holds. */
  lemma FoundAgainBelow(tree: Node, keys: Path, v: Node)
    requires |keys| > 1 && tree.Mapping? && Find(tree.entries, keys[0]).Some?
    requires FoundAgain(tree.entries[Find(tree.entries, keys[0]).value].1, keys[1..], v)
    ensures FoundAgain(tree, keys, v)
  {
  }

  /** Setting the same value again finds it there and changes nothing. */
  lemma {:induction false} SetTwiceIsSetOnce(n: Node, keys: Path, v: Node)
    requires n.Mapping? && keys != [] && !SetIn(n, keys, v).NotAMapping?
    ensures FoundAgain(Result(n, SetIn(n, keys, v)), keys, v)
    decreases |keys|
  {
    var key, rest := keys[0], keys[1..];
    if rest == [] {
      assert keys == [key];
      SetTwiceAtLeaf(n, key, v);
    } else {
      match Find(n.entries, key)
      case None =>
        FindAfterAppend(n.entries, key, SetIn(EMPTY_MAPPING, rest, v).node, key);
        SetTwiceIsSetOnce(EMPTY_MAPPING, rest, v);
        FoundAgainBelow(Result(n, SetIn(n, keys, v)), keys, v);
      case Some(i) =>
        var was := n.entries[i].1;
        var level := if IsNull(was) then MappingForNull(was) else was;
        SetTwiceIsSetOnce(level, rest, v);
        FindAfterUpdate(n.entries, key, Result(level, SetIn(level, rest, v)), key);
        FoundAgainBelow(Result(n, SetIn(n, keys, v)), keys, v);
    }
  }

  lemma FindAfterWithout(entries: seq<(string, Node)>, key: string, q: string)
    requires Find(entries, key).Some?
    requires forall i, j :: 0 <= i < j < |entries| ==> entries[i].0 != entries[j].0
    ensures var i := Find(entries, key).value;
            var left := Without(entries, i);
            && (q == key ==> Find(left, q).None?)
            && (q != key ==> (Find(left, q).Some? <==> Find(entries, q).Some?))
            && (q != key && Find(left, q).Some? ==> left[Find(left, q).value] == entries[Find(entries, q).value])
  {
    var i := Find(entries, key).value;
    var left := Without(entries, i);
    assert forall k :: 0 <= k < |left| ==> left[k] == entries[if k < i then k else k + 1];
    if q != key && Find(entries, q).Some? {
      var j := Find(entries, q).value;
      assert left[if j < i then j else j - 1] == entries[j];
    }
  }

  /** Delete reports whether the path was there, and makes exactly that path and what lies below it
      absent. */
  lemma {:induction false} DeleteRemovesExactly(n: Node, keys: Path, q: Path)
    requires keys != [] && UniqueKeys(n)
    ensures DeleteIn(n, keys).Some? <==> Lookup(n, keys).Some?
    ensures DeleteIn(n, keys).Some? && keys <= q ==> Lookup(DeleteIn(n, keys).value, q).None?
    ensures DeleteIn(n, keys).Some? && Unrelated(keys, q) ==> Lookup(DeleteIn(n, keys).value, q) == Lookup(n, q)
    decreases |keys|
  {
    if n.Mapping? && Find(n.entries, keys[0]).Some? {
      var key, rest := keys[0], keys[1..];
      var i := Find(n.entries, key).value;
      assert n.entries[i] in n.entries;
      if q != [] && q[0] == key {
        assert keys == [key] + rest && q == [key] + q[1..];
        assert keys <= q <==> rest <= q[1..];
        assert q <= keys <==> q[1..] <= rest;
      }
      if rest == [] {
        if q != [] {
          FindAfterWithout(n.entries, key, q[0]);
        }
      } else {
        DeleteRemovesExactly(n.entries[i].1, rest, if q == [] then [] else q[1..]);
        if DeleteIn(n, keys).Some? && q != [] {
          FindAfterUpdate(n.entries, key, DeleteIn(n.entries[i].1, rest).value, q[0]);
        }
      }
    }
  }

  /** Deleting a key that a Set just added to a mapping its author had put keys in gives the tree back. */
  lemma {:induction false} DeleteUndoesAdd(n: Node, keys: Path, v: Node)
    requires n.Mapping? && keys != []
    requires Lookup(n, keys).None?
    requires Lookup(n, keys[..|keys| - 1]).Some? && Lookup(n, keys[..|keys| - 1]).value.Mapping?
    requires !Empty(Lookup(n, keys[..|keys| - 1]).value)
    ensures SetIn(n, keys, v).Changed? && DeleteIn(SetIn(n, keys, v).node, keys) == Some(n)
    decreases |keys|
  {
    var key, rest := keys[0], keys[1..];
    if rest == [] {
      assert keys[..0] == [];
      assert Lookup(n.entries[0].1, rest).Some?;
      assert Find(n.entries, key).None?;
      FindAfterAppend(n.entries, key, v, key);
      assert Without(n.entries + [(key, v)], |n.entries|) == n.entries;
    } else {
      assert keys[..|keys| - 1][1..] == rest[..|rest| - 1];
      var i := Find(n.entries, key).value;
      var was := n.entries[i].1;
      DeleteUndoesAdd(was, rest, v);
      FindAfterUpdate(n.entries, key, SetIn(was, rest, v).node, key);
      assert n.entries[i := (key, SetIn(was, rest, v).node)][i := (key, was)] == n.entries;
    }
  }
}
