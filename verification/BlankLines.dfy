/** Putting back the blank lines a YAML re-encode drops: a longest-common-subsequence table over the
    lines and a tie-broken walk along it. */
module BlankLines {
  type Line = string

  predicate IsSpace(c: char) {
    var u := c as int;
    || 0x09 <= u <= 0x0D || u == 0x20 || u == 0x85 || u == 0xA0 || u == 0x1680
    || 0x2000 <= u <= 0x200A || u == 0x2028 || u == 0x2029 || u == 0x202F || u == 0x205F || u == 0x3000
  }

  /** strings.TrimSpace leaves nothing of it. */
  predicate Blank(l: Line) {
    forall c :: c in l ==> IsSpace(c)
  }

  // ---- Lines of a text ----

  function Split(s: string): (lines: seq<Line>)
    ensures lines != []
  {
    if s == "" then [""]
    else
      var rest := Split(s[1..]);
      if s[0] == '\n' then [""] + rest else [[s[0]] + rest[0]] + rest[1..]
  }

  function Join(lines: seq<Line>): string {
    if |lines| == 0 then "" else if |lines| == 1 then lines[0] else lines[0] + "\n" + Join(lines[1..])
  }

  function TrimNewline(s: string): string {
    if s != "" && s[|s| - 1] == '\n' then s[..|s| - 1] else s
  }

  function SplitLines(data: string): seq<Line> {
    if TrimNewline(data) == "" then [] else Split(TrimNewline(data))
  }

  lemma {:induction false} JoinUndoesSplit(s: string)
    ensures Join(Split(s)) == s
  {
    if s != "" {
      JoinUndoesSplit(s[1..]);
      var rest := Split(s[1..]);
      assert s == [s[0]] + s[1..];
      if s[0] == '\n' {
        assert ([""] + rest)[1..] == rest;
      } else if |rest| > 1 {
        assert Split(s)[1..] == rest[1..];
        assert [s[0]] + (rest[0] + "\n" + Join(rest[1..])) == ([s[0]] + rest[0]) + "\n" + Join(rest[1..]);
      }
    }
  }

  ghost predicate NewlineFree(lines: seq<Line>) {
    forall l :: l in lines ==> '\n' !in l
  }

  lemma {:induction false} SplitIsNewlineFree(s: string)
    ensures NewlineFree(Split(s))
  {
    if s != "" {
      SplitIsNewlineFree(s[1..]);
      var rest := Split(s[1..]);
      assert rest[0] in rest;
      forall l | l in Split(s) ensures '\n' !in l {
        if s[0] != '\n' && l in rest[1..] {
          assert l in rest;
        }
      }
    }
  }

  /** The lines of a text are the only newline-free ones that join to it. */
  lemma {:induction false} LinesAreUnique(lines: seq<Line>)
    requires lines != [] && NewlineFree(lines)
    ensures Split(Join(lines)) == lines
  {
    assert lines[0] in lines;
    if |lines| == 1 {
      SplitOfOne(lines[0]);
      assert lines == [lines[0]];
    } else {
      forall l | l in lines[1..] ensures '\n' !in l {
        assert l in lines;
      }
      LinesAreUnique(lines[1..]);
      SplitAtFirst(lines[0], Join(lines[1..]));
      assert lines == [lines[0]] + lines[1..];
      assert lines[0] + "\n" + Join(lines[1..]) == lines[0] + ("\n" + Join(lines[1..]));
    }
  }

  lemma {:induction false} SplitOfOne(l: Line)
    requires '\n' !in l
    ensures Split(l) == [l]
  {
    if l != "" {
      assert l[0] in l && forall c :: c in l[1..] ==> c in l;
      SplitOfOne(l[1..]);
      assert [l[0]] + l[1..] == l;
    }
  }

  lemma {:induction false} SplitAtFirst(l: Line, rest: string)
    requires '\n' !in l
    ensures Split(l + ("\n" + rest)) == [l] + Split(rest)
  {
    var s := l + ("\n" + rest);
    if l == "" {
      assert s[0] == '\n' && s[1..] == rest;
    } else {
      assert l[0] in l && forall c :: c in l[1..] ==> c in l;
      SplitAtFirst(l[1..], rest);
      assert s[1..] == l[1..] + ("\n" + rest) && s[0] == l[0];
      assert ([l[1..]] + Split(rest))[1..] == Split(rest);
      assert [l[0]] + l[1..] == l;
    }
  }

  /** The lines of a file, one final newline apart; a file of nothing more has none. */
  lemma LinesOfFile(data: string)
    ensures NewlineFree(SplitLines(data))
    ensures SplitLines(data) == [] <==> data == "" || data == "\n"
    ensures SplitLines(data) != [] ==> data == Join(SplitLines(data)) || data == Join(SplitLines(data)) + "\n"
    ensures SplitLines(data) != [] ==> (data == Join(SplitLines(data)) <==> data[|data| - 1] != '\n')
  {
    SplitIsNewlineFree(TrimNewline(data));
    JoinUndoesSplit(TrimNewline(data));
    if data != "" && data[|data| - 1] == '\n' {
      assert data == data[..|data| - 1] + "\n";
    }
  }

  // ---- Longest common subsequence ----

  function Lcs(a: seq<Line>, b: seq<Line>): nat
    decreases |a| + |b|
  {
    if a == [] || b == [] then 0
    else if a[0] == b[0] then 1 + Lcs(a[1..], b[1..])
    else Max(Lcs(a[1..], b), Lcs(a, b[1..]))
  }

  function Max(x: nat, y: nat): nat {
    if x < y then y else x
  }

  /** s is left when some elements of t are crossed out. */
  ghost predicate Subsequence(s: seq<Line>, t: seq<Line>) {
    if s == [] then true
    else if t == [] then false
    else (s[0] == t[0] && Subsequence(s[1..], t[1..])) || Subsequence(s, t[1..])
  }

  lemma {:induction false} DropHead(s: seq<Line>, t: seq<Line>)
    requires s != [] && Subsequence(s, t)
    ensures t != [] && Subsequence(s[1..], t[1..])
  {
    if !(s[0] == t[0] && Subsequence(s[1..], t[1..])) {
      DropHead(s, t[1..]);
      WidenTail(s[1..], t[1..]);
    }
  }

  lemma {:induction false} WidenTail(s: seq<Line>, t: seq<Line>)
    requires t != [] && Subsequence(s, t[1..])
    ensures Subsequence(s, t)
  {
  }

  /** No common subsequence is longer than the table says. */
  lemma {:induction false} LcsIsUpperBound(a: seq<Line>, b: seq<Line>, s: seq<Line>)
    requires Subsequence(s, a) && Subsequence(s, b)
    ensures |s| <= Lcs(a, b)
    decreases |a| + |b|
  {
    if s == [] || a == [] || b == [] {
    } else if a[0] == b[0] {
      DropHead(s, a);
      DropHead(s, b);
      LcsIsUpperBound(a[1..], b[1..], s[1..]);
    } else if s[0] == a[0] {
      assert Subsequence(s, b[1..]);
      LcsIsUpperBound(a, b[1..], s);
    } else {
      LcsIsUpperBound(a[1..], b, s);
    }
  }

  /** A common subsequence as long as the table says. */
  lemma {:induction false} LcsIsReached(a: seq<Line>, b: seq<Line>) returns (s: seq<Line>)
    ensures Subsequence(s, a) && Subsequence(s, b) && |s| == Lcs(a, b)
    decreases |a| + |b|
  {
    if a == [] || b == [] {
      s := [];
    } else if a[0] == b[0] {
      var t := LcsIsReached(a[1..], b[1..]);
      s := [a[0]] + t;
      assert s[1..] == t;
    } else if Lcs(a[1..], b) >= Lcs(a, b[1..]) {
      s := LcsIsReached(a[1..], b);
      WidenTail(s, a);
    } else {
      s := LcsIsReached(a, b[1..]);
      WidenTail(s, b);
    }
  }

  lemma {:induction false} LcsAtMostNew(a: seq<Line>, b: seq<Line>)
    ensures Lcs(a, b) <= |b|
    decreases |a| + |b|
  {
    if a != [] && b != [] {
      LcsAtMostNew(a[1..], b[1..]);
      LcsAtMostNew(a[1..], b);
      LcsAtMostNew(a, b[1..]);
    }
  }

  // ---- The walk ----

  datatype Origin = Both | NewOnly | OldOnly

  datatype Emitted = Emitted(line: Line, origin: Origin)

  /** The walk from the first lines of a (original) and b (re-encoded). */
  function Merge(a: seq<Line>, b: seq<Line>): seq<Emitted>
    decreases |a| + |b|
  {
    if a == [] && b == [] then []
    else if a != [] && b != [] && a[0] == b[0] then [Emitted(b[0], Both)] + Merge(a[1..], b[1..])
    else if b != [] && (a == [] || Lcs(a, b[1..]) >= Lcs(a[1..], b)) then [Emitted(b[0], NewOnly)] + Merge(a, b[1..])
    else (if Blank(a[0]) then [Emitted(a[0], OldOnly)] else []) + Merge(a[1..], b)
  }

  function Lines(es: seq<Emitted>): seq<Line> {
    if es == [] then [] else [es[0].line] + Lines(es[1..])
  }

  /** The emitted lines that are also in the re-encode. */
  function NewLines(es: seq<Emitted>): seq<Line> {
    if es == [] then [] else (if es[0].origin != OldOnly then [es[0].line] else []) + NewLines(es[1..])
  }

  /** The emitted lines that are also in the original. */
  function OldLines(es: seq<Emitted>): seq<Line> {
    if es == [] then [] else (if es[0].origin != NewOnly then [es[0].line] else []) + OldLines(es[1..])
  }

  function Matched(es: seq<Emitted>): nat {
    if es == [] then 0 else (if es[0].origin == Both then 1 else 0) + Matched(es[1..])
  }

  function BlankOnes(lines: seq<Line>): seq<Line> {
    if lines == [] then [] else (if Blank(lines[0]) then [lines[0]] else []) + BlankOnes(lines[1..])
  }

  /** The result is the re-encoded lines in order with only blank original lines between them, every
      blank original line appears and in its order, and the walk aligned as many lines as any
      alignment can. */
  lemma {:induction false} MergeKeepsBothSides(a: seq<Line>, b: seq<Line>)
    ensures NewLines(Merge(a, b)) == b
    ensures forall e :: e in Merge(a, b) && e.origin == OldOnly ==> Blank(e.line)
    ensures BlankOnes(OldLines(Merge(a, b))) == BlankOnes(a)
    ensures Matched(Merge(a, b)) == Lcs(a, b)
    decreases |a| + |b|
  {
    var es := Merge(a, b);
    if a == [] && b == [] {
    } else if a != [] && b != [] && a[0] == b[0] {
      MergeKeepsBothSides(a[1..], b[1..]);
      assert es[1..] == Merge(a[1..], b[1..]);
      assert OldLines(es)[1..] == OldLines(es[1..]);
      assert b == [b[0]] + b[1..];
    } else if b != [] && (a == [] || Lcs(a, b[1..]) >= Lcs(a[1..], b)) {
      MergeKeepsBothSides(a, b[1..]);
      assert es[1..] == Merge(a, b[1..]);
      assert OldLines(es) == OldLines(es[1..]);
      assert b == [b[0]] + b[1..];
    } else {
      MergeKeepsBothSides(a[1..], b);
      if Blank(a[0]) {
        assert es[1..] == Merge(a[1..], b);
        assert OldLines(es)[1..] == OldLines(es[1..]);
      } else {
        assert es == Merge(a[1..], b);
      }
    }
  }

  // ---- Where the walk puts what ----

  /** A step of an alignment: an equal line of both, a line of the re-encode alone, a line of the original
      alone. */
  datatype Move = Match | TakeNew | PassOld

  /** The moves use up a and b. */
  predicate Aligns(ms: seq<Move>, a: seq<Line>, b: seq<Line>) {
    if ms == [] then a == [] && b == []
    else match ms[0]
      case Match => a != [] && b != [] && a[0] == b[0] && Aligns(ms[1..], a[1..], b[1..])
      case TakeNew => b != [] && Aligns(ms[1..], a, b[1..])
      case PassOld => a != [] && Aligns(ms[1..], a[1..], b)
  }

  function Matches(ms: seq<Move>): nat {
    if ms == [] then 0 else (if ms[0] == Match then 1 else 0) + Matches(ms[1..])
  }

  /** What an alignment writes: the re-encode's lines, and the blank ones of the original it passes. */
  function Written(ms: seq<Move>, a: seq<Line>, b: seq<Line>): seq<Line>
    requires Aligns(ms, a, b)
  {
    if ms == [] then []
    else match ms[0]
      case Match => [b[0]] + Written(ms[1..], a[1..], b[1..])
      case TakeNew => [b[0]] + Written(ms[1..], a, b[1..])
      case PassOld => (if Blank(a[0]) then [a[0]] else []) + Written(ms[1..], a[1..], b)
  }

  function Rank(m: Move): nat {
    match m case Match => 0 case TakeNew => 1 case PassOld => 2
  }

  /** At the first difference, ms matches where ms' does not, or takes the new line where ms' passes an old
      one. */
  predicate NotAfter(ms: seq<Move>, ms': seq<Move>) {
    if ms == [] || ms' == [] then ms == ms'
    else if ms[0] == ms'[0] then NotAfter(ms[1..], ms'[1..])
    else Rank(ms[0]) < Rank(ms'[0])
  }

  lemma {:induction false} MatchesAtMostLcs(ms: seq<Move>, a: seq<Line>, b: seq<Line>)
    requires Aligns(ms, a, b)
    ensures Matches(ms) <= Lcs(a, b)
  {
    if ms != [] {
      match ms[0]
      case Match => MatchesAtMostLcs(ms[1..], a[1..], b[1..]);
      case TakeNew =>
        MatchesAtMostLcs(ms[1..], a, b[1..]);
        LcsOfLess(a, b);
      case PassOld =>
        MatchesAtMostLcs(ms[1..], a[1..], b);
        LcsOfLess(a, b);
    }
  }

  lemma {:induction false} LcsOfLess(a: seq<Line>, b: seq<Line>)
    ensures b != [] ==> Lcs(a, b[1..]) <= Lcs(a, b) <= Lcs(a, b[1..]) + 1
    ensures a != [] ==> Lcs(a[1..], b) <= Lcs(a, b) <= Lcs(a[1..], b) + 1
    decreases |a| + |b|
  {
    if a != [] && b != [] {
      LcsOfLess(a[1..], b[1..]);
      LcsOfLess(a[1..], b);
      LcsOfLess(a, b[1..]);
    }
  }

  /** ms aligns a and b with as many matches as there can be, and writes what the walk does. */
  ghost predicate WalksAlong(ms: seq<Move>, a: seq<Line>, b: seq<Line>) {
    Aligns(ms, a, b) && Written(ms, a, b) == Lines(Merge(a, b)) && Matches(ms) == Lcs(a, b)
  }

  ghost predicate FirstBest(ms: seq<Move>, a: seq<Line>, b: seq<Line>) {
    forall ms' :: Aligns(ms', a, b) && Matches(ms') == Lcs(a, b) ==> NotAfter(ms, ms')
  }

  lemma MatchFirst(rest: seq<Move>, a: seq<Line>, b: seq<Line>)
    requires a != [] && b != [] && a[0] == b[0] && WalksAlong(rest, a[1..], b[1..]) && FirstBest(rest, a[1..], b[1..])
    ensures WalksAlong([Match] + rest, a, b) && FirstBest([Match] + rest, a, b)
  {
    var ms := [Match] + rest;
    assert ms[1..] == rest && Merge(a, b)[1..] == Merge(a[1..], b[1..]);
    forall ms' | Aligns(ms', a, b) && Matches(ms') == Lcs(a, b) ensures NotAfter(ms, ms') {
    }
  }

  lemma TakeFirst(rest: seq<Move>, a: seq<Line>, b: seq<Line>)
    requires b != [] && (a == [] || (a[0] != b[0] && Lcs(a, b[1..]) >= Lcs(a[1..], b)))
    requires WalksAlong(rest, a, b[1..]) && FirstBest(rest, a, b[1..])
    ensures WalksAlong([TakeNew] + rest, a, b) && FirstBest([TakeNew] + rest, a, b)
  {
    var ms := [TakeNew] + rest;
    assert ms[1..] == rest && Merge(a, b)[1..] == Merge(a, b[1..]);
    forall ms' | Aligns(ms', a, b) && Matches(ms') == Lcs(a, b) ensures NotAfter(ms, ms') {
    }
  }

  lemma PassFirst(rest: seq<Move>, a: seq<Line>, b: seq<Line>)
    requires a != [] && (b == [] || (a[0] != b[0] && Lcs(a, b[1..]) < Lcs(a[1..], b)))
    requires WalksAlong(rest, a[1..], b) && FirstBest(rest, a[1..], b)
    ensures WalksAlong([PassOld] + rest, a, b) && FirstBest([PassOld] + rest, a, b)
  {
    var ms := [PassOld] + rest;
    assert ms[1..] == rest;
    if Blank(a[0]) {
      assert Merge(a, b)[1..] == Merge(a[1..], b);
    } else {
      assert Merge(a, b) == Merge(a[1..], b) && [] + Written(rest, a[1..], b) == Written(rest, a[1..], b);
    }
    forall ms' | Aligns(ms', a, b) && Matches(ms') == Lcs(a, b) ensures NotAfter(ms, ms') {
      if ms'[0] == TakeNew {
        MatchesAtMostLcs(ms'[1..], a, b[1..]);
      }
    }
  }

  /** The walk is an alignment with as many matches as there can be, and of those the first: it matches as
      soon as it can, and takes new lines before it passes old ones, so a blank line that followed an edited
      block stays after the edit. Since that is a total order, it settles where every line goes. */
  lemma {:induction false} WalkIsTheFirstBest(a: seq<Line>, b: seq<Line>) returns (ms: seq<Move>)
    ensures Aligns(ms, a, b) && Written(ms, a, b) == Lines(Merge(a, b)) && Matches(ms) == Lcs(a, b)
    ensures forall ms' :: Aligns(ms', a, b) && Matches(ms') == Lcs(a, b) ==> NotAfter(ms, ms')
    decreases |a| + |b|
  {
    if a == [] && b == [] {
      ms := [];
    } else if a != [] && b != [] && a[0] == b[0] {
      ms := WalkIsTheFirstBest(a[1..], b[1..]);
      MatchFirst(ms, a, b);
      ms := [Match] + ms;
    } else if b != [] && (a == [] || Lcs(a, b[1..]) >= Lcs(a[1..], b)) {
      ms := WalkIsTheFirstBest(a, b[1..]);
      TakeFirst(ms, a, b);
      ms := [TakeNew] + ms;
    } else {
      ms := WalkIsTheFirstBest(a[1..], b);
      PassFirst(ms, a, b);
      ms := [PassOld] + ms;
    }
  }

  // ---- Undoing a re-encode that only dropped blank lines ----

  /** b is a with some blank lines deleted. */
  ghost predicate OnlyBlanksDeleted(a: seq<Line>, b: seq<Line>)
    decreases |a|
  {
    if a == [] then b == []
    else (b != [] && a[0] == b[0] && OnlyBlanksDeleted(a[1..], b[1..])) || (Blank(a[0]) && OnlyBlanksDeleted(a[1..], b))
  }

  /** If a was stretched over b by deletions, matching the first equal pair loses nothing: the line
      of a that b's first line came from can be swapped for a's own first line. */
  lemma {:induction false} MatchEarly(a: seq<Line>, b: seq<Line>)
    requires a != [] && b != [] && a[0] == b[0]
    requires OnlyBlanksDeleted(a, b)
    ensures OnlyBlanksDeleted(a[1..], b[1..])
    decreases |a|
  {
    if !OnlyBlanksDeleted(a[1..], b[1..]) {
      // a[0] was deleted, so it is blank, and so is every equal line after it.
      DeleteFirst(a[1..], b);
    }
  }

  lemma {:induction false} DeleteFirst(a: seq<Line>, b: seq<Line>)
    requires b != [] && Blank(b[0])
    requires OnlyBlanksDeleted(a, b)
    ensures OnlyBlanksDeleted(a, b[1..])
    decreases |a|
  {
    if a != [] && !(a[0] == b[0] && OnlyBlanksDeleted(a[1..], b[1..])) {
      DeleteFirst(a[1..], b);
    }
  }

  lemma {:induction false} DeletionsKeepAllOfNew(a: seq<Line>, b: seq<Line>)
    requires OnlyBlanksDeleted(a, b)
    ensures Lcs(a, b) == |b|
    decreases |a|
  {
    LcsAtMostNew(a, b);
    if a != [] && b != [] {
      if a[0] == b[0] {
        MatchEarly(a, b);
        DeletionsKeepAllOfNew(a[1..], b[1..]);
      } else {
        DeletionsKeepAllOfNew(a[1..], b);
      }
    }
  }

  lemma {:induction false} MergeRestores(a: seq<Line>, b: seq<Line>)
    requires OnlyBlanksDeleted(a, b)
    ensures Lines(Merge(a, b)) == a
    decreases |a|
  {
    if a != [] {
      assert a == [a[0]] + a[1..];
      if b != [] && a[0] == b[0] {
        MatchEarly(a, b);
        MergeRestores(a[1..], b[1..]);
        assert Merge(a, b)[1..] == Merge(a[1..], b[1..]);
      } else {
        DeletionsKeepAllOfNew(a[1..], b);
        if b != [] {
          LcsAtMostNew(a, b[1..]);
        }
        MergeRestores(a[1..], b);
        assert Merge(a, b)[1..] == Merge(a[1..], b);
      }
    }
  }

  lemma {:induction false} CrossedOutBlanks(es: seq<Emitted>)
    requires forall e :: e in es && e.origin == OldOnly ==> Blank(e.line)
    ensures OnlyBlanksDeleted(Lines(es), NewLines(es))
  {
    if es != [] {
      CrossedOutBlanks(es[1..]);
      assert es[0] in es;
      assert Lines(es)[1..] == Lines(es[1..]);
      if es[0].origin != OldOnly {
        assert NewLines(es)[1..] == NewLines(es[1..]);
      } else {
        assert NewLines(es) == NewLines(es[1..]);
      }
    }
  }

  /** The walk gives back the original exactly when all the re-encode did was drop blank lines, however
      many, wherever, and however ambiguous equal blank lines make the alignment. */
  lemma RestoresExactlyDroppedBlanks(a: seq<Line>, b: seq<Line>)
    ensures Lines(Merge(a, b)) == a <==> OnlyBlanksDeleted(a, b)
  {
    if OnlyBlanksDeleted(a, b) {
      MergeRestores(a, b);
    }
    MergeKeepsBothSides(a, b);
    CrossedOutBlanks(Merge(a, b));
  }

  // ---- The algorithm ----

  const MAX_BLANK_RESTORE_CELLS := 4 * 1024 * 1024

  predicate TooLarge(a: seq<Line>, b: seq<Line>) {
    (|a| + 1) * (|b| + 1) > MAX_BLANK_RESTORE_CELLS
  }

  function LcsAt(a: seq<Line>, b: seq<Line>, i: nat, j: nat): nat
    requires i <= |a| && j <= |b|
  {
    Lcs(a[i..], b[j..])
  }

  lemma LcsStep(a: seq<Line>, b: seq<Line>, i: nat, j: nat)
    requires i < |a| && j < |b|
    ensures LcsAt(a, b, i, j) ==
            if a[i] == b[j] then LcsAt(a, b, i + 1, j + 1) + 1
            else Max(LcsAt(a, b, i + 1, j), LcsAt(a, b, i, j + 1))
  {
    assert a[i..][1..] == a[i + 1..];
    assert b[j..][1..] == b[j + 1..];
  }

  /** Row i of the table is right from column j on. */
  ghost predicate RowFrom(a: seq<Line>, b: seq<Line>, lcs: array2<nat>, i: nat, j: nat)
    requires i <= |a| && lcs.Length0 == |a| + 1 && lcs.Length1 == |b| + 1
    reads lcs
  {
    forall y :: j <= y <= |b| ==> lcs[i, y] == LcsAt(a, b, i, y)
  }

  method FillRow(a: seq<Line>, b: seq<Line>, lcs: array2<nat>, i: nat)
    requires i < |a| && lcs.Length0 == |a| + 1 && lcs.Length1 == |b| + 1
    requires RowFrom(a, b, lcs, i + 1, 0) && RowFrom(a, b, lcs, i, |b|)
    modifies lcs
    ensures RowFrom(a, b, lcs, i, 0)
    ensures forall x :: i < x <= |a| && old(RowFrom(a, b, lcs, x, 0)) ==> RowFrom(a, b, lcs, x, 0)
    ensures forall x, y :: 0 <= x <= |a| && x != i && 0 <= y <= |b| ==> lcs[x, y] == old(lcs[x, y])
  {
    var j := |b|;
    while j > 0
      invariant 0 <= j <= |b|
      invariant RowFrom(a, b, lcs, i + 1, 0) && RowFrom(a, b, lcs, i, j)
      invariant forall x, y :: 0 <= x <= |a| && x != i && 0 <= y <= |b| ==> lcs[x, y] == old(lcs[x, y])
    {
      j := j - 1;
      LcsStep(a, b, i, j);
      if a[i] == b[j] {
        lcs[i, j] := lcs[i + 1, j + 1] + 1;
      } else {
        lcs[i, j] := Max(lcs[i + 1, j], lcs[i, j + 1]);
      }
    }
  }

  /** lcs[i, j] is the LCS length of a[i..] and b[j..]. */
  method FillTable(a: seq<Line>, b: seq<Line>) returns (lcs: array2<nat>)
    ensures fresh(lcs) && lcs.Length0 == |a| + 1 && lcs.Length1 == |b| + 1
    ensures forall i :: 0 <= i <= |a| ==> RowFrom(a, b, lcs, i, 0)
  {
    var n, m := |a|, |b|;
    lcs := new nat[n + 1, m + 1]((_, _) => 0);
    var i := n;
    while i > 0
      invariant 0 <= i <= n
      invariant forall x :: 0 <= x < i ==> lcs[x, m] == 0
      invariant forall x :: i <= x <= n ==> RowFrom(a, b, lcs, x, 0)
    {
      i := i - 1;
      FillRow(a, b, lcs, i);
    }
  }

  lemma {:induction false} LinesConcat(es: seq<Emitted>, fs: seq<Emitted>)
    ensures Lines(es + fs) == Lines(es) + Lines(fs)
  {
    if es == [] {
      assert es + fs == fs;
    } else {
      LinesConcat(es[1..], fs);
      assert (es + fs)[1..] == es[1..] + fs && (es + fs)[0] == es[0];
      EmitNext([es[0].line], Lines(es[1..]), Lines(fs));
    }
  }

  /** The lines the walk still has to emit when it stands at i and j. */
  function RestAt(a: seq<Line>, b: seq<Line>, i: nat, j: nat): seq<Line>
    requires i <= |a| && j <= |b|
  {
    Lines(Merge(a[i..], b[j..]))
  }

  lemma RestStep(a: seq<Line>, b: seq<Line>, i: nat, j: nat)
    requires i <= |a| && j <= |b| && (i < |a| || j < |b|)
    ensures RestAt(a, b, i, j) ==
            if i < |a| && j < |b| && a[i] == b[j] then [b[j]] + RestAt(a, b, i + 1, j + 1)
            else if j < |b| && (i == |a| || LcsAt(a, b, i, j + 1) >= LcsAt(a, b, i + 1, j)) then
              [b[j]] + RestAt(a, b, i, j + 1)
            else (if Blank(a[i]) then [a[i]] else []) + RestAt(a, b, i + 1, j)
  {
    var restA, restB := a[i..], b[j..];
    assert i < |a| ==> restA[1..] == a[i + 1..];
    assert j < |b| ==> restB[1..] == b[j + 1..];
    if i < |a| && j < |b| && a[i] == b[j] {
      LinesConcat([Emitted(b[j], Both)], Merge(restA[1..], restB[1..]));
    } else if j < |b| && (i == |a| || LcsAt(a, b, i, j + 1) >= LcsAt(a, b, i + 1, j)) {
      LinesConcat([Emitted(b[j], NewOnly)], Merge(restA, restB[1..]));
    } else if Blank(a[i]) {
      LinesConcat([Emitted(a[i], OldOnly)], Merge(restA[1..], restB));
    } else {
      assert Merge(restA, restB) == Merge(restA[1..], restB);
    }
  }

  method RestoreLines(a: seq<Line>, b: seq<Line>) returns (res: seq<Line>)
    ensures res == Lines(Merge(a, b))
  {
    var n, m := |a|, |b|;
    var lcs := FillTable(a, b);
    res := [];
    var i, j := 0, 0;
    assert a[0..] == a && b[0..] == b;
    while i < n || j < m
      invariant 0 <= i <= n && 0 <= j <= m
      invariant forall x :: 0 <= x <= n ==> RowFrom(a, b, lcs, x, 0)
      invariant res + RestAt(a, b, i, j) == RestAt(a, b, 0, 0)
      decreases n - i + m - j
    {
      RestStep(a, b, i, j);
      assert RowFrom(a, b, lcs, i, 0);
      assert i < n ==> RowFrom(a, b, lcs, i + 1, 0);
      if i < n && j < m && a[i] == b[j] {
        EmitNext(res, [b[j]], RestAt(a, b, i + 1, j + 1));
        res := res + [b[j]];
        i, j := i + 1, j + 1;
      } else if j < m && (i == n || lcs[i, j + 1] >= lcs[i + 1, j]) {
        EmitNext(res, [b[j]], RestAt(a, b, i, j + 1));
        res := res + [b[j]];
        j := j + 1;
      } else {
        EmitNext(res, if Blank(a[i]) then [a[i]] else [], RestAt(a, b, i + 1, j));
        if Blank(a[i]) {
          res := res + [a[i]];
        }
        i := i + 1;
      }
    }
  }

  lemma EmitNext(sofar: seq<Line>, next: seq<Line>, rest: seq<Line>)
    ensures sofar + (next + rest) == (sofar + next) + rest
    ensures next == [] ==> sofar + next == sofar
  {
  }

  /** What restoreBlankLines returns: the re-encode itself when there is nothing to restore from or
      the table would be too large, else the merged lines. */
  function Restored(orig: string, out: string): string {
    var a, b := SplitLines(orig), SplitLines(out);
    if a == [] || TooLarge(a, b) then out else Join(Lines(Merge(a, b))) + "\n"
  }

  method RestoreBlankLines(orig: string, out: string) returns (text: string)
    ensures text == Restored(orig, out)
  {
    var a, b := SplitLines(orig), SplitLines(out);
    if a == [] || (|a| + 1) * (|b| + 1) > MAX_BLANK_RESTORE_CELLS {
      return out;
    }
    var res := RestoreLines(a, b);
    return Join(res) + "\n";
  }

  /** With nothing to restore from, an empty file or one newline, or a table of more than four million
      cells, the re-encode is what is written. */
  lemma NothingToRestoreFrom(orig: string, out: string)
    requires orig == "" || orig == "\n" || (|SplitLines(orig)| + 1) * (|SplitLines(out)| + 1) > 4_194_304
    ensures Restored(orig, out) == out
  {
  }

  /** On whole texts, for every other edit: the file written is its lines and a newline, and they are those
      of the re-encode in order with lines of the original between them, all of those blank; every blank
      line of the original is among them, in order, and as many lines as can be are those of both. */
  lemma EditWins(orig: string, out: string) returns (es: seq<Emitted>)
    requires orig != "" && orig != "\n" && (|SplitLines(orig)| + 1) * (|SplitLines(out)| + 1) <= 4_194_304
    ensures Restored(orig, out) == Join(Lines(es)) + "\n" && NewlineFree(Lines(es))
    ensures NewLines(es) == SplitLines(out) && (forall e :: e in es && e.origin == OldOnly ==> Blank(e.line))
    ensures BlankOnes(OldLines(es)) == BlankOnes(SplitLines(orig))
        && Matched(es) == Lcs(SplitLines(orig), SplitLines(out))
  {
    var a, b := SplitLines(orig), SplitLines(out);
    LinesOfFile(orig);
    LinesOfFile(out);
    es := Merge(a, b);
    MergeKeepsBothSides(a, b);
    MergedAreLines(a, b);
  }

  lemma {:induction false} MergedAreLines(a: seq<Line>, b: seq<Line>)
    ensures forall l :: l in Lines(Merge(a, b)) ==> l in a || l in b
    decreases |a| + |b|
  {
    var es := Merge(a, b);
    if a == [] && b == [] {
    } else if a != [] && b != [] && a[0] == b[0] {
      MergedAreLines(a[1..], b[1..]);
      assert es[1..] == Merge(a[1..], b[1..]);
    } else if b != [] && (a == [] || Lcs(a, b[1..]) >= Lcs(a[1..], b)) {
      MergedAreLines(a, b[1..]);
      assert es[1..] == Merge(a, b[1..]);
    } else {
      MergedAreLines(a[1..], b);
      if Blank(a[0]) {
        assert es[1..] == Merge(a[1..], b);
      } else {
        assert es == Merge(a[1..], b);
      }
    }
  }

  /** What counts as space: the twenty-five characters Unicode calls white space. */
  lemma SpacesAreUnicodes(c: char)
    ensures Blank([c]) <==> c as int in {
        0x09, 0x0A, 0x0B, 0x0C, 0x0D, 0x20, 0x85, 0xA0, 0x1680, 0x2000, 0x2001, 0x2002, 0x2003, 0x2004, 0x2005, 0x2006,
        0x2007, 0x2008, 0x2009, 0x200A, 0x2028, 0x2029, 0x202F, 0x205F, 0x3000}
  {
    assert c in [c];
  }

  /** On whole texts: a re-encode that only dropped blank lines is undone byte for byte, but for the
      newline at the end of the file, which the result always has. */
  lemma TextIsRestored(orig: string, out: string)
    requires SplitLines(orig) != [] && !TooLarge(SplitLines(orig), SplitLines(out))
    requires OnlyBlanksDeleted(SplitLines(orig), SplitLines(out))
    ensures Restored(orig, out) == TrimNewline(orig) + "\n"
    ensures Restored(orig, out) == orig <==> orig[|orig| - 1] == '\n'
  {
    RestoresExactlyDroppedBlanks(SplitLines(orig), SplitLines(out));
    JoinUndoesSplit(TrimNewline(orig));
    if orig[|orig| - 1] == '\n' {
      assert orig == orig[..|orig| - 1] + "\n";
    }
  }
}
