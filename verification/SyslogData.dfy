/** The RFC 5424 structured-data element of a syslog audit line, its escaping, and a reader of
    section 6.3 of that standard. */
module SyslogData {
  import opened Wrappers

  /** strings.ReplaceAll for a pattern of one character. */
  function ReplaceAll(s: string, c: char, with: string): string {
    if s == "" then ""
    else (if s[0] == c then with else [s[0]]) + ReplaceAll(s[1..], c, with)
  }

  /** The escape as written: three passes over the whole value. */
  function EscSD(value: string): string {
    ReplaceAll(ReplaceAll(ReplaceAll(value, '\\', "\\\\"), '"', "\\\""), ']', "\\]")
  }

  function SdParam(name: string, value: string): string {
    name + "=\"" + EscSD(value) + "\""
  }

  datatype AuditEntry = AuditEntry(eventType: string, objectId: string, actor: string, id: string)

  const SD_ID := "ctxt@32473"

  /** strings.Join with one space between the parts. */
  function JoinSpaced(parts: seq<string>): string {
    if |parts| == 0 then "" else if |parts| == 1 then parts[0] else parts[0] + " " + JoinSpaced(parts[1..])
  }

  function RenderParams(params: seq<(string, string)>): (parts: seq<string>)
    ensures |parts| == |params|
  {
    if params == [] then [] else [SdParam(params[0].0, params[0].1)] + RenderParams(params[1..])
  }

  function ParamsOf(e: AuditEntry): seq<(string, string)> {
    [("event_type", e.eventType), ("object_id", e.objectId), ("actor", e.actor), ("id", e.id)]
  }

  /** The structured-data element marshalSyslog puts in the line. */
  function StructuredData(e: AuditEntry): string {
    "[" + SD_ID + " " + JoinSpaced(RenderParams(ParamsOf(e))) + "]"
  }

  // ---- One pass ----

  predicate Special(c: char) {
    c == '"' || c == '\\' || c == ']'
  }

  /** What section 6.3.3 asks for: a backslash before each special character. */
  function EscapeEach(value: string): string {
    if value == "" then ""
    else (if Special(value[0]) then ['\\', value[0]] else [value[0]]) + EscapeEach(value[1..])
  }

  lemma Associate(a: string, b: string, c: string)
    ensures a + (b + c) == (a + b) + c
  {
  }

  lemma {:induction false} ReplaceAllConcat(s: string, t: string, c: char, with: string)
    ensures ReplaceAll(s + t, c, with) == ReplaceAll(s, c, with) + ReplaceAll(t, c, with)
  {
    if s == "" {
      assert s + t == t;
    } else {
      ReplaceAllConcat(s[1..], t, c, with);
      assert (s + t)[1..] == s[1..] + t;
      Associate(if s[0] == c then with else [s[0]], ReplaceAll(s[1..], c, with), ReplaceAll(t, c, with));
    }
  }

  /** A later pass leaves the backslashes of the earlier ones alone. */
  lemma ReplaceAllOfPair(a: char, b: char, c: char, with: string)
    requires a != c
    ensures ReplaceAll([a, b], c, with) == [a] + (if b == c then with else [b])
    ensures ReplaceAll([b], c, with) == if b == c then with else [b]
  {
    assert [a, b][1..] == [b];
    assert [b][1..] == "";
    assert ReplaceAll("", c, with) == "";
    assert with + "" == with;
  }

  /** The three passes take a value character by character. */
  lemma PassesConcat(s: string, t: string)
    ensures EscSD(s + t) == EscSD(s) + EscSD(t)
  {
    ReplaceAllConcat(s, t, '\\', "\\\\");
    var s1, t1 := ReplaceAll(s, '\\', "\\\\"), ReplaceAll(t, '\\', "\\\\");
    ReplaceAllConcat(s1, t1, '"', "\\\"");
    ReplaceAllConcat(ReplaceAll(s1, '"', "\\\""), ReplaceAll(t1, '"', "\\\""), ']', "\\]");
  }

  lemma PassesOfOne(c: char)
    ensures EscSD([c]) == if Special(c) then ['\\', c] else [c]
  {
    ReplaceAllOfPair('x', c, '\\', "\\\\");
    if c == '\\' {
      ReplaceAllOfPair('\\', c, '"', "\\\"");
      ReplaceAllOfPair('\\', c, ']', "\\]");
    } else {
      ReplaceAllOfPair('x', c, '"', "\\\"");
      ReplaceAllOfPair('\\', c, ']', "\\]");
    }
  }

  /** Backslash first, then quote, then bracket: the three passes are one simultaneous escape. */
  lemma {:induction false} ThreePassesAreOneEscape(value: string)
    ensures EscSD(value) == EscapeEach(value)
  {
    if value != "" {
      PassesOfOne(value[0]);
      PassesConcat([value[0]], value[1..]);
      assert [value[0]] + value[1..] == value;
      ThreePassesAreOneEscape(value[1..]);
    }
  }

  // ---- A reader ----

  /** Reads PARAM-VALUE up to its closing quote. A backslash before one of the three special
      characters is dropped; before anything else it stands for itself. Yields the value and what
      follows the quote. */
  function ReadValue(s: string): Option<(string, string)> {
    if s == "" then None
    else if s[0] == '"' then Some(("", s[1..]))
    else if s[0] == ']' then None
    else
      var escape := s[0] == '\\' && |s| > 1 && Special(s[1]);
      var rest := ReadValue(if escape then s[2..] else s[1..]);
      match rest
      case None => None
      case Some((v, after)) => Some(([if escape then s[1] else s[0]] + v, after))
  }

  /** SD-NAME: anything printable but '=', SP, ']' and '"'. Yields the name and what follows. */
  function ReadName(s: string): (string, string) {
    if s == "" || s[0] == '=' || s[0] == ' ' || s[0] == ']' || s[0] == '"' then ("", s)
    else
      var (name, after) := ReadName(s[1..]);
      ([s[0]] + name, after)
  }

  lemma {:induction false} ReadNameRest(s: string)
    ensures |ReadName(s).1| <= |s|
  {
    if !(s == "" || s[0] == '=' || s[0] == ' ' || s[0] == ']' || s[0] == '"') {
      ReadNameRest(s[1..]);
    }
  }

  lemma {:induction false} ReadValueRest(s: string)
    ensures ReadValue(s).Some? ==> |ReadValue(s).value.1| < |s|
  {
    if s != "" && s[0] != '"' && s[0] != ']' {
      var escape := s[0] == '\\' && |s| > 1 && Special(s[1]);
      ReadValueRest(if escape then s[2..] else s[1..]);
    }
  }

  /** *(SP SD-PARAM) "]" at the end of the element. */
  function ReadParams(s: string): Option<seq<(string, string)>>
    decreases |s|
  {
    if s == "]" then Some([])
    else if s == "" || s[0] != ' ' then None
    else
      var (name, afterName) := ReadName(s[1..]);
      ReadNameRest(s[1..]);
      if name == "" || |afterName| < 2 || afterName[0] != '=' || afterName[1] != '"' then None
      else
        ReadValueRest(afterName[2..]);
        match ReadValue(afterName[2..])
        case None => None
        case Some((value, after)) =>
          match ReadParams(after)
          case None => None
          case Some(more) => Some([(name, value)] + more)
  }

  /** "[" SD-ID *(SP SD-PARAM) "]". Yields the SD-ID and the parameters, values unescaped. */
  function ReadElement(s: string): Option<(string, seq<(string, string)>)> {
    if s == "" || s[0] != '[' then None
    else
      var (name, after) := ReadName(s[1..]);
      match ReadParams(after)
      case None => None
      case Some(params) => Some((name, params))
  }

  // ---- The round trip ----

  lemma {:induction false} ReadValueUndoesEscape(value: string, after: string)
    ensures ReadValue(EscapeEach(value) + "\"" + after) == Some((value, after))
  {
    var s := EscapeEach(value) + "\"" + after;
    if value == "" {
      assert s[1..] == after;
    } else {
      var rest := EscapeEach(value[1..]) + "\"" + after;
      ReadValueUndoesEscape(value[1..], after);
      assert value == [value[0]] + value[1..];
      if Special(value[0]) {
        assert s[0] == '\\' && s[1] == value[0];
        assert s[2..] == rest;
      } else {
        assert s[0] == value[0];
        assert s[1..] == rest;
      }
    }
  }

  predicate PlainName(name: string) {
    forall c :: c in name ==> c != '=' && c != ' ' && c != ']' && c != '"'
  }

  lemma {:induction false} ReadNameStops(name: string, s: string)
    requires PlainName(name)
    requires s != "" && (s[0] == '=' || s[0] == ' ' || s[0] == ']' || s[0] == '"')
    ensures ReadName(name + s) == (name, s)
  {
    if name == "" {
      assert name + s == s;
    } else {
      assert name[0] in name;
      assert forall c :: c in name[1..] ==> c in name;
      ReadNameStops(name[1..], s);
      assert (name + s)[1..] == name[1..] + s;
      assert name == [name[0]] + name[1..];
    }
  }

  lemma ReadParamsTakesOne(name: string, value: string, after: string, more: seq<(string, string)>)
    requires PlainName(name) && name != ""
    requires ReadParams(after) == Some(more)
    ensures ReadParams(" " + SdParam(name, value) + after) == Some([(name, value)] + more)
  {
    var s := " " + SdParam(name, value) + after;
    var tail := "=\"" + EscSD(value) + "\"" + after;
    assert s[1..] == name + tail;
    ReadNameStops(name, tail);
    ThreePassesAreOneEscape(value);
    assert tail[2..] == EscapeEach(value) + "\"" + after;
    ReadValueUndoesEscape(value, after);
    assert s != "]";
  }

  /** " " and the joined parameters and "]": the text ReadParams takes. */
  function ParamText(params: seq<(string, string)>): string {
    " " + JoinSpaced(RenderParams(params)) + "]"
  }

  lemma Regroup(sep: string, part: string, joined: string, end: string)
    ensures sep + (part + sep + joined) + end == sep + part + (sep + joined + end)
  {
  }

  lemma ParamTextUnfolds(params: seq<(string, string)>)
    requires params != []
    ensures ParamText(params)
            == " " + SdParam(params[0].0, params[0].1) + (if |params| == 1 then "]" else ParamText(params[1..]))
  {
    var parts := RenderParams(params);
    assert parts[0] == SdParam(params[0].0, params[0].1);
    assert parts[1..] == RenderParams(params[1..]);
    if |params| > 1 {
      Regroup(" ", parts[0], JoinSpaced(parts[1..]), "]");
    }
  }

  lemma {:induction false} ParamsRoundTrip(params: seq<(string, string)>)
    requires params != []
    requires forall p :: p in params ==> PlainName(p.0) && p.0 != ""
    ensures ReadParams(ParamText(params)) == Some(params)
  {
    var (name, value) := params[0];
    var rest := params[1..];
    assert params[0] in params;
    ParamTextUnfolds(params);
    var after := if rest == [] then "]" else ParamText(rest);
    if rest != [] {
      assert forall p :: p in rest ==> p in params;
      ParamsRoundTrip(rest);
    }
    ReadParamsTakesOne(name, value, after, rest);
    assert [(name, value)] + rest == params;
  }

  lemma ElementUnfolds(params: seq<(string, string)>)
    requires ReadParams(ParamText(params)) == Some(params)
    ensures ReadElement("[" + SD_ID + ParamText(params)) == Some((SD_ID, params))
  {
    var s := "[" + SD_ID + ParamText(params);
    assert s[1..] == SD_ID + ParamText(params);
    ReadNameStops(SD_ID, ParamText(params));
  }

  /** Whatever the four values hold, a reader of the standard gets exactly them back. */
  lemma ElementRoundTrip(e: AuditEntry)
    ensures ReadElement(StructuredData(e)) == Some((SD_ID, ParamsOf(e)))
  {
    var params := ParamsOf(e);
    ParamsRoundTrip(params);
    ElementUnfolds(params);
    Reassociate("[" + SD_ID, " ", JoinSpaced(RenderParams(params)), "]");
  }

  /** The values given under a name, in order. */
  function Under(params: seq<(string, string)>, name: string): seq<string> {
    if params == [] then [] else (if params[0].0 == name then [params[0].1] else []) + Under(params[1..], name)
  }

  /** What the receiver of a line learns from its element: under ctxt's own SD-ID, each of the four names
      once and in order, with the entry's value, and no other parameter. */
  lemma ElementTellsTheEntry(e: AuditEntry) returns (id: string, params: seq<(string, string)>)
    ensures ReadElement(StructuredData(e)) == Some((id, params)) && id == "ctxt@32473" && |params| == 4
    ensures Under(params, "event_type") == [e.eventType] && Under(params, "object_id") == [e.objectId]
    ensures Under(params, "actor") == [e.actor] && Under(params, "id") == [e.id]
    ensures params[0].0 == "event_type" && params[1].0 == "object_id" && params[2].0 == "actor" && params[3].0 == "id"
  {
    ElementRoundTrip(e);
    id, params := SD_ID, ParamsOf(e);
    UnderFour(params, "event_type");
    UnderFour(params, "object_id");
    UnderFour(params, "actor");
    UnderFour(params, "id");
  }

  lemma UnderFour(params: seq<(string, string)>, name: string)
    requires |params| == 4
    ensures Under(params, name)
         == (if params[0].0 == name then [params[0].1] else []) + (if params[1].0 == name then [params[1].1] else [])
            + (if params[2].0 == name then [params[2].1] else []) + (if params[3].0 == name then [params[3].1] else [])
  {
    assert params[1..][1..] == params[2..] && params[2..][1..] == params[3..] && params[3..][1..] == [];
    assert Under(params[3..], name) == if params[3].0 == name then [params[3].1] else [];
    assert Under(params[2..], name) == (if params[2].0 == name then [params[2].1] else []) + Under(params[3..], name);
    assert Under(params[1..], name) == (if params[1].0 == name then [params[1].1] else []) + Under(params[2..], name);
  }

  /** No two entries print the same element, whatever their values hold. */
  lemma ElementsDiffer(e: AuditEntry, f: AuditEntry)
    requires StructuredData(e) == StructuredData(f)
    ensures e == f
  {
    var id1, params1 := ElementTellsTheEntry(e);
    var id2, params2 := ElementTellsTheEntry(f);
  }

  lemma Reassociate(a: string, b: string, c: string, d: string)
    ensures a + b + c + d == a + (b + c + d)
  {
  }
}
