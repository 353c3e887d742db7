/**
The JSON renderer: the methods append to one buffer, as SyLog's do, and are proved to
produce the printed form of a document; the document determines the event.
*/
module JsonRenderer {
  import opened Events
  import opened Text
  import opened Json
  import opened JsonRoundTrip

  // ---------------------------------------------------------------- the document of an event

  datatype Includes = Includes(source: bool, thread: bool, fields: bool)

  function ValueJson(v: FieldValue): Json {
    match v
    case NullValue => JNull
    case BoolValue(b) => JBool(b)
    case IntValue(i) => JInt(i)
    case DoubleValue(token) => JToken(token)
    case StringValue(s) => JString(s)
  }

  function FieldMembers(fields: seq<Field>): (members: seq<Member>)
    ensures |members| == |fields|
  {
    seq(|fields|, k requires 0 <= k < |fields| => Member(fields[k].key, ValueJson(fields[k].value)))
  }

  function Fixed(e: Event): seq<Member> {
    [Member("time", JString(e.time)), Member("level", JString(e.severityName)),
     Member("endpoint", JString(e.endpoint)), Member("message", JString(e.message))]
  }

  function Tid(e: Event): Member {
    Member("tid", JInt(e.tid))
  }

  function Source(e: Event): Member {
    var file, line := Member("file", JString(e.file)), Member("line", JInt(e.line));
    Member("source", JObject([file, line, Member("func", JString(e.func))]))
  }

  function Fields(e: Event): Member {
    Member("fields", JObject(FieldMembers(e.fields)))
  }

  function Context(e: Event, thread: bool, source: bool): seq<Member> {
    Fixed(e) + (if thread then [Tid(e)] else []) + (if source then [Source(e)] else [])
  }

  function Document(inc: Includes, e: Event): Json {
    JObject(Context(e, inc.thread, inc.source) + (if inc.fields && e.fields != [] then [Fields(e)] else []))
  }

  function Rendered(inc: Includes, e: Event): string {
    Print(Document(inc, e)) + "\n"
  }

  // ---------------------------------------------------------------- printing piece by piece

  lemma {:induction false} MembersAppend(members: seq<Member>, m: Member)
    requires members != []
    ensures PrintMembers(members + [m]) == PrintMembers(members) + ("," + PrintMember(m))
  {
    if |members| > 1 {
      MembersAppend(members[1..], m);
      assert (members + [m])[1..] == members[1..] + [m];
      Regroup3(PrintMember(members[0]), "," + PrintMembers(members[1..]), "," + PrintMember(m));
      Regroup3(",", PrintMembers(members[1..]), "," + PrintMember(m));
    } else {
      assert members == [members[0]];
      assert (members + [m])[1..] == [m];
    }
  }

  /** Characters that need no escape: all from the space on, except two. */
  predicate Plain(s: string) {
    forall k | 0 <= k < |s| :: ' ' <= s[k] && s[k] != '"' && s[k] != '\\'
  }

  /** A text that needs no escape is copied. */
  lemma {:induction false} PlainEscape(s: string)
    requires Plain(s)
    ensures EscapeBody(s) == s
  {
    if s != "" {
      var init, c := s[..|s| - 1], s[|s| - 1];
      PlainEscape(init);
      Copied(c);
      assert init + [c] == s;
    }
  }

  lemma Copied(c: char)
    requires ' ' <= c && c != '"' && c != '\\'
    ensures EscapeChar(c) == [c]
  {
  }

  /** How one character is escaped: copied from the space on, except the quotation mark and the
      backslash; below it by a short form, or as \u00 and two hexadecimal digits in lower case. */
  lemma EscapeTable(c: char)
    ensures ' ' <= c && c != '"' && c != '\\' ==> EscapeChar(c) == [c]
    ensures EscapeChar('"') == ['\\', '"'] && EscapeChar('\\') == ['\\', '\\']
    ensures EscapeChar('\n') == ['\\', 'n'] && EscapeChar('\r') == ['\\', 'r'] && EscapeChar('\t') == ['\\', 't']
    ensures EscapeChar('\U{0008}') == ['\\', 'b'] && EscapeChar('\U{000C}') == ['\\', 'f']
    ensures c < ' ' && c !in ['\n', '\r', '\t', '\U{0008}', '\U{000C}'] ==>
              && |EscapeChar(c)| == 6 && EscapeChar(c)[..4] == ['\\', 'u', '0', '0']
              && (forall k | 4 <= k < 6 :: !('A' <= EscapeChar(c)[k] <= 'F'))
              && HexValue(EscapeChar(c)[4]) * 16 + HexValue(EscapeChar(c)[5]) == c as int
  {
  }

  /** The literal piece of text that introduces a member. */
  function Head(key: string): string {
    "\"" + key + "\"" + ":"
  }

  lemma MemberIs(m: Member)
    requires Plain(m.key)
    ensures PrintMember(m) == Head(m.key) + Print(m.value)
  {
    PlainEscape(m.key);
    Regroup3(Quote(m.key), ":", Print(m.value));
  }

  /** Appending a comma, a key and a value appends one member. */
  lemma Extends(text: string, prefix: string, members: seq<Member>, m: Member)
    requires members != [] && text == prefix + PrintMembers(members) && Plain(m.key)
    ensures text + ("," + Head(m.key)) + Print(m.value) == prefix + PrintMembers(members + [m])
  {
    MemberIs(m);
    MembersAppend(members, m);
    Regroup3(prefix, PrintMembers(members), "," + PrintMember(m));
    Regroup3(text, "," + Head(m.key), Print(m.value));
    Regroup3(",", Head(m.key), Print(m.value));
  }

  // ---------------------------------------------------------------- the renderer

  method EscapeAppend(out: StringBuffer, s: string)
    modifies out
    ensures out.text == old(out.text) + Quote(s)
  {
    out.text := out.text + "\"";
    var start := out.text;
    var i := 0;
    assert s[..0] == "";
    while i < |s|
      invariant i <= |s|
      invariant out.text == start + EscapeBody(s[..i])
    {
      assert s[..i + 1][..i] == s[..i];
      Regroup3(start, EscapeBody(s[..i]), EscapeChar(s[i]));
      out.text := out.text + EscapeChar(s[i]);
      i := i + 1;
    }
    assert s[..|s|] == s;
    Regroup3(old(out.text), "\"", EscapeBody(s));
    Regroup3(old(out.text), "\"" + EscapeBody(s), "\"");
    out.text := out.text + "\"";
  }

  method ValueAppend(out: StringBuffer, v: FieldValue)
    modifies out
    ensures out.text == old(out.text) + Print(ValueJson(v))
  {
    match v
    case NullValue => out.text := out.text + "null";
    case BoolValue(b) => out.text := out.text + (if b then "true" else "false");
    case IntValue(i) => out.text := out.text + DecimalInt(i);
    case DoubleValue(token) => out.text := out.text + token;
    case StringValue(s) => EscapeAppend(out, s);
  }

  /** One string member after others. */
  method MemberAppend(out: StringBuffer, key: string, value: string, ghost prefix: string, ghost members: seq<Member>)
    requires members != [] && out.text == prefix + PrintMembers(members) && Plain(key)
    modifies out
    ensures out.text == prefix + PrintMembers(members + [Member(key, JString(value))])
  {
    Extends(out.text, prefix, members, Member(key, JString(value)));
    out.text := out.text + ("," + Head(key));
    EscapeAppend(out, value);
  }

  lemma KeysArePlain()
    ensures Plain("tid") && Plain("source") && Plain("fields") && Plain("file") && Plain("line") && Plain("func")
    ensures Plain("time") && Plain("level") && Plain("endpoint") && Plain("message")
  {
  }

  /** The opening brace and the four members every record has. */
  method FixedAppend(out: StringBuffer, e: Event)
    modifies out
    ensures out.text == "{" + PrintMembers(Fixed(e))
  {
    ghost var time, level, endpoint := Fixed(e)[0], Fixed(e)[1], Fixed(e)[2];
    KeysArePlain();
    out.text := "{" + Head("time");
    EscapeAppend(out, e.time);
    MemberIs(time);
    Regroup3("{", Head("time"), Quote(e.time));
    MemberAppend(out, "level", e.severityName, "{", [time]);
    assert [time] + [level] == [time, level];
    MemberAppend(out, "endpoint", e.endpoint, "{", [time, level]);
    assert [time, level] + [endpoint] == [time, level, endpoint];
    MemberAppend(out, "message", e.message, "{", [time, level, endpoint]);
    assert [time, level, endpoint] + [Fixed(e)[3]] == Fixed(e);
  }

  method SourceAppend(out: StringBuffer, e: Event)
    modifies out
    ensures out.text == old(out.text) + Print(Source(e).value)
  {
    ghost var prefix := old(out.text) + "{";
    KeysArePlain();
    ghost var file, line := Member("file", JString(e.file)), Member("line", JInt(e.line));
    ghost var func := Member("func", JString(e.func));
    out.text := out.text + "{" + Head("file");
    EscapeAppend(out, e.file);
    MemberIs(file);
    Regroup3(prefix, Head("file"), Quote(e.file));
    Extends(out.text, prefix, [file], line);
    out.text := out.text + ("," + Head("line"));
    out.text := out.text + Decimal(e.line);
    MemberAppend(out, "func", e.func, prefix, [file, line]);
    assert [file, line] + [func] == [file, line, func];
    Regroup3(old(out.text), "{", PrintMembers([file, line, func]));
    Regroup3(old(out.text), "{" + PrintMembers([file, line, func]), "}");
    out.text := out.text + "}";
  }

  /** The thread and the source location, if asked for. */
  method ContextAppend(out: StringBuffer, e: Event, thread: bool, source: bool)
    requires out.text == "{" + PrintMembers(Fixed(e))
    modifies out
    ensures out.text == "{" + PrintMembers(Context(e, thread, source))
  {
    ghost var members := Fixed(e) + (if thread then [Tid(e)] else []);
    KeysArePlain();
    if thread {
      Extends(out.text, "{", Fixed(e), Tid(e));
      out.text := out.text + ("," + Head("tid"));
      out.text := out.text + Decimal(e.tid);
    } else {
      assert members == Fixed(e);
    }
    assert out.text == "{" + PrintMembers(members);
    if source {
      Extends(out.text, "{", members, Source(e));
      out.text := out.text + ("," + Head("source"));
      SourceAppend(out, e);
    } else {
      assert Context(e, thread, source) == members;
    }
  }

  method FieldsAppend(out: StringBuffer, fields: seq<Field>)
    requires fields != []
    modifies out
    ensures out.text == old(out.text) + Print(JObject(FieldMembers(fields)))
  {
    out.text := out.text + "{";
    var start := out.text;
    var i := 0;
    ghost var members := FieldMembers(fields);
    while i < |fields|
      invariant i <= |fields|
      invariant out.text == start + PrintMembers(members[..i])
    {
      ghost var before := out.text;
      if i > 0 {
        out.text := out.text + ",";
      }
      EscapeAppend(out, fields[i].key);
      out.text := out.text + ":";
      ValueAppend(out, fields[i].value);
      FieldAppended(start, members, i, before, out.text);
      i := i + 1;
    }
    assert members[..|fields|] == members;
    Regroup3(old(out.text), "{", PrintMembers(members));
    Regroup3(old(out.text), "{" + PrintMembers(members), "}");
    out.text := out.text + "}";
  }

  class JsonRenderer {
    var includeSource: bool
    var includeThread: bool
    var includeFields: bool

    constructor ()
      ensures Flags() == Includes(true, true, true)
    {
      includeSource, includeThread, includeFields := true, true, true;
    }

    method IncludeSource(value: bool)
      modifies this
      ensures Flags() == old(Flags()).(source := value)
    {
      includeSource := value;
    }

    method IncludeThread(value: bool)
      modifies this
      ensures Flags() == old(Flags()).(thread := value)
    {
      includeThread := value;
    }

    method IncludeFields(value: bool)
      modifies this
      ensures Flags() == old(Flags()).(fields := value)
    {
      includeFields := value;
    }

    function Flags(): Includes
      reads this
    {
      Includes(includeSource, includeThread, includeFields)
    }

    method Render(e: Event, out: StringBuffer)
      modifies out
      ensures out.text == Rendered(Flags(), e)
    {
      FixedAppend(out, e);
      ContextAppend(out, e, includeThread, includeSource);
      ghost var members := Context(e, includeThread, includeSource);
      KeysArePlain();
      if includeFields && e.fields != [] {
        Extends(out.text, "{", members, Fields(e));
        out.text := out.text + ("," + Head("fields"));
        FieldsAppend(out, e.fields);
        assert Document(Flags(), e) == JObject(members + [Fields(e)]);
      } else {
        assert Document(Flags(), e) == JObject(members);
      }
      out.text := out.text + "}";
      out.text := out.text + "\n";
    }
  }

  lemma FieldAppended(start: string, members: seq<Member>, i: nat, before: string, after: string)
    requires i < |members| && before == start + PrintMembers(members[..i])
    requires after == before + (if i > 0 then "," else "") + Quote(members[i].key) + ":" + Print(members[i].value)
    ensures after == start + PrintMembers(members[..i + 1])
  {
    var m := members[i];
    var comma := if i > 0 then "," else "";
    Regroup3(before + comma, Quote(m.key), ":");
    Regroup3(before + comma, Quote(m.key) + ":", Print(m.value));
    Regroup3(Quote(m.key), ":", Print(m.value));
    assert after == before + comma + PrintMember(m);
    assert members[..i + 1] == members[..i] + [m];
    if i > 0 {
      MembersAppend(members[..i], m);
      Regroup3(before, ",", PrintMember(m));
      Regroup3(start, PrintMembers(members[..i]), "," + PrintMember(m));
    }
  }

  // ---------------------------------------------------------------- reading an event back

  /** What a reader of the log can want to know of an event. */
  datatype Recovered = Recovered(
    time: string,
    level: string,
    endpoint: string,
    message: string,
    tid: Option<int>,
    source: Option<(string, int, string)>,
    fields: Option<seq<Field>>)

  function Lookup(members: seq<Member>, key: string): Option<Json> {
    if members == [] then None
    else if members[0].key == key then Some(members[0].value)
    else Lookup(members[1..], key)
  }

  function LookupString(members: seq<Member>, key: string): Option<string> {
    match Lookup(members, key) case Some(JString(s)) => Some(s) case _ => None
  }

  function LookupInt(members: seq<Member>, key: string): Option<int> {
    match Lookup(members, key) case Some(JInt(i)) => Some(i) case _ => None
  }

  function ReadValue(j: Json): FieldValue {
    match j
    case JBool(b) => BoolValue(b)
    case JInt(i) => IntValue(i)
    case JToken(text) => DoubleValue(text)
    case JString(s) => StringValue(s)
    case _ => NullValue
  }

  function ReadFields(members: seq<Member>): seq<Field> {
    seq(|members|, k requires 0 <= k < |members| => Field(members[k].key, ReadValue(members[k].value)))
  }

  function ReadSource(j: Json): Option<(string, int, string)> {
    if !j.JObject? then None
    else match (LookupString(j.members, "file"), LookupInt(j.members, "line"), LookupString(j.members, "func"))
         case (Some(file), Some(line), Some(func)) => Some((file, line, func))
         case _ => None
  }

  function ReadEvent(j: Json): Option<Recovered> {
    if !j.JObject? then None
    else
      var ms := j.members;
      match (LookupString(ms, "time"), LookupString(ms, "level"),
             LookupString(ms, "endpoint"), LookupString(ms, "message"))
      case (Some(time), Some(level), Some(endpoint), Some(message)) =>
        Some(Recovered(time, level, endpoint, message, LookupInt(ms, "tid"),
                       match Lookup(ms, "source") case Some(s) => ReadSource(s) case None => None,
                       match Lookup(ms, "fields")
                       case Some(JObject(fields)) => Some(ReadFields(fields))
                       case _ => None))
      case _ => None
  }

  /** What the flags ask to be in the log. */
  function Promised(inc: Includes, e: Event): Recovered {
    Recovered(e.time, e.severityName, e.endpoint, e.message,
              if inc.thread then Some(e.tid) else None,
              if inc.source then Some((e.file, e.line, e.func)) else None,
              if inc.fields && e.fields != [] then Some(e.fields) else None)
  }
}
