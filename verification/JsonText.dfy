/**
The text of a record, character by character: the keys, their order and the punctuation, with
nothing left to the document type.
*/
module JsonText {
  import opened Events
  import opened Text
  import opened Json
  import opened JsonRoundTrip
  import opened JsonRenderer

  function ValueText(v: FieldValue): string {
    match v
    case NullValue => "null"
    case BoolValue(b) => if b then "true" else "false"
    case IntValue(i) => if i < 0 then "-" + Decimal(-i) else Decimal(i)
    case DoubleValue(token) => token
    case StringValue(s) => Quote(s)
  }

  function FieldText(f: Field): string {
    Quote(f.key) + ":" + ValueText(f.value)
  }

  function FieldsText(fields: seq<Field>): string {
    if fields == [] then ""
    else if |fields| == 1 then FieldText(fields[0])
    else FieldsText(fields[..|fields| - 1]) + "," + FieldText(fields[|fields| - 1])
  }

  function FixedText(e: Event): string {
    "{\"time\":" + Quote(e.time)
    + ",\"level\":" + Quote(e.severityName)
    + ",\"endpoint\":" + Quote(e.endpoint)
    + ",\"message\":" + Quote(e.message)
  }

  function SourceText(e: Event): string {
    "{\"file\":" + Quote(e.file) + ",\"line\":" + Decimal(e.line) + ",\"func\":" + Quote(e.func) + "}"
  }

  // ---------------------------------------------------------------- the parts

  lemma ValueIs(v: FieldValue)
    ensures Print(ValueJson(v)) == ValueText(v)
  {
  }

  lemma FieldIs(f: Field)
    ensures PrintMember(Member(f.key, ValueJson(f.value))) == FieldText(f)
  {
    ValueIs(f.value);
    Regroup3(Quote(f.key), ":", ValueText(f.value));
  }

  lemma {:induction false} FieldsAre(fields: seq<Field>)
    ensures PrintMembers(FieldMembers(fields)) == FieldsText(fields)
  {
    if |fields| == 1 {
      FieldIs(fields[0]);
    } else if fields != [] {
      var init, f := fields[..|fields| - 1], fields[|fields| - 1];
      FieldsAre(init);
      assert FieldMembers(fields) == FieldMembers(init) + [Member(f.key, ValueJson(f.value))];
      OneMoreField(FieldMembers(init), f);
    }
  }

  lemma OneMoreField(members: seq<Member>, f: Field)
    requires members != []
    ensures PrintMembers(members + [Member(f.key, ValueJson(f.value))]) ==
            PrintMembers(members) + "," + FieldText(f)
  {
    FieldIs(f);
    MembersAppend(members, Member(f.key, ValueJson(f.value)));
    Regroup3(PrintMembers(members), ",", FieldText(f));
  }

  /** One more member after others. */
  lemma Next(text: string, members: seq<Member>, m: Member, head: string, value: string)
    requires members != [] && text == "{" + PrintMembers(members) && Plain(m.key)
    requires head == "," + Head(m.key) && value == Print(m.value)
    ensures text + (head + value) == "{" + PrintMembers(members + [m])
    ensures text + head + value == "{" + PrintMembers(members + [m])
  {
    Extends(text, "{", members, m);
    Regroup3(text, head, value);
  }

  lemma First(m: Member, head: string, value: string)
    requires Plain(m.key) && head == "{" + Head(m.key) && value == Print(m.value)
    ensures head + value == "{" + PrintMembers([m])
  {
    MemberIs(m);
    Regroup3("{", Head(m.key), value);
  }

  lemma FixedHeads()
    ensures "{" + Head("time") == "{\"time\":" && "," + Head("level") == ",\"level\":"
    ensures "," + Head("endpoint") == ",\"endpoint\":" && "," + Head("message") == ",\"message\":"
  {
  }

  lemma SourceHeads()
    ensures "{" + Head("file") == "{\"file\":" && "," + Head("line") == ",\"line\":"
    ensures "," + Head("func") == ",\"func\":"
  {
  }

  lemma OptionalHeads()
    ensures "," + Head("tid") == ",\"tid\":" && "," + Head("source") == ",\"source\":"
    ensures "," + Head("fields") == ",\"fields\":"
  {
  }

  lemma FixedIs(e: Event)
    ensures "{" + PrintMembers(Fixed(e)) == FixedText(e)
  {
    var time, level, endpoint, message := Fixed(e)[0], Fixed(e)[1], Fixed(e)[2], Fixed(e)[3];
    KeysArePlain();
    FixedHeads();
    First(time, "{\"time\":", Quote(e.time));
    var t1 := "{\"time\":" + Quote(e.time);
    Next(t1, [time], level, ",\"level\":", Quote(e.severityName));
    var t2 := t1 + ",\"level\":" + Quote(e.severityName);
    assert [time] + [level] == [time, level];
    Next(t2, [time, level], endpoint, ",\"endpoint\":", Quote(e.endpoint));
    var t3 := t2 + ",\"endpoint\":" + Quote(e.endpoint);
    assert [time, level] + [endpoint] == [time, level, endpoint];
    Next(t3, [time, level, endpoint], message, ",\"message\":", Quote(e.message));
    assert [time, level, endpoint] + [message] == Fixed(e);
  }

  lemma SourceIs(e: Event)
    ensures Print(Source(e).value) == SourceText(e)
  {
    var file, line := Member("file", JString(e.file)), Member("line", JInt(e.line));
    var func := Member("func", JString(e.func));
    KeysArePlain();
    SourceHeads();
    First(file, "{\"file\":", Quote(e.file));
    var t1 := "{\"file\":" + Quote(e.file);
    Next(t1, [file], line, ",\"line\":", Decimal(e.line));
    assert [file] + [line] == [file, line];
    Next(t1 + ",\"line\":" + Decimal(e.line), [file, line], func, ",\"func\":", Quote(e.func));
    assert [file, line] + [func] == [file, line, func];
  }

  /** A member that the record has or has not. */
  lemma Optional(text: string, members: seq<Member>, take: bool, m: Member, head: string, value: string)
    requires members != [] && text == "{" + PrintMembers(members) && Plain(m.key)
    requires head == "," + Head(m.key) && value == Print(m.value)
    ensures text + (if take then head + value else "") == "{" + PrintMembers(members + if take then [m] else [])
  {
    if take {
      Next(text, members, m, head, value);
    } else {
      assert text + "" == text && members + [] == members;
    }
  }

  lemma Ended(text: string, members: seq<Member>)
    requires text == "{" + PrintMembers(members)
    ensures Print(JObject(members)) + "\n" == text + "}\n"
  {
    Regroup3(text, "}", "\n");
    assert "}" + "\n" == "}\n";
  }

  lemma FieldsValueIs(e: Event)
    ensures Print(Fields(e).value) == "{" + FieldsText(e.fields) + "}"
  {
    FieldsAre(e.fields);
  }

  /** A record, in full. */
  lemma RecordText(inc: Includes, e: Event)
    ensures Rendered(inc, e) ==
            FixedText(e)
            + (if inc.thread then ",\"tid\":" + Decimal(e.tid) else "")
            + (if inc.source then ",\"source\":" + SourceText(e) else "")
            + (if inc.fields && e.fields != [] then ",\"fields\":" + ("{" + FieldsText(e.fields) + "}") else "")
            + "}\n"
  {
    KeysArePlain();
    OptionalHeads();
    FixedIs(e);
    SourceIs(e);
    FieldsValueIs(e);
    var m0, m1 := Fixed(e), Context(e, inc.thread, false);
    var t1 := FixedText(e) + if inc.thread then ",\"tid\":" + Decimal(e.tid) else "";
    Optional(FixedText(e), m0, inc.thread, Tid(e), ",\"tid\":", Decimal(e.tid));
    assert m1 == m0 + if inc.thread then [Tid(e)] else [];
    var m2 := Context(e, inc.thread, inc.source);
    var t2 := t1 + if inc.source then ",\"source\":" + SourceText(e) else "";
    Optional(t1, m1, inc.source, Source(e), ",\"source\":", SourceText(e));
    assert m2 == m1 + if inc.source then [Source(e)] else [];
    var some := inc.fields && e.fields != [];
    Optional(t2, m2, some, Fields(e), ",\"fields\":", "{" + FieldsText(e.fields) + "}");
    Ended(t2 + (if some then ",\"fields\":" + ("{" + FieldsText(e.fields) + "}") else ""),
          m2 + if some then [Fields(e)] else []);
  }
}
