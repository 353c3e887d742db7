/**
What can be read back from a log: one rendered record gives back its event, and every file a
rotating sink retains splits at newlines into whole records, the newest ones written.
*/
module LogRecovery {
  import opened Events
  import opened Text
  import opened Json
  import opened JsonRoundTrip
  import opened JsonRenderer
  import FileSink

  // ---------------------------------------------------------------- one record

  /** Every double in the rendered fields prints with a fraction or an exponent. */
  ghost predicate DoublesAreFractional(inc: Includes, e: Event) {
    inc.fields ==>
      forall k | 0 <= k < |e.fields| && e.fields[k].value.DoubleValue? :: Fractional(e.fields[k].value.token)
  }

  lemma ExactMembers(members: seq<Member>, fields: seq<Field>)
    requires members == FieldMembers(fields)
    ensures Exact(JObject(members)) <==>
            forall k | 0 <= k < |fields| && fields[k].value.DoubleValue? :: Fractional(fields[k].value.token)
  {
    if Exact(JObject(members)) {
      forall k | 0 <= k < |fields| && fields[k].value.DoubleValue? ensures Fractional(fields[k].value.token) {
        assert Exact(members[k].value);
      }
    }
  }

  lemma ExactDocument(inc: Includes, e: Event)
    ensures Exact(Document(inc, e)) <==> DoublesAreFractional(inc, e)
  {
    ExactMembers(FieldMembers(e.fields), e.fields);
    var context := Context(e, inc.thread, inc.source);
    var extra := if inc.fields && e.fields != [] then [Fields(e)] else [];
    assert forall k | 0 <= k < |context| :: Exact(context[k].value);
    if extra != [] {
      assert (context + extra)[|context|] == Fields(e);
    }
  }

  lemma {:induction false} LookupSkips(a: seq<Member>, b: seq<Member>, key: string)
    requires forall k | 0 <= k < |a| :: a[k].key != key
    ensures Lookup(a + b, key) == Lookup(b, key)
  {
    if a == [] {
      assert a + b == b;
    } else {
      LookupSkips(a[1..], b, key);
      assert (a + b)[1..] == a[1..] + b;
    }
  }

  lemma {:induction false} LookupStops(a: seq<Member>, b: seq<Member>, key: string)
    requires Lookup(a, key).Some?
    ensures Lookup(a + b, key) == Lookup(a, key)
  {
    if a[0].key != key {
      LookupStops(a[1..], b, key);
      assert (a + b)[1..] == a[1..] + b;
    }
  }

  lemma ReadFieldsBack(fields: seq<Field>)
    ensures ReadFields(FieldMembers(fields)) == fields
  {
  }

  lemma LookupFixed(e: Event)
    ensures Lookup(Fixed(e), "time") == Some(JString(e.time))
    ensures Lookup(Fixed(e), "level") == Some(JString(e.severityName))
    ensures Lookup(Fixed(e), "endpoint") == Some(JString(e.endpoint))
    ensures Lookup(Fixed(e), "message") == Some(JString(e.message))
  {
    var ms := Fixed(e);
    assert Lookup(ms[3..], "message") == Some(JString(e.message));
    assert ms[1..][1..] == ms[2..] && ms[2..][1..] == ms[3..];
    assert Lookup(ms[2..], "endpoint") == Some(JString(e.endpoint));
    assert Lookup(ms[2..], "message") == Some(JString(e.message));
    assert Lookup(ms[1..], "endpoint") == Some(JString(e.endpoint));
    assert Lookup(ms[1..], "message") == Some(JString(e.message));
  }

  lemma LookupOne(m: Member, rest: seq<Member>, key: string)
    ensures Lookup([m] + rest, key) == if m.key == key then Some(m.value) else Lookup(rest, key)
  {
    assert ([m] + rest)[1..] == rest;
  }

  lemma LookupOptional(take: bool, m: Member, rest: seq<Member>, key: string)
    ensures Lookup((if take then [m] else []) + rest, key) ==
            if take && m.key == key then Some(m.value) else Lookup(rest, key)
  {
    if take {
      LookupOne(m, rest, key);
    } else {
      assert [] + rest == rest;
    }
  }

  lemma LookupInDocument(inc: Includes, e: Event, key: string)
    ensures var found := Lookup(Document(inc, e).members, key);
            if Lookup(Fixed(e), key).Some? then found == Lookup(Fixed(e), key)
            else if inc.thread && key == "tid" then found == Some(Tid(e).value)
            else if inc.source && key == "source" then found == Some(Source(e).value)
            else if inc.fields && e.fields != [] && key == "fields" then found == Some(Fields(e).value)
            else found == None
  {
    var fixed := Fixed(e);
    var tid := if inc.thread then [Tid(e)] else [];
    var source := if inc.source then [Source(e)] else [];
    var fields := if inc.fields && e.fields != [] then [Fields(e)] else [];
    var rest := tid + (source + (fields + []));
    assert Document(inc, e).members == fixed + rest;
    if Lookup(fixed, key).Some? {
      LookupStops(fixed, rest, key);
    } else {
      LookupMisses(fixed, key);
      LookupSkips(fixed, rest, key);
      LookupOptional(inc.thread, Tid(e), source + (fields + []), key);
      LookupOptional(inc.source, Source(e), fields + [], key);
      LookupOptional(inc.fields && e.fields != [], Fields(e), [], key);
    }
  }

  lemma {:induction false} LookupMisses(members: seq<Member>, key: string)
    requires Lookup(members, key).None?
    ensures forall k | 0 <= k < |members| :: members[k].key != key
  {
    if members != [] {
      LookupMisses(members[1..], key);
      forall k | 0 <= k < |members| ensures members[k].key != key {
        if k > 0 {
          assert members[k] == members[1..][k - 1];
        }
      }
    }
  }

  lemma ReadSourceBack(e: Event)
    ensures ReadSource(Source(e).value) == Some((e.file, e.line as int, e.func))
  {
    var ms := Source(e).value.members;
    LookupOne(ms[2], [], "func");
    LookupOne(ms[1], [ms[2]], "func");
    LookupOne(ms[1], [ms[2]], "line");
    assert ms[1..] == [ms[1]] + [ms[2]];
  }

  /** The document of an event determines everything the flags ask for. */
  lemma DocumentReadsBack(inc: Includes, e: Event)
    ensures ReadEvent(Document(inc, e)) == Some(Promised(inc, e))
  {
    var ms := Document(inc, e).members;
    LookupFixed(e);
    LookupInDocument(inc, e, "time");
    LookupInDocument(inc, e, "level");
    LookupInDocument(inc, e, "endpoint");
    LookupInDocument(inc, e, "message");
    NotFixed(e);
    LookupInDocument(inc, e, "tid");
    LookupInDocument(inc, e, "source");
    LookupInDocument(inc, e, "fields");
    ReadSourceBack(e);
    ReadFieldsBack(e.fields);
  }

  lemma NotFixed(e: Event)
    ensures Lookup(Fixed(e), "tid").None? && Lookup(Fixed(e), "source").None? && Lookup(Fixed(e), "fields").None?
  {
    var ms := Fixed(e);
    assert ms[1..][1..] == ms[2..] && ms[2..][1..] == ms[3..] && ms[3..][1..] == [];
    Absent(ms, "tid");
    Absent(ms, "source");
    Absent(ms, "fields");
  }

  lemma Absent(members: seq<Member>, key: string)
    requires forall k | 0 <= k < |members| :: members[k].key != key
    ensures Lookup(members, key).None?
  {
    LookupSkips(members, [], key);
    assert members + [] == members;
  }

  lemma {:induction false} LookupExact(members: seq<Member>, key: string)
    requires Exact(JObject(members)) && Lookup(members, key).Some?
    ensures Exact(Lookup(members, key).value)
  {
    if members[0].key != key {
      assert forall k | 0 <= k < |members[1..]| :: members[1..][k] == members[k + 1];
      LookupExact(members[1..], key);
    } else {
      assert Exact(members[0].value);
    }
  }

  /** Only documents without odd number tokens read back as doubles, so an event whose fields
      hold one cannot be recovered from any document the parser returns. */
  lemma ExactReadsFractional(j: Json, inc: Includes, e: Event)
    requires Exact(j) && ReadEvent(j) == Some(Promised(inc, e))
    ensures DoublesAreFractional(inc, e)
  {
    if inc.fields && e.fields != [] {
      LookupExact(j.members, "fields");
      var fields := Lookup(j.members, "fields").value;
      forall k | 0 <= k < |e.fields| && e.fields[k].value.DoubleValue? ensures Fractional(e.fields[k].value.token) {
        assert ReadFields(fields.members)[k] == e.fields[k];
        assert Exact(fields.members[k].value);
      }
    }
  }

  /** The record of an event, parsed as RFC 8259 says, gives back the event, for every setting
      of the three flags and arbitrary strings, exactly when every double in the rendered
      fields was printed with a fraction or an exponent. */
  lemma RecordReadsBackExactly(inc: Includes, e: Event)
    ensures (exists j :: ParseText(Rendered(inc, e)) == Good(j, "") && ReadEvent(j) == Some(Promised(inc, e)))
            <==> DoublesAreFractional(inc, e)
    ensures DoublesAreFractional(inc, e) ==> ParseText(Rendered(inc, e)) == Good(Document(inc, e), "")
  {
    var doc := Document(inc, e);
    ExactDocument(inc, e);
    ReadsBackExactly(doc);
    DocumentReadsBack(inc, e);
    if j :| ParseText(Rendered(inc, e)) == Good(j, "") && ReadEvent(j) == Some(Promised(inc, e)) {
      ParsedIsExact(SkipSpace(Rendered(inc, e)));
      ExactReadsFractional(j, inc, e);
    }
  }

  /** The double 1.0 prints as 1, and is then the same record as the integer 1. */
  lemma WholeDoubleReadsAsInteger(inc: Includes, e: Event, d: Event)
    requires inc.fields && e.fields == [Field("x", DoubleValue("1"))] && d == e.(fields := [Field("x", IntValue(1))])
    ensures Rendered(inc, e) == Rendered(inc, d) && Promised(inc, e) != Promised(inc, d)
    ensures !DoublesAreFractional(inc, e)
  {
    var x, y := JToken("1"), JInt(1);
    assert FieldMembers(e.fields) == [Member("x", x)] && FieldMembers(d.fields) == [Member("x", y)];
    assert Decimal(1) == "1";
    assert Print(x) == Print(y);
    assert PrintMembers([Member("x", x)]) == PrintMembers([Member("x", y)]);
    assert Print(Fields(e).value) == Print(Fields(d).value);
    var context := Context(e, inc.thread, inc.source);
    MembersAppend(context, Fields(e));
    MembersAppend(context, Fields(d));
    assert PrintMember(Fields(e)) == PrintMember(Fields(d));
    RecordReadsBackExactly(inc, e);
    RecordReadsBackExactly(inc, d);
    DocumentReadsBack(inc, e);
    DocumentReadsBack(inc, d);
  }

  // ---------------------------------------------------------------- framing

  predicate OneLine(s: string) {
    forall k | 0 <= k < |s| :: s[k] != '\n'
  }

  /** Exactly one newline, and it is last. */
  predicate IsRecord(s: string) {
    s != "" && s[|s| - 1] == '\n' && OneLine(s[..|s| - 1])
  }

  /** Cuts a text after every newline; what follows the last one is a piece of its own. */
  function Lines(s: string): (lines: seq<string>)
    ensures s == "" <==> lines == []
  {
    if s == "" then []
    else if s[0] == '\n' then ["\n"] + Lines(s[1..])
    else
      var rest := Lines(s[1..]);
      if rest == [] then [[s[0]]] else [[s[0]] + rest[0]] + rest[1..]
  }

  lemma {:induction false} OneRecordIsOneLine(r: string)
    requires IsRecord(r)
    ensures Lines(r) == [r]
  {
    if |r| > 1 {
      assert r[0] == r[..|r| - 1][0];
      assert r[1..][..|r[1..]| - 1] == r[..|r| - 1][1..];
      OneRecordIsOneLine(r[1..]);
      assert [r[0]] + r[1..] == r;
    } else {
      assert r == "\n" && r[1..] == "";
    }
  }

  lemma {:induction false} LinesAppend(s: string, r: string)
    requires IsRecord(r) && (s == "" || s[|s| - 1] == '\n')
    ensures Lines(s + r) == Lines(s) + [r]
  {
    if s == "" {
      OneRecordIsOneLine(r);
      assert s + r == r;
    } else {
      assert (s + r)[1..] == s[1..] + r && (s + r)[0] == s[0];
      LinesAppend(s[1..], r);
      if s[0] != '\n' {
        var rest := Lines(s[1..]);
        assert rest != [];
        assert (rest + [r])[1..] == rest[1..] + [r];
      }
    }
  }

  /** The bytes of a file of records split at newlines into exactly those records. */
  lemma {:induction false} FileSplitsIntoRecords(f: FileSink.File)
    requires forall k | 0 <= k < |f| :: IsRecord(f[k])
    ensures Lines(FileSink.Bytes(f)) == f
    ensures f != [] ==> FileSink.Bytes(f) != "" && FileSink.Bytes(f)[|FileSink.Bytes(f)| - 1] == '\n'
  {
    if f != [] {
      var init, r := f[..|f| - 1], f[|f| - 1];
      FileSplitsIntoRecords(init);
      LinesAppend(FileSink.Bytes(init), r);
      assert init + [r] == f;
    }
  }

  // ---------------------------------------------------------------- every rendering is a record

  predicate PlainTokens(j: Json) {
    match j
    case JToken(text) => OneLine(text)
    case JArray(items) => forall k | 0 <= k < |items| :: PlainTokens(items[k])
    case JObject(members) => forall k | 0 <= k < |members| :: PlainTokens(members[k].value)
    case _ => true
  }

  lemma EscapedIsOneLine(s: string)
    ensures OneLine(Quote(s))
  {
    BodyIsOneLine(s);
  }

  lemma {:induction false} BodyIsOneLine(s: string)
    ensures OneLine(EscapeBody(s))
  {
    if s != "" {
      BodyIsOneLine(s[..|s| - 1]);
    }
  }

  lemma {:induction false} PrintIsOneLine(j: Json)
    requires PlainTokens(j)
    ensures OneLine(Print(j))
    decreases j, 1
  {
    match j
    case JString(s) => EscapedIsOneLine(s);
    case JArray(items) => ItemsAreOneLine(items);
    case JObject(members) => MembersAreOneLine(members);
    case _ =>
  }

  lemma {:induction false} ItemsAreOneLine(items: seq<Json>)
    requires forall k | 0 <= k < |items| :: PlainTokens(items[k])
    ensures OneLine(PrintItems(items))
    decreases items, 0
  {
    if items != [] {
      PrintIsOneLine(items[0]);
      ItemsAreOneLine(items[1..]);
    }
  }

  lemma {:induction false} MembersAreOneLine(members: seq<Member>)
    requires forall k | 0 <= k < |members| :: PlainTokens(members[k].value)
    ensures OneLine(PrintMembers(members))
    decreases members, 0
  {
    if members != [] {
      EscapedIsOneLine(members[0].key);
      PrintIsOneLine(members[0].value);
      MembersAreOneLine(members[1..]);
    }
  }

  /** The text the standard formatter gives for a double has no newline. */
  predicate PlainDoubles(e: Event) {
    forall k | 0 <= k < |e.fields| && e.fields[k].value.DoubleValue? :: OneLine(e.fields[k].value.token)
  }

  /** Whatever bytes an event holds, its rendering has exactly one newline and it is last. */
  lemma RenderedIsRecord(inc: Includes, e: Event)
    requires PlainDoubles(e)
    ensures IsRecord(Rendered(inc, e))
  {
    var fields := FieldMembers(e.fields);
    assert forall k | 0 <= k < |fields| :: PlainTokens(fields[k].value);
    assert PlainTokens(Document(inc, e));
    PrintIsOneLine(Document(inc, e));
    var text := Print(Document(inc, e));
    assert (text + "\n")[..|text|] == text;
  }

  // ---------------------------------------------------------------- the retained log

  /** Rendered events with the date each write sees. */
  function Renders(inc: Includes, events: seq<Event>, dates: seq<string>): seq<FileSink.Record>
    requires |dates| == |events|
  {
    seq(|events|, k requires 0 <= k < |events| => FileSink.Record(Rendered(inc, events[k]), dates[k]))
  }

  /** The lines of all files, the oldest file first. */
  function AllLines(files: seq<FileSink.File>): seq<string> {
    if files == [] then [] else AllLines(files[..|files| - 1]) + Lines(FileSink.Bytes(files[|files| - 1]))
  }

  lemma {:induction false} AllLinesAreRecords(files: seq<FileSink.File>)
    requires forall k | 0 <= k < |FileSink.Flatten(files)| :: IsRecord(FileSink.Flatten(files)[k])
    ensures AllLines(files) == FileSink.Flatten(files)
  {
    if files != [] {
      var init, last := files[..|files| - 1], files[|files| - 1];
      var all := FileSink.Flatten(files);
      assert forall k | 0 <= k < |FileSink.Flatten(init)| :: FileSink.Flatten(init)[k] == all[k];
      AllLinesAreRecords(init);
      assert forall k | 0 <= k < |last| :: last[k] == all[|FileSink.Flatten(init)| + k];
      FileSplitsIntoRecords(last);
    }
  }

  /** The line is the rendering of the event, and reads back as it. */
  ghost predicate IsLineOf(line: string, inc: Includes, e: Event) {
    && line == Rendered(inc, e)
    && (DoublesAreFractional(inc, e) ==>
          exists j :: ParseText(line) == Good(j, "") && ReadEvent(j) == Some(Promised(inc, e)))
  }

  lemma SuffixReadsBack(inc: Includes, events: seq<Event>, dates: seq<string>, lost: FileSink.File,
                        files: seq<FileSink.File>)
    requires |dates| == |events|
    requires forall k | 0 <= k < |events| :: PlainDoubles(events[k])
    requires FileSink.Payload(Renders(inc, events, dates)) == lost + FileSink.Flatten(files)
    ensures |lost| + |AllLines(files)| == |events|
    ensures forall k | 0 <= k < |AllLines(files)| :: IsLineOf(AllLines(files)[k], inc, events[|lost| + k])
  {
    var kept, payload := FileSink.Flatten(files), FileSink.Payload(Renders(inc, events, dates));
    assert |payload| == |events|;
    forall k | 0 <= k < |kept| ensures IsLineOf(kept[k], inc, events[|lost| + k]) && IsRecord(kept[k]) {
      assert kept[k] == payload[|lost| + k] == Rendered(inc, events[|lost| + k]);
      RenderedIsRecord(inc, events[|lost| + k]);
      RecordReadsBackExactly(inc, events[|lost| + k]);
    }
    AllLinesAreRecords(files);
  }

  /** The log a rotating sink keeps, in any mode and whatever the dates: cutting its files at
      newlines, the oldest archive first, gives the records of the last of the events written,
      in order, with none missing in between, and each line parses back to its event. */
  lemma RetainedLogReadsBack(inc: Includes, events: seq<Event>, dates: seq<string>, m: FileSink.Mode, openedDay: string)
    requires |dates| == |events|
    requires forall k | 0 <= k < |events| :: PlainDoubles(events[k])
    ensures var records := Renders(inc, events, dates);
            var n, files := FileSink.ArchivesAfter(m, records, openedDay), FileSink.FilesAfter(m, records, openedDay);
            && (forall i: nat :: i in files <==> i <= n)
            && var lines := AllLines(FileSink.Disk(files, n));
            && |lines| <= |events|
            && forall k | 0 <= k < |lines| :: IsLineOf(lines[k], inc, events[|events| - |lines| + k])
  {
    var records := Renders(inc, events, dates);
    var lost := FileSink.FreshRetainsSuffix(m, records, openedDay);
    var n, files := FileSink.ArchivesAfter(m, records, openedDay), FileSink.FilesAfter(m, records, openedDay);
    SuffixReadsBack(inc, events, dates, lost, FileSink.Disk(files, n));
  }
}
