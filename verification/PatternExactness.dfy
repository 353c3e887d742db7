/**
Exactly which texts and which patterns the renderer renders as promised.  A text or a pattern
that is not safe is completed to a hidden key: the pass of that key replaces it by a value of
at most one character, and no later pass makes up for the loss.
*/
module PatternExactness {
  import opened Events
  import opened Text
  import opened PatternRenderer
  import opened PatternTheorems

  // ---------------------------------------------------------------- short values shrink hidden keys

  /** A token and the text after it. */
  datatype Gap = Gap(k: nat, text: string)

  ghost predicate GapsFrom(gaps: seq<Gap>, from: nat) {
    forall i | 0 <= i < |gaps| :: from <= gaps[i].k < TOKENS
  }

  ghost function Spread(first: string, gaps: seq<Gap>): string
    requires GapsFrom(gaps, 0)
    decreases |gaps|
  {
    if gaps == [] then first else first + (Key(gaps[0].k) + Spread(gaps[0].text, gaps[1..]))
  }

  /** The length with every token replaced by its value. */
  ghost function FilledLength(first: string, gaps: seq<Gap>, values: seq<string>): nat
    requires GapsFrom(gaps, 0) && |values| == TOKENS
    decreases |gaps|
  {
    |first| + if gaps == [] then 0 else |values[gaps[0].k]| + FilledLength(gaps[0].text, gaps[1..], values)
  }

  /** Of the values from k on none is longer than one character. */
  ghost predicate ShortFrom(values: seq<string>, k: nat) {
    |values| == TOKENS && forall i | k <= i < TOKENS :: |values[i]| <= 1
  }

  lemma {:induction false} ReplacingNeverGrows(s: string, key: string, v: string)
    requires key != "" && |v| <= |key|
    ensures |Replaced(s, key, v)| <= |s|
    decreases |s|
  {
    if s != "" {
      ReplacingNeverGrows(if key <= s then s[|key|..] else s[1..], key, v);
    }
  }

  /** A pass treats the text before an opening brace on its own. */
  lemma {:induction false} SplitsAtBrace(a: string, b: string, k: nat, v: string)
    requires k < TOKENS && (b == "" || b[0] == '{')
    ensures Replaced(a + b, Key(k), v) == Replaced(a, Key(k), v) + Replaced(b, Key(k), v)
    decreases |a|
  {
    if a == "" {
      assert a + b == b;
    } else {
      var key := Key(k);
      if key <= a + b {
        KeyStops(k, a, b);
        SplitsAtBrace(a[|key|..], b, k, v);
        assert (a + b)[|key|..] == a[|key|..] + b;
        Assoc(v, Replaced(a[|key|..], key, v), Replaced(b, key, v));
      } else {
        SplitsAtBrace(a[1..], b, k, v);
        assert (a + b)[1..] == a[1..] + b && (a + b)[0] == a[0];
        assert !(key <= a);
        Assoc([a[0]], Replaced(a[1..], key, v), Replaced(b, key, v));
      }
    }
  }

  lemma GapsTail(gaps: seq<Gap>, from: nat)
    requires GapsFrom(gaps, from) && gaps != []
    ensures GapsFrom(gaps[1..], from)
  {
    assert forall i | 0 <= i < |gaps[1..]| :: gaps[1..][i] == gaps[i + 1];
  }

  /** One pass replaces its own tokens and, in the texts between tokens, perhaps more. */
  lemma {:induction false} FillOne(first: string, gaps: seq<Gap>, values: seq<string>, k: nat)
    returns (first': string, gaps': seq<Gap>)
    requires k < TOKENS && GapsFrom(gaps, k) && ShortFrom(values, k)
    ensures GapsFrom(gaps', k + 1)
    ensures Replaced(Spread(first, gaps), Key(k), values[k]) == Spread(first', gaps')
    ensures FilledLength(first', gaps', values) <= FilledLength(first, gaps, values)
    decreases |gaps|
  {
    var v := values[k];
    ReplacingNeverGrows(first, Key(k), v);
    first', gaps' := Replaced(first, Key(k), v), [];
    if gaps != [] {
      GapsTail(gaps, k);
      var gap, rest := gaps[0], Spread(gaps[0].text, gaps[1..]);
      var text, others := FillOne(gap.text, gaps[1..], values, k);
      FillFirst(first, gap.k, rest, k, v);
      if gap.k == k {
        JoinFirst(v, text, others, values);
        JoinFirst(first', v + text, others, values);
        first', gaps' := first' + (v + text), others;
      } else {
        gaps' := [Gap(gap.k, text)] + others;
        assert gaps'[1..] == others;
      }
    }
  }

  lemma FillFirst(first: string, j: nat, rest: string, k: nat, v: string)
    requires j < TOKENS && k < TOKENS
    ensures Replaced(first + (Key(j) + rest), Key(k), v) ==
            Replaced(first, Key(k), v) + ((if j == k then v else Key(j)) + Replaced(rest, Key(k), v))
  {
    SplitsAtBrace(first, Key(j) + rest, k, v);
    if j == k {
      ReplacedHere(Key(k), rest, v);
    } else {
      OtherKeyCopied(j, k, rest, v);
    }
  }

  lemma JoinFirst(a: string, first: string, gaps: seq<Gap>, values: seq<string>)
    requires GapsFrom(gaps, 0) && |values| == TOKENS
    ensures Spread(a + first, gaps) == a + Spread(first, gaps)
    ensures FilledLength(a + first, gaps, values) == |a| + FilledLength(first, gaps, values)
  {
  }

  /** With short values the passes from k on never make a text longer than filling the tokens
      that can be seen in it. */
  lemma {:induction false} FillAll(first: string, gaps: seq<Gap>, values: seq<string>, k: nat)
    requires k <= TOKENS && GapsFrom(gaps, k) && ShortFrom(values, k)
    ensures |Passes(Spread(first, gaps), values, k)| <= FilledLength(first, gaps, values)
    decreases TOKENS - k
  {
    if k < TOKENS {
      var first', gaps' := FillOne(first, gaps, values, k);
      FillAll(first', gaps', values, k + 1);
    } else {
      assert gaps == [];
    }
  }

  // ---------------------------------------------------------------- exactly which texts are safe

  /** An event with one text of interest, and nothing else to say. */
  function OnlyText(k: nat, v: string): Event {
    Event(if k == 0 then v else "1970-01-01 00:00:00", if k == 1 then v else "", 0, if k == 3 then v else "",
          if k == 4 then v else "", 0, if k == 5 then v else "", 0, if k == 7 then v else "", [])
  }

  lemma OnlyTextValues(k: nat, v: string)
    requires Free(k, false)
    ensures Values(OnlyText(k, v))[k] == v && ShortFrom(Values(OnlyText(k, v)), k + 1)
  {
    var e := OnlyText(k, v);
    assert Decimal(0) == "0";
    assert Values(e)[0] == e.time && Values(e)[1] == e.severityName && Values(e)[3] == e.endpoint;
    assert Values(e)[4] == e.message && Values(e)[5] == e.file && Values(e)[7] == e.func;
    assert Values(e)[2] == "0" && Values(e)[6] == "0" && Values(e)[8] == "0";
  }

  lemma OnlyTextOthersInert(k: nat, v: string)
    requires Free(k, false)
    ensures OthersInert(OnlyText(k, v), k)
    ensures k != 0 ==> PrintedTime(OnlyText(k, v).time)
  {
    PrintedTimeInert("1970-01-01 00:00:00");
    NoBraceInert("", 2);
    NoBraceInert("", 4);
    NoBraceInert("", 5);
    NoBraceInert("", 6);
    NoBraceInert("", 8);
  }

  /** Every text of the event but token k's is inert for the passes after its own. */
  ghost predicate OthersInert(e: Event, k: nat) {
    && (k != 0 ==> Inert(e.time, 1)) && (k != 1 ==> Inert(e.severityName, 2)) && (k != 3 ==> Inert(e.endpoint, 4))
    && (k != 4 ==> Inert(e.message, 5)) && (k != 5 ==> Inert(e.file, 6)) && (k != 7 ==> Inert(e.func, 8))
  }

  lemma OnlyTextInert(k: nat, v: string, dated: bool)
    requires Free(k, dated) && Inert(v, k + 1)
    ensures TextsInert(OnlyText(k, v)) && InClass(OnlyText(k, v), dated)
  {
    OnlyTextOthersInert(k, v);
  }

  lemma {:induction false} ParseNoBrace(text: string)
    requires '{' !in text && text != ""
    ensures Parse(text) == [Literal(text)]
    decreases |text|
  {
    assert TokenAt(text, 0).None? by {
      assert text[0] in text;
    }
    if |text| > 1 {
      ParseNoBrace(text[1..]);
      assert [text[0]] + text[1..] == text;
    } else {
      assert text[1..] == "" && text == [text[0]];
    }
  }

  lemma ParseTokenThen(k: nat, text: string)
    requires k < TOKENS && '{' !in text
    ensures Parse(Key(k) + text) == if text == "" then [Token(k)] else [Token(k), Literal(text)]
  {
    var s := Key(k) + text;
    assert Key(k) <= s;
    var found := TokenAt(s, 0);
    assert found.Some?;
    if found.value != k {
      KeysDiffer(found.value, k);
      PrefixOfBoth(Key(found.value), Key(k), text);
    }
    assert s[|Key(k)|..] == text;
    if text != "" {
      ParseNoBrace(text);
    }
  }

  /** The pattern that gives a value away: the token, then the rest of the key it can begin. */
  ghost function Completion(v: string, p: nat, j: nat): string
    requires j < TOKENS && p < |v|
  {
    if Key(j) <= v[p..] then "" else if v[p..] <= Key(j) then Key(j)[|v| - p..] else ""
  }

  /** A completed text is a text around a key. */
  lemma CompletionWorks(v: string, p: nat, j: nat) returns (after: string)
    requires j < TOKENS && p < |v| && Comparable(v[p..], Key(j))
    ensures '{' !in Completion(v, p, j)
    ensures v + Completion(v, p, j) == Spread(v[..p], [Gap(j, after)])
    ensures !(Key(j) <= v[p..]) ==> after == ""
  {
    var key, tail, r := Key(j), v[p..], Completion(v, p, j);
    assert v == v[..p] + tail;
    if key <= tail {
      after := tail[|key|..];
      StartsWithKey(tail, key);
      assert v + "" == v;
    } else {
      after := "";
      RestOfKey(j, |tail|);
      assert tail + r == key && key + "" == key;
      Assoc(v[..p], tail, r);
    }
    AroundKey(v[..p], j, after);
  }

  lemma AroundKey(first: string, j: nat, after: string)
    requires j < TOKENS
    ensures Spread(first, [Gap(j, after)]) == first + (Key(j) + after)
  {
    assert [Gap(j, after)][1..] == [];
  }

  lemma RestOfKey(k: nat, n: nat)
    requires k < TOKENS && 1 <= n <= |Key(k)|
    ensures '{' !in Key(k)[n..]
  {
    forall i | 0 <= i < |Key(k)[n..]| ensures Key(k)[n..][i] != '{' {
      assert Key(k)[n..][i] == Key(k)[n + i];
    }
  }

  lemma TokenThenText(k: nat, text: string, values: seq<string>, dated: bool)
    requires k < TOKENS && '{' !in text && |values| == TOKENS
    ensures PatternSafe(Key(k) + text, dated)
    ensures Promised(Key(k) + text, values) == EndLine(values[k] + text)
  {
    var pieces := Parse(Key(k) + text);
    ParseTokenThen(k, text);
    ParseFlat(Key(k) + text);
    if text == "" {
      assert [Token(k)][1..] == [];
      assert Expand([Token(k)], values) == values[k] + "" == values[k] + text;
    } else {
      assert [Token(k), Literal(text)][1..] == [Literal(text)] && [Literal(text)][1..] == [];
      assert Expand([Literal(text)], values) == text + "" == text;
    }
  }

  lemma {:induction false} EarlyPassesCopy(k: nat, text: string, values: seq<string>, i: nat)
    requires i <= k < TOKENS && '{' !in text && |values| == TOKENS
    ensures Passes(Key(k) + text, values, i) == Passes(values[k] + text, values, k + 1)
    decreases k - i
  {
    NoBraceInert(text, 0);
    PassCopies(text, "", i, values[i]);
    assert text + "" == text;
    if i < k {
      OtherKeyCopied(k, i, text, values[i]);
      EarlyPassesCopy(k, text, values, i + 1);
    } else {
      assert (Key(k) + text)[|Key(k)|..] == text;
    }
  }

  /** A text that is not inert for the passes after its own is rendered wrongly by some safe
      pattern, in an event with no other text. */
  lemma UnsafeTextBreaks(k: nat, v: string, dated: bool) returns (pattern: string)
    requires Free(k, dated) && !Inert(v, k + 1)
    ensures PatternSafe(pattern, dated)
    ensures var e := OnlyText(k, v); EndLine(Passes(pattern, Values(e), 0)) != PromisedFor(pattern, e)
  {
    var p, j :| 0 <= p < |v| && k + 1 <= j < TOKENS && Comparable(v[p..], Key(j));
    var values, r := Values(OnlyText(k, v)), Completion(v, p, j);
    OnlyTextValues(k, v);
    var after := CompletionWorks(v, p, j);
    pattern := Key(k) + r;
    TokenThenText(k, r, values, dated);
    PromisedByName(pattern, OnlyText(k, v));
    EarlyPassesCopy(k, r, values, 0);
    KeyInsideShrinks(v + r, v[..p], j, after, values, k + 1);
    ShorterDiffers(Passes(v + r, values, k + 1), v + r);
  }

  lemma KeyInsideShrinks(s: string, first: string, j: nat, after: string, values: seq<string>, k: nat)
    requires k <= j < TOKENS && ShortFrom(values, k)
    requires s == Spread(first, [Gap(j, after)])
    ensures |Passes(s, values, k)| <= |s| - 4
  {
    FillAll(first, [Gap(j, after)], values, k);
    OneGap(first, j, after, values);
  }

  lemma ShorterDiffers(a: string, b: string)
    requires |a| <= |b| - 4
    ensures EndLine(a) != EndLine(b)
  {
  }

  lemma OneGap(first: string, j: nat, after: string, values: seq<string>)
    requires j < TOKENS && |values| == TOKENS
    ensures FilledLength(first, [Gap(j, after)], values) == |first| + |values[j]| + |after|
    ensures |Spread(first, [Gap(j, after)])| >= |first| + |after| + 5
  {
    assert [Gap(j, after)][1..] == [];
  }

  /** Exactly which texts are safe: a text v may be the text of token k in every event whose
      other texts are inert, rendered by every safe pattern, if and only if v itself is inert
      for the passes that run after token k's. */
  lemma TextSafeExactly(k: nat, v: string, dated: bool)
    requires Free(k, dated)
    ensures (forall pattern, e: Event
               | PatternSafe(pattern, dated) && InClass(e, dated) && Named(Key(k), e) == v && OthersInert(e, k) ::
               EndLine(Passes(pattern, Values(e), 0)) == PromisedFor(pattern, e))
            <==> Inert(v, k + 1)
  {
    if Inert(v, k + 1) {
      forall pattern, e: Event
        | PatternSafe(pattern, dated) && InClass(e, dated) && Named(Key(k), e) == v && OthersInert(e, k)
        ensures EndLine(Passes(pattern, Values(e), 0)) == PromisedFor(pattern, e)
      {
        ValuesNamed(e, k);
        OneMoreInert(e, k);
        EventRendersAsPromised(pattern, e, dated);
      }
    } else {
      var pattern := UnsafeTextBreaks(k, v, dated);
      OnlyTextValues(k, v);
      ValuesNamed(OnlyText(k, v), k);
      OnlyTextOthersInert(k, v);
    }
  }

  lemma OneMoreInert(e: Event, k: nat)
    requires Free(k, false) && OthersInert(e, k) && Inert(Values(e)[k], k + 1)
    ensures TextsInert(e)
  {
    assert Values(e)[0] == e.time && Values(e)[1] == e.severityName && Values(e)[3] == e.endpoint;
    assert Values(e)[4] == e.message && Values(e)[5] == e.file && Values(e)[7] == e.func;
  }

  // ---------------------------------------------------------------- exactly which patterns are safe

  lemma {:induction false} AsGaps(pieces: seq<Piece>, from: nat, values: seq<string>)
    returns (first: string, gaps: seq<Gap>)
    requires WellFormed(pieces, from) && |values| == TOKENS
    ensures GapsFrom(gaps, from)
    ensures WellFormed(pieces, 0) && Flat(pieces) == Spread(first, gaps)
    ensures FilledLength(first, gaps, values) == |Expand(pieces, values)|
  {
    first, gaps := "", [];
    if pieces != [] {
      assert forall i | 0 <= i < |pieces[1..]| :: pieces[1..][i] == pieces[i + 1];
      first, gaps := AsGaps(pieces[1..], from, values);
      match pieces[0]
      case Literal(text) =>
        JoinFirst(text, first, gaps, values);
        first := text + first;
      case Token(k) =>
        assert ([Gap(k, first)] + gaps)[1..] == gaps;
        first, gaps := "", [Gap(k, first)] + gaps;
    }
  }

  lemma {:induction false} FlatConcat(a: seq<Piece>, b: seq<Piece>)
    requires WellFormed(a, 0) && WellFormed(b, 0)
    ensures WellFormed(a + b, 0) && Flat(a + b) == Flat(a) + Flat(b)
  {
    if a == [] {
      assert a + b == b;
    } else {
      var head, rest := a[0], a[1..];
      var more := rest + b;
      assert a == [head] + rest && a + b == [head] + more;
      FlatHead(a);
      FlatConcat(rest, b);
      FlatCons(head, more);
      Assoc(PatternText(head), Flat(rest), Flat(b));
    }
  }

  lemma FlatCons(head: Piece, rest: seq<Piece>)
    requires WellFormed(rest, 0) && (head.Token? ==> head.k < TOKENS)
    ensures WellFormed([head] + rest, 0) && Flat([head] + rest) == PatternText(head) + Flat(rest)
  {
    assert ([head] + rest)[1..] == rest;
  }

  lemma {:induction false} LengthConcat(a: seq<Piece>, b: seq<Piece>, values: seq<string>)
    requires WellFormed(a, 0) && WellFormed(b, 0) && |values| == TOKENS
    ensures WellFormed(a + b, 0) && |Expand(a + b, values)| == |Expand(a, values)| + |Expand(b, values)|
  {
    if a == [] {
      assert a + b == b;
    } else {
      assert forall i | 0 <= i < |a[1..]| :: a[1..][i] == a[i + 1];
      LengthConcat(a[1..], b, values);
      assert (a + b)[1..] == a[1..] + b;
    }
  }

  /** Exchanging pieces for others with the same text. */
  lemma Exchange(a: seq<Piece>, b: seq<Piece>, b': seq<Piece>, c: seq<Piece>, values: seq<string>)
    requires WellFormed(a, 0) && WellFormed(b, 0) && WellFormed(b', 0) && WellFormed(c, 0) && |values| == TOKENS
    requires Flat(b) == Flat(b')
    ensures WellFormed(a + (b + c), 0) && WellFormed(a + (b' + c), 0) && Flat(a + (b + c)) == Flat(a + (b' + c))
    ensures |Expand(a + (b + c), values)| - |Expand(a + (b' + c), values)| == |Expand(b, values)| - |Expand(b', values)|
  {
    FlatConcat(b, c);
    FlatConcat(b', c);
    FlatConcat(a, b + c);
    FlatConcat(a, b' + c);
    LengthConcat(b, c, values);
    LengthConcat(b', c, values);
    LengthConcat(a, b + c, values);
    LengthConcat(a, b' + c, values);
  }

  /** A literal and the value after it that together end in a key. */
  lemma HiddenToken(text: string, v: string, p: nat, j: nat, values: seq<string>)
    requires j < TOKENS && p <= |text| && text[p..] + v == Key(j) && |values| == TOKENS
    ensures WellFormed([Literal(text), Literal(v)], 0) && WellFormed([Literal(text[..p]), Token(j)], 0)
    ensures Flat([Literal(text), Literal(v)]) == Flat([Literal(text[..p]), Token(j)])
    ensures |Expand([Literal(text), Literal(v)], values)| ==
            |Expand([Literal(text[..p]), Token(j)], values)| - |values[j]| + |Key(j)|
  {
    OnePiece(Literal(v), values);
    OnePiece(Token(j), values);
    assert [Literal(text), Literal(v)][1..] == [Literal(v)];
    assert [Literal(text[..p]), Token(j)][1..] == [Token(j)];
    assert text + v == text[..p] + (text[p..] + v);
  }

  lemma OnePiece(piece: Piece, values: seq<string>)
    requires (piece.Token? ==> piece.k < TOKENS) && |values| == TOKENS
    ensures WellFormed([piece], 0) && Flat([piece]) == PatternText(piece)
    ensures |Expand([piece], values)| == if piece.Literal? then |piece.text| else |values[piece.k]|
  {
    assert [piece][1..] == [];
    assert PatternText(piece) + "" == PatternText(piece);
  }

  lemma HiddenInside(a: seq<Piece>, x: string, y: string, c: seq<Piece>, values: seq<string>, from: nat, p: nat, j: nat)
    requires from <= j < TOKENS && WellFormed(a, from) && WellFormed(c, from) && ShortFrom(values, from)
    requires p <= |x| && x[p..] + y == Key(j)
    ensures var pieces := a + ([Literal(x), Literal(y)] + c);
            WellFormed(pieces, 0) && |Passes(Flat(pieces), values, from)| <= |Expand(pieces, values)| - 4
  {
    var b, b' := [Literal(x), Literal(y)], [Literal(x[..p]), Token(j)];
    HiddenToken(x, y, p, j, values);
    Exchange(a, b, b', c, values);
    assert WellFormed(a + (b' + c), from);
    TokensShrink(a + (b' + c), values, from);
  }

  /** Pieces that hide a key between two literals end up shorter than they should. */
  lemma HiddenKeyShrinks(pieces: seq<Piece>, values: seq<string>, from: nat, i: nat, p: nat, j: nat)
    requires from <= j < TOKENS && WellFormed(pieces, from) && ShortFrom(values, from)
    requires i + 1 < |pieces| && pieces[i].Literal? && pieces[i + 1].Literal? && p <= |pieces[i].text|
    requires pieces[i].text[p..] + pieces[i + 1].text == Key(j)
    ensures WellFormed(pieces, 0)
    ensures |Passes(Flat(pieces), values, from)| <= |Expand(pieces, values)| - 4
  {
    var a, x, y, c := pieces[..i], pieces[i].text, pieces[i + 1].text, pieces[i + 2..];
    AroundPair(pieces, i);
    HiddenInside(a, x, y, c, values, from, p, j);
  }

  lemma AroundPair(pieces: seq<Piece>, i: nat)
    requires i + 1 < |pieces|
    ensures pieces == pieces[..i] + ([pieces[i], pieces[i + 1]] + pieces[i + 2..])
  {
  }

  lemma TokensShrink(pieces: seq<Piece>, values: seq<string>, from: nat)
    requires from <= TOKENS && WellFormed(pieces, from) && ShortFrom(values, from)
    ensures WellFormed(pieces, 0) && |Passes(Flat(pieces), values, from)| <= |Expand(pieces, values)|
  {
    var first, gaps := AsGaps(pieces, from, values);
    FillAll(first, gaps, values, from);
  }

  lemma {:induction false} FirstRisk(risks: set<(nat, nat)>) returns (first: (nat, nat))
    requires risks != {}
    ensures first in risks && forall r | r in risks :: first.1 <= r.1
  {
    first :| first in risks;
    if risks != {first} {
      var others := risks - {first};
      assert risks == others + {first} && others != {};
      var least := FirstRisk(others);
      first := if least.1 < first.1 then least else first;
    }
  }

  /** A pattern that is not safe is rendered wrongly for some event with inert texts: take the
      least token that follows a risky literal, let its text complete the key, and leave every
      other text empty. */
  lemma UnsafePatternBreaks(pattern: string, dated: bool) returns (e: Event)
    requires !PatternSafe(pattern, dated)
    ensures TextsInert(e) && InClass(e, dated)
    ensures EndLine(Passes(pattern, Values(e), 0)) != PromisedFor(pattern, e)
  {
    ParseFlat(pattern);
    ParseClean(pattern);
    var pieces := Parse(pattern);
    var first := FirstRisk(Risks(pieces, dated));
    var i, m := first.0, first.1;
    var p, j := CanBegin(pieces[i].text, m);
    e := CompletingEvent(pieces[i].text, p, j, m, dated);
    EventValuesInert(e, dated);
    CleanIsSafe(pieces, m, dated);
    CompletedLiteralShrinks(pieces, Values(e), i, m, p, j, dated);
    ShorterDiffers(Passes(pattern, Values(e), 0), Expand(pieces, Values(e)));
    PromisedByName(pattern, e);
  }

  lemma CanBegin(text: string, m: nat) returns (p: nat, j: nat)
    requires !Inert(text, m + 1) && NoKeyIn(text)
    ensures p < |text| && m < j < TOKENS && |text| - p < |Key(j)| && text[p..] <= Key(j)
  {
    p, j :| p < |text| && m + 1 <= j < TOKENS && Comparable(text[p..], Key(j));
    assert !(Key(j) <= text[p..]);
  }

  lemma CompletingEvent(text: string, p: nat, j: nat, m: nat, dated: bool) returns (e: Event)
    requires p < |text| && m < j < TOKENS && Free(m, dated) && |text| - p < |Key(j)| && text[p..] <= Key(j)
    ensures TextsInert(e) && InClass(e, dated) && text[p..] + Values(e)[m] == Key(j)
    ensures ShortFrom(Values(e), m + 1)
  {
    var v := Key(j)[|text| - p..];
    e := OnlyText(m, v);
    RestOfKey(j, |text| - p);
    NoBraceInert(v, m + 1);
    OnlyTextInert(m, v, dated);
    OnlyTextValues(m, v);
  }

  lemma CompletedLiteralShrinks(pieces: seq<Piece>, values: seq<string>, i: nat, m: nat, p: nat, j: nat, dated: bool)
    requires PiecesSafe(pieces, 0, m, dated) && i + 1 < |pieces| && pieces[i].Literal? && pieces[i + 1] == Token(m)
    requires p < |pieces[i].text| && m < j < TOKENS
    requires ValuesInert(values, dated) && pieces[i].text[p..] + values[m] == Key(j) && ShortFrom(values, m + 1)
    ensures |Passes(Flat(pieces), values, 0)| <= |Expand(pieces, values)| - 4
  {
    EarlyPasses(pieces, values, m + 1, m, dated);
    SettledExpands(pieces, values, m + 1);
    SettledHidesKey(pieces, Settled(pieces, values, m + 1), values, i, m, p, j);
  }

  lemma SettledHidesKey(pieces: seq<Piece>, settled: seq<Piece>, values: seq<string>, i: nat, m: nat, p: nat, j: nat)
    requires m < j < TOKENS && ShortFrom(values, m + 1)
    requires settled == Settled(pieces, values, m + 1) && WellFormed(settled, m + 1)
    requires i + 1 < |pieces| && pieces[i].Literal? && pieces[i + 1] == Token(m) && p < |pieces[i].text|
    requires pieces[i].text[p..] + values[m] == Key(j)
    ensures WellFormed(settled, 0) && |Passes(Flat(settled), values, m + 1)| <= |Expand(settled, values)| - 4
  {
    assert settled[i] == pieces[i] && settled[i + 1] == Literal(values[m]);
    HiddenKeyShrinks(settled, values, m + 1, i, p, j);
  }

  /** Exactly which patterns are safe: the renderer gives the promised text for every event with
      inert texts if and only if every literal that is directly followed by the token of a
      text is inert for the passes after that token's. */
  lemma PatternSafeExactly(pattern: string, dated: bool)
    ensures (forall e: Event | TextsInert(e) && InClass(e, dated) ::
               EndLine(Passes(pattern, Values(e), 0)) == PromisedFor(pattern, e))
            <==> PatternSafe(pattern, dated)
  {
    if PatternSafe(pattern, dated) {
      forall e: Event | TextsInert(e) && InClass(e, dated)
        ensures EndLine(Passes(pattern, Values(e), 0)) == PromisedFor(pattern, e)
      {
        EventRendersAsPromised(pattern, e, dated);
      }
    } else {
      var e := UnsafePatternBreaks(pattern, dated);
    }
  }

  /** The smallest cases: an opening brace directly before a token is safe exactly if the token
      stands for a number (or a printed time); an opening brace on its own is safe. */
  lemma BraceBeforeToken(k: nat, dated: bool)
    requires k < TOKENS
    ensures PatternSafe("{" + Key(k), dated) <==> !Free(k, dated)
    ensures PatternSafe("{", dated)
  {
    BraceAlone();
    ParseBraceThen(k);
    BraceRisks(k, dated);
  }

  lemma BraceRisks(k: nat, dated: bool)
    requires k < TOKENS
    ensures Risks([Literal("{"), Token(k)], dated) == {} <==> !Free(k, dated)
    ensures Risks([Literal("{")], dated) == {}
  {
    var pieces := [Literal("{"), Token(k)];
    if Free(k, dated) {
      BraceCanBegin(k + 1);
      assert Risky(pieces, 0, k, dated);
      assert (0, k) in Risks(pieces, dated);
    }
  }

  lemma BraceAlone()
    ensures Parse("{") == [Literal("{")]
  {
    assert "{"[1..] == "";
  }

  lemma BraceCanBegin(k: nat)
    requires k < TOKENS
    ensures !Inert("{", k)
  {
    assert "{"[0..] == "{" && "{" <= Key(k);
    assert Comparable("{"[0..], Key(k));
  }

  lemma ParseBraceThen(k: nat)
    requires k < TOKENS
    ensures Parse("{" + Key(k)) == [Literal("{"), Token(k)]
  {
    var s := "{" + Key(k);
    ParseTokenThen(k, "");
    assert s[1..] == Key(k) + "";
    NoKeyTwoBraces(s);
  }

  lemma NoKeyTwoBraces(s: string)
    requires |s| >= 2 && s[1] == '{'
    ensures TokenAt(s, 0).None?
  {
  }
}
