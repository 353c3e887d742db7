/** The parser undoes the printer, whatever text follows. */
module JsonRoundTrip {
  import opened Text
  import opened Json

  // ---------------------------------------------------------------- strings

  lemma HexDigitValue(n: nat)
    requires n < 16
    ensures HexValue(HexDigit(n)) == n
  {
  }

  /** The parser reads an escaped character back, and nothing more. */
  lemma CharRoundTrip(c: char, rest: string)
    ensures match ParseChars(rest)
            case Bad => true
            case Good(more, rest') => ParseChars(EscapeChar(c) + rest) == Good([c] + more, rest')
  {
    var s := EscapeChar(c) + rest;
    if c as int < 0x20 && |EscapeChar(c)| == 6 {
      HexDigitValue(c as int / 16);
      HexDigitValue(c as int % 16);
      assert s[1..][0] == 'u' && s[1..][1..][0] == '0' && s[1..][1..][1] == '0';
      assert s[1..][1..][2] == HexDigit(c as int / 16) && s[1..][1..][3] == HexDigit(c as int % 16);
      assert HexQuad(s[1..][1..]) == c as int;
      assert s[1..][5..] == rest;
      assert ParseEscape(s[1..]) == Good(c, rest);
    } else if |EscapeChar(c)| == 2 {
      assert s[1..][1..] == rest;
      assert ParseEscape(s[1..]) == Good(c, rest);
    } else {
      assert EscapeChar(c) == [c] && s[1..] == rest;
    }
  }

  lemma Regroup3(a: string, b: string, c: string)
    ensures a + b + c == a + (b + c)
  {
  }

  lemma DropFirst(a: string, b: string)
    requires |a| == 1
    ensures (a + b)[1..] == b && (a + b)[0] == a[0]
  {
  }

  lemma Moved(init: string, c: char, more: string)
    ensures init + ([c] + more) == (init + [c]) + more
  {
  }

  lemma {:induction false} CharsRoundTrip(s: string, more: string, tail: string, rest: string, text: string)
    requires ParseChars(tail) == Good(more, rest) && text == EscapeBody(s) + tail
    ensures ParseChars(text) == Good(s + more, rest)
    decreases |s|
  {
    if s == "" {
      assert text == tail && s + more == more;
    } else {
      var init, c := s[..|s| - 1], s[|s| - 1];
      CharRoundTrip(c, tail);
      Regroup3(EscapeBody(init), EscapeChar(c), tail);
      CharsRoundTrip(init, [c] + more, EscapeChar(c) + tail, rest, text);
      Moved(init, c, more);
      assert init + [c] == s;
    }
  }

  /** parseString(escape(s) ++ rest) = (s, rest), for every string. */
  lemma StringRoundTrip(s: string, rest: string)
    ensures Quote(s) + rest != "" && (Quote(s) + rest)[0] == '"'
    ensures ParseChars((Quote(s) + rest)[1..]) == Good(s, rest)
  {
    var tail := "\"" + rest;
    DropFirst("\"", rest);
    assert ParseChars(tail) == Good("", rest);
    CharsRoundTrip(s, "", tail, rest, EscapeBody(s) + tail);
    Regroup3("\"" + EscapeBody(s), "\"", rest);
    Regroup3("\"", EscapeBody(s), tail);
    DropFirst("\"", EscapeBody(s) + tail);
    assert s + "" == s;
  }

  // ---------------------------------------------------------------- numbers

  /** What may follow a number without being taken for a part of it. */
  predicate EndsNumber(rest: string) {
    rest == "" || !('0' <= rest[0] <= '9' || rest[0] == '.' || rest[0] == 'e' || rest[0] == 'E')
  }

  lemma {:induction false} DigitRunOf(digits: string, rest: string)
    requires Digits(digits) && (rest == "" || !('0' <= rest[0] <= '9'))
    ensures DigitRun(digits + rest) == |digits|
  {
    if digits == "" {
      assert digits + rest == rest;
    } else {
      DigitRunOf(digits[1..], rest);
      assert (digits + rest)[1..] == digits[1..] + rest;
    }
  }

  predicate Digits(s: string) {
    forall k | 0 <= k < |s| :: '0' <= s[k] <= '9'
  }

  lemma {:induction false} DecimalValue(n: nat)
    ensures NatOf(Decimal(n)) == n
  {
    if n < 10 {
      assert Decimal(n)[..0] == "";
    } else {
      DecimalValue(n / 10);
      var d := Decimal(n);
      assert d[..|d| - 1] == Decimal(n / 10) && d[|d| - 1] == Digit(n % 10);
    }
  }

  lemma {:induction false} NoLeadingZero(n: nat)
    ensures |Decimal(n)| > 1 ==> Decimal(n)[0] != '0'
    ensures n > 0 ==> Decimal(n)[0] != '0'
  {
    if n >= 10 {
      NoLeadingZero(n / 10);
      assert Decimal(n)[0] == Decimal(n / 10)[0];
    }
  }

  lemma NoTail(rest: string)
    requires EndsNumber(rest)
    ensures TailRun(rest) == 0
  {
    assert rest[0..] == rest;
  }

  lemma DigitsParse(n: nat, s: string, rest: string)
    requires EndsNumber(rest) && s[SignRun(s)..] == Decimal(n) + rest
    ensures ParseNumber(s) == Good(JInt(if SignRun(s) == 1 then -(n as int) else n), rest)
  {
    var digits := Decimal(n);
    DigitRunOf(digits, rest);
    DecimalValue(n);
    NoLeadingZero(n);
    NoTail(rest);
    Cut(digits, rest);
    FirstOf(digits, rest);
  }

  lemma Cut(a: string, b: string)
    ensures (a + b)[..|a|] == a && (a + b)[|a|..] == b
  {
  }

  lemma FirstOf(a: string, b: string)
    ensures a == "" ==> a + b == b
    ensures a != "" ==> (a + b)[0] == a[0]
  {
  }

  /** Every integer, in particular every 64-bit one with the minimum included. */
  lemma NumberRoundTrip(i: int, rest: string)
    requires EndsNumber(rest)
    ensures ParseNumber(DecimalInt(i) + rest) == Good(JInt(i), rest)
  {
    if i < 0 {
      Regroup3("-", Decimal(-i), rest);
      DropFirst("-", Decimal(-i) + rest);
      DigitsParse(-i, DecimalInt(i) + rest, rest);
    } else {
      var s := DecimalInt(i) + rest;
      assert s[0] == Decimal(i)[0] && s[0..] == s;
      DigitsParse(i, s, rest);
    }
  }

  /** The grammar of section 6, part by part. */
  datatype Numeral = Numeral(sign: string, whole: string, fraction: string, exponent: string)

  predicate IsFraction(s: string) {
    s == "" || (|s| > 1 && s[0] == '.' && Digits(s[1..]))
  }

  predicate IsExponent(s: string) {
    s == "" || (|s| > 1 && (s[0] == 'e' || s[0] == 'E') &&
                (if s[1] == '+' || s[1] == '-' then |s| > 2 && Digits(s[2..]) else Digits(s[1..])))
  }

  predicate WellFormed(n: Numeral) {
    && (n.sign == "" || n.sign == "-")
    && n.whole != "" && Digits(n.whole) && (|n.whole| > 1 ==> n.whole[0] != '0')
    && IsFraction(n.fraction) && IsExponent(n.exponent)
  }

  function Spelling(n: Numeral): string {
    n.sign + (n.whole + (n.fraction + n.exponent))
  }

  /** A number with a fraction or an exponent. */
  ghost predicate Fractional(text: string) {
    exists n: Numeral :: WellFormed(n) && n.fraction + n.exponent != "" && Spelling(n) == text
  }

  lemma FractionParses(fraction: string, rest: string)
    requires IsFraction(fraction) && (rest == "" || !('0' <= rest[0] <= '9' || rest[0] == '.'))
    ensures FractionRun(fraction + rest) == |fraction|
  {
    if fraction == "" {
      assert fraction + rest == rest;
    } else {
      DigitRunOf(fraction[1..], rest);
      assert (fraction + rest)[1..] == fraction[1..] + rest;
    }
  }

  lemma ExponentParses(exponent: string, rest: string)
    requires IsExponent(exponent) && EndsNumber(rest)
    ensures ExponentRun(exponent + rest) == |exponent|
  {
    if exponent == "" {
      assert exponent + rest == rest;
    } else {
      var sign := if exponent[1] == '+' || exponent[1] == '-' then 2 else 1;
      DigitRunOf(exponent[sign..], rest);
      assert (exponent + rest)[sign..] == exponent[sign..] + rest;
    }
  }

  /** A number with a fraction or an exponent is read back as the same text. */
  lemma FractionalParses(n: Numeral, rest: string)
    requires WellFormed(n) && n.fraction + n.exponent != "" && EndsNumber(rest)
    ensures ParseNumber(Spelling(n) + rest) == Good(JToken(Spelling(n)), rest)
    ensures Spelling(n)[0] == '-' || '0' <= Spelling(n)[0] <= '9'
  {
    var after := n.fraction + (n.exponent + rest);
    RunsOfSpelling(n, rest);
    TailParses(n, rest);
    FirstOf(Spelling(n), rest);
    NumberByRuns(Spelling(n) + rest, n.whole + after, after, Spelling(n), rest);
  }

  lemma RunsOfSpelling(n: Numeral, rest: string)
    requires WellFormed(n) && n.fraction + n.exponent != "" && EndsNumber(rest)
    ensures var after := n.fraction + (n.exponent + rest);
            var s := Spelling(n) + rest;
            && SignRun(s) == |n.sign| && s[|n.sign|..] == n.whole + after
            && DigitRun(n.whole + after) == |n.whole| && (n.whole + after)[|n.whole|..] == after
            && (n.whole + after)[0] == n.whole[0]
            && |Spelling(n)| == |n.sign| + |n.whole| + |n.fraction| + |n.exponent| && Spelling(n) <= s
            && (Spelling(n)[0] == '-' || '0' <= Spelling(n)[0] <= '9')
  {
    var after := n.fraction + (n.exponent + rest);
    SpellingThen(n, rest);
    TailParses(n, rest);
    DigitRunOf(n.whole, after);
    Cut(n.sign, n.whole + after);
    Cut(n.whole, after);
    FirstOf(n.sign, n.whole + after);
    FirstOf(n.whole, after);
    FirstOf(Spelling(n), rest);
  }

  lemma NumberByRuns(s: string, unsigned: string, after: string, text: string, rest: string)
    requires s[SignRun(s)..] == unsigned && DigitRun(unsigned) > 0 && unsigned[DigitRun(unsigned)..] == after
    requires DigitRun(unsigned) > 1 ==> unsigned[0] != '0'
    requires TailRun(after) > 0 && after[TailRun(after)..] == rest
    requires |text| == SignRun(s) + DigitRun(unsigned) + TailRun(after) && text <= s
    ensures ParseNumber(s) == Good(JToken(text), rest)
  {
    PrefixIs(text, s);
    TokenByRuns(s, unsigned, after);
  }

  lemma PrefixIs(text: string, s: string)
    requires text <= s
    ensures s[..|text|] == text
  {
  }

  lemma {:induction false} TokenByRuns(s: string, unsigned: string, after: string)
    requires s[SignRun(s)..] == unsigned && DigitRun(unsigned) > 0 && unsigned[DigitRun(unsigned)..] == after
    requires DigitRun(unsigned) > 1 ==> unsigned[0] != '0'
    requires TailRun(after) > 0
    ensures var n := SignRun(s) + DigitRun(unsigned) + TailRun(after);
            ParseNumber(s) == Good(JToken(s[..n]), after[TailRun(after)..])
  {
  }

  lemma TailParses(n: Numeral, rest: string)
    requires WellFormed(n) && n.fraction + n.exponent != "" && EndsNumber(rest)
    ensures var y := n.fraction + (n.exponent + rest);
            TailRun(y) == |n.fraction| + |n.exponent| && y[TailRun(y)..] == rest
            && (y != "" ==> !('0' <= y[0] <= '9')) && TailRun(y) > 0
  {
    FractionParses(n.fraction, n.exponent + rest);
    ExponentParses(n.exponent, rest);
    Cut(n.fraction, n.exponent + rest);
    CutTwice(n.fraction, n.exponent, rest);
  }

  lemma SpellingThen(n: Numeral, rest: string)
    ensures Spelling(n) + rest == n.sign + (n.whole + (n.fraction + (n.exponent + rest)))
    ensures |Spelling(n)| == |n.sign| + |n.whole| + |n.fraction| + |n.exponent|
  {
    Regroup3(n.sign, n.whole + (n.fraction + n.exponent), rest);
    Regroup3(n.whole, n.fraction + n.exponent, rest);
    Regroup3(n.fraction, n.exponent, rest);
  }

  lemma CutTwice(a: string, b: string, c: string)
    ensures (a + (b + c))[|a| + |b|..] == c
  {
  }

  /** What the parser reads as a number with a fraction or an exponent is one. */
  lemma {:induction false} ParsedTokenIsFractional(s: string, text: string, rest: string)
    requires ParseNumber(s) == Good(JToken(text), rest)
    ensures Fractional(text)
  {
    RunsAreFractional(s, s[SignRun(s)..], s[SignRun(s)..][DigitRun(s[SignRun(s)..])..]);
  }

  lemma {:induction false} RunsAreFractional(s: string, unsigned: string, after: string)
    requires s[SignRun(s)..] == unsigned && DigitRun(unsigned) > 0 && unsigned[DigitRun(unsigned)..] == after
    requires DigitRun(unsigned) > 1 ==> unsigned[0] != '0'
    requires TailRun(after) > 0
    ensures Fractional(s[..SignRun(s) + DigitRun(unsigned) + TailRun(after)])
  {
    var whole, fraction := DigitRun(unsigned), FractionRun(after);
    var tail := after[fraction..];
    var exponent := ExponentRun(tail);
    SignIs(s);
    DigitsOfRun(unsigned);
    FractionIsOne(after);
    ExponentIsOne(tail);
    FractionalFrom(s[..SignRun(s)], unsigned[..whole], after[..fraction], tail[..exponent]);
    FourSlices(s, unsigned, after, SignRun(s), whole, fraction, exponent);
  }

  lemma DigitsOfRun(s: string)
    requires DigitRun(s) > 0
    ensures var digits := s[..DigitRun(s)];
            Digits(digits) && |digits| == DigitRun(s) && digits[0] == s[0]
  {
  }

  lemma SignIs(s: string)
    ensures s[..SignRun(s)] == if SignRun(s) == 0 then "" else "-"
  {
  }

  lemma FractionalFrom(sign: string, whole: string, fraction: string, exponent: string)
    requires sign == "" || sign == "-"
    requires whole != "" && Digits(whole) && (|whole| > 1 ==> whole[0] != '0')
    requires IsFraction(fraction) && IsExponent(exponent) && |fraction| + |exponent| > 0
    ensures Fractional(sign + (whole + (fraction + exponent)))
  {
    var n := Numeral(sign, whole, fraction, exponent);
    assert |n.fraction + n.exponent| > 0 && Spelling(n) == sign + (whole + (fraction + exponent));
  }

  lemma FractionIsOne(s: string)
    ensures IsFraction(s[..FractionRun(s)])
  {
    var f := FractionRun(s);
    if f > 0 {
      DigitsOfRun(s[1..]);
      assert s[..f][1..] == s[1..][..f - 1];
    }
  }

  lemma ExponentIsOne(s: string)
    ensures IsExponent(s[..ExponentRun(s)])
  {
    var e := ExponentRun(s);
    if e > 0 {
      var sign := if |s| > 1 && (s[1] == '+' || s[1] == '-') then 2 else 1;
      DigitsOfRun(s[sign..]);
      assert s[..e][sign..] == s[sign..][..e - sign];
      assert s[..e][1] == s[1];
    }
  }

  lemma FourSlices(s: string, unsigned: string, after: string, a: nat, b: nat, f: nat, e: nat)
    requires a + b + f + e <= |s| && s[a..] == unsigned && unsigned[b..] == after
    ensures s[..a] + (unsigned[..b] + (after[..f] + after[f..][..e])) == s[..a + b + (f + e)]
  {
    assert after[..f] + after[f..][..e] == after[..f + e];
    assert unsigned[..b] + after[..f + e] == unsigned[..b + (f + e)];
  }

  // ---------------------------------------------------------------- values

  /** Documents in which every number is an integer or has a fraction or an exponent. */
  ghost predicate Exact(j: Json) {
    match j
    case JToken(text) => Fractional(text)
    case JArray(items) => forall k | 0 <= k < |items| :: Exact(items[k])
    case JObject(members) => forall k | 0 <= k < |members| :: Exact(members[k].value)
    case _ => true
  }

  predicate NotSpace(c: char) {
    c != ' ' && c != '\t' && c != '\n' && c != '\r'
  }

  /** A printed value starts with a visible character that no closing bracket is. */
  lemma PrintStarts(j: Json)
    requires Exact(j)
    ensures Print(j) != "" && NotSpace(Print(j)[0]) && Print(j)[0] != '}' && Print(j)[0] != ']'
  {
    if j.JToken? {
      var n: Numeral :| WellFormed(n) && n.fraction + n.exponent != "" && Spelling(n) == j.text;
      FractionalParses(n, "");
    }
  }

  lemma SkipNothing(s: string)
    requires s == "" || NotSpace(s[0])
    ensures SkipSpace(s) == s
  {
  }

  /** Printing any document and parsing the result, with any text after it that cannot be
      taken for a part of a number, gives the document and exactly that text. */
  lemma {:induction false} ValueRoundTrip(j: Json, rest: string)
    requires Exact(j) && EndsNumber(rest)
    ensures ParseValue(Print(j) + rest) == Good(j, rest)
    decreases j, 1
  {
    match j
    case JNull => WordParses("null", JNull, rest);
    case JBool(b) => WordParses(if b then "true" else "false", j, rest);
    case JInt(i) => IntParses(i, rest);
    case JToken(text) => TokenParses(text, rest);
    case JString(s) => StringRoundTrip(s, rest);
    case JArray(items) => ArrayRoundTrip(items, rest);
    case JObject(members) => ObjectRoundTrip(members, rest);
  }

  lemma {:induction false} ArrayRoundTrip(items: seq<Json>, rest: string)
    requires forall k | 0 <= k < |items| :: Exact(items[k])
    ensures ParseValue(Print(JArray(items)) + rest) == Good(JArray(items), rest)
    decreases items, 1
  {
    var inner := PrintItems(items) + ("]" + rest);
    Regroup3("[" + PrintItems(items), "]", rest);
    Regroup3("[", PrintItems(items), "]" + rest);
    DropFirst("[", inner);
    DropFirst("]", rest);
    assert Print(JArray(items)) + rest == "[" + inner;
    if items == [] {
      assert inner == "]" + rest;
    } else {
      ItemsRoundTrip(items, rest);
    }
    SkipNothing(inner);
  }

  lemma {:induction false} ObjectRoundTrip(members: seq<Member>, rest: string)
    requires forall k | 0 <= k < |members| :: Exact(members[k].value)
    ensures ParseValue(Print(JObject(members)) + rest) == Good(JObject(members), rest)
    decreases members, 1
  {
    var inner := PrintMembers(members) + ("}" + rest);
    Regroup3("{" + PrintMembers(members), "}", rest);
    Regroup3("{", PrintMembers(members), "}" + rest);
    DropFirst("{", inner);
    DropFirst("}", rest);
    assert Print(JObject(members)) + rest == "{" + inner;
    if members == [] {
      assert inner == "}" + rest;
    } else {
      MembersRoundTrip(members, rest);
    }
    SkipNothing(inner);
  }

  lemma WordParses(word: string, j: Json, rest: string)
    requires || (word == "null" && j == JNull)
             || (word == "true" && j == JBool(true))
             || (word == "false" && j == JBool(false))
    ensures ParseValue(word + rest) == Good(j, rest)
  {
    var s := word + rest;
    assert s[0] == word[0] && word <= s && s[|word|..] == rest;
  }

  lemma IntParses(i: int, rest: string)
    requires EndsNumber(rest)
    ensures ParseValue(DecimalInt(i) + rest) == Good(JInt(i), rest)
  {
    NumberRoundTrip(i, rest);
    FirstOf(DecimalInt(i), rest);
    ValueIsNumber(DecimalInt(i) + rest);
  }

  lemma {:induction false} ValueIsNumber(s: string)
    requires s != "" && (s[0] == '-' || '0' <= s[0] <= '9')
    ensures ParseValue(s) == ParseNumber(s)
  {
    var c := s[0];
    assert c != '{' && c != '[' && c != '"' && c != 'n' && c != 't' && c != 'f';
  }

  lemma TokenParses(text: string, rest: string)
    requires Fractional(text) && EndsNumber(rest)
    ensures ParseValue(text + rest) == Good(JToken(text), rest)
  {
    var n: Numeral :| WellFormed(n) && n.fraction + n.exponent != "" && Spelling(n) == text;
    FractionalParses(n, rest);
    FirstOf(text, rest);
    ValueIsNumber(text + rest);
  }

  lemma {:induction false} ItemsRoundTrip(items: seq<Json>, rest: string)
    requires items != [] && (forall k | 0 <= k < |items| :: Exact(items[k]))
    ensures var s := PrintItems(items) + ("]" + rest);
            s != "" && NotSpace(s[0]) && s[0] != ']' && ParseItems(s) == Good(items, rest)
    decreases items, 0
  {
    var first, close := items[0], "]" + rest;
    DropFirst("]", rest);
    PrintStarts(first);
    if |items| == 1 {
      ValueRoundTrip(first, close);
      SkipNothing(close);
      assert items == [first];
    } else {
      var others := items[1..];
      var tail := PrintItems(others) + close;
      ItemsRoundTrip(others, rest);
      ValueRoundTrip(first, "," + tail);
      Regroup3(Print(first), "," + PrintItems(others), close);
      Regroup3(",", PrintItems(others), close);
      DropFirst(",", tail);
      SkipNothing("," + tail);
      SkipNothing(tail);
      assert items == [first] + others;
    }
  }

  lemma {:induction false} MembersRoundTrip(members: seq<Member>, rest: string)
    requires members != [] && (forall k | 0 <= k < |members| :: Exact(members[k].value))
    ensures var s := PrintMembers(members) + ("}" + rest);
            s != "" && NotSpace(s[0]) && s[0] != '}' && ParseMembers(s) == Good(members, rest)
    decreases members, 0
  {
    var first, close := members[0], "}" + rest;
    DropFirst("}", rest);
    SkipNothing(close);
    if |members| == 1 {
      MemberParses(first, close);
      LastMember(first, close, PrintMember(first) + close);
      assert members == [first];
    } else {
      var others := members[1..];
      var tail := PrintMembers(others) + close;
      MembersRoundTrip(others, rest);
      DropFirst(",", tail);
      MemberParses(first, "," + tail);
      NextMember(first, tail, PrintMember(first) + ("," + tail), others, rest);
      Regroup3(PrintMember(first), "," + PrintMembers(others), close);
      Regroup3(",", PrintMembers(others), close);
      assert members == [first] + others;
    }
  }

  ghost predicate MemberThen(m: Member, tail: string, s: string) {
    var value := Print(m.value) + tail;
    && s != "" && s[0] == '"'
    && ParseChars(s[1..]) == Good(m.key, ":" + value)
    && SkipSpace(":" + value) == ":" + value
    && SkipSpace(value) == value
    && (":" + value)[1..] == value
    && ParseValue(value) == Good(m.value, tail)
  }

  lemma LastMember(m: Member, close: string, s: string)
    requires MemberThen(m, close, s) && close != "" && close[0] == '}'
    ensures ParseMembers(s) == Good([m], close[1..])
  {
    SkipNothing(close);
  }

  lemma NextMember(m: Member, tail: string, s: string, others: seq<Member>, rest: string)
    requires MemberThen(m, "," + tail, s) && tail != "" && NotSpace(tail[0]) && ParseMembers(tail) == Good(others, rest)
    ensures ParseMembers(s) == Good([m] + others, rest)
  {
    DropFirst(",", tail);
    SkipNothing("," + tail);
    SkipNothing(tail);
  }

  /** The first member of an object, up to the comma or brace after it. */
  lemma {:induction false} MemberParses(m: Member, tail: string)
    requires Exact(m.value) && EndsNumber(tail)
    ensures MemberThen(m, tail, PrintMember(m) + tail)
    decreases m, 2
  {
    var value := Print(m.value) + tail;
    ValueRoundTrip(m.value, tail);
    StringRoundTrip(m.key, ":" + value);
    Regroup3(Quote(m.key), ":" + Print(m.value), tail);
    Regroup3(":", Print(m.value), tail);
    DropFirst(":", value);
    PrintStarts(m.value);
    SkipNothing(value);
    SkipNothing(":" + value);
  }

  /** Section 2: the printed document is a JSON text for the document, with or without a final
      newline. */
  lemma TextRoundTrip(j: Json)
    requires Exact(j)
    ensures ParseText(Print(j)) == Good(j, "")
    ensures ParseText(Print(j) + "\n") == Good(j, "")
  {
    ValueRoundTrip(j, "");
    ValueRoundTrip(j, "\n");
    PrintStarts(j);
    assert Print(j) + "" == Print(j);
    SkipNothing(Print(j));
    SkipNothing(Print(j) + "\n");
    assert SkipSpace("\n") == SkipSpace("");
  }

  // ---------------------------------------------------------------- only such documents come back

  lemma {:induction false} ParsedIsExact(s: string)
    ensures ParseValue(s).Good? ==> Exact(ParseValue(s).value)
    decreases |s|, 0
  {
    if s == "" {
    } else if s[0] == '{' {
      var t := SkipSpace(s[1..]);
      ParsedMembersAreExact(t);
    } else if s[0] == '[' {
      var t := SkipSpace(s[1..]);
      ParsedItemsAreExact(t);
    } else if s[0] != '"' && s[0] != 'n' && s[0] != 't' && s[0] != 'f' {
      if ParseNumber(s).Good? && ParseNumber(s).value.JToken? {
        ParsedTokenIsFractional(s, ParseNumber(s).value.text, ParseNumber(s).rest);
      }
    }
  }

  lemma {:induction false} ParsedMembersAreExact(s: string)
    ensures ParseMembers(s).Good? ==>
              forall k | 0 <= k < |ParseMembers(s).value| :: Exact(ParseMembers(s).value[k].value)
    decreases |s|, 1
  {
    if ParseMembers(s).Good? {
      var colon := SkipSpace(ParseChars(s[1..]).rest);
      var value := SkipSpace(colon[1..]);
      ParsedIsExact(value);
      var next := SkipSpace(ParseValue(value).rest);
      if next[0] == ',' {
        ParsedMembersAreExact(SkipSpace(next[1..]));
      }
    }
  }

  lemma {:induction false} ParsedItemsAreExact(s: string)
    ensures ParseItems(s).Good? ==> forall k | 0 <= k < |ParseItems(s).value| :: Exact(ParseItems(s).value[k])
    decreases |s|, 1
  {
    if ParseItems(s).Good? {
      ParsedIsExact(s);
      var next := SkipSpace(ParseValue(s).rest);
      if next[0] == ',' {
        ParsedItemsAreExact(SkipSpace(next[1..]));
      }
    }
  }

  /** A printed document with a final newline is read back as itself exactly when each of its
      number tokens has a fraction or an exponent. */
  lemma ReadsBackExactly(j: Json)
    ensures ParseText(Print(j) + "\n") == Good(j, "") <==> Exact(j)
  {
    if Exact(j) {
      TextRoundTrip(j);
    }
    ParsedIsExact(SkipSpace(Print(j) + "\n"));
  }
}
