/**
When the nine passes of the pattern renderer, one after the other over the same buffer,
equal one left-to-right expansion of the parsed pattern.

A text is inert for the passes from token k on if no suffix of it could begin, or contain,
one of their keys.  The texts of an event must be inert for the passes after their own.  A
literal of the pattern must be inert only for the passes after the token that directly
follows it, since until that token is replaced its opening brace ends every key that the
literal could begin, and only if that token stands for a text: the digit that a number
starts with ends every key too.  Both conditions are exact for events.
*/
module PatternTheorems {
  import opened Events
  import opened Text
  import opened PatternRenderer

  datatype Piece = Literal(text: string) | Token(k: nat)

  // ---------------------------------------------------------------- parsing and expanding

  /** The token that starts here, if any. */
  function TokenAt(s: string, k: nat): (r: Option<nat>)
    requires k <= TOKENS
    ensures r.Some? ==> k <= r.value < TOKENS && Key(r.value) <= s
    ensures r.None? ==> forall j | k <= j < TOKENS :: !(Key(j) <= s)
    decreases TOKENS - k
  {
    if k == TOKENS then None else if Key(k) <= s then Some(k) else TokenAt(s, k + 1)
  }

  function AddChar(c: char, pieces: seq<Piece>): seq<Piece> {
    if pieces != [] && pieces[0].Literal? then [Literal([c] + pieces[0].text)] + pieces[1..]
    else [Literal([c])] + pieces
  }

  /** Left to right: tokens where they start, everything else copied literally. */
  function Parse(s: string): seq<Piece>
    decreases |s|
  {
    if s == "" then []
    else match TokenAt(s, 0)
         case Some(k) => [Token(k)] + Parse(s[|Key(k)|..])
         case None => AddChar(s[0], Parse(s[1..]))
  }

  ghost predicate WellFormed(pieces: seq<Piece>, from: nat) {
    forall i | 0 <= i < |pieces| && pieces[i].Token? :: from <= pieces[i].k < TOKENS
  }

  ghost function PatternText(piece: Piece): string
    requires piece.Token? ==> piece.k < TOKENS
  {
    match piece case Literal(text) => text case Token(k) => Key(k)
  }

  /** The pattern text of a list of pieces. */
  ghost function Flat(pieces: seq<Piece>): string
    requires WellFormed(pieces, 0)
  {
    if pieces == [] then ""
    else PatternText(pieces[0]) + Flat(pieces[1..])
  }

  /** Simultaneous substitution: every token by its value, every literal by itself. */
  ghost function Expand(pieces: seq<Piece>, values: seq<string>): string
    requires WellFormed(pieces, 0) && |values| == TOKENS
  {
    if pieces == [] then ""
    else (match pieces[0] case Literal(text) => text case Token(k) => values[k]) + Expand(pieces[1..], values)
  }

  /** Token k alone replaced by its value. */
  ghost function Substitute(pieces: seq<Piece>, k: nat, v: string): seq<Piece> {
    seq(|pieces|, i requires 0 <= i < |pieces| => if pieces[i] == Token(k) then Literal(v) else pieces[i])
  }

  /** The tokens below n replaced by their values. */
  ghost function Settled(pieces: seq<Piece>, values: seq<string>, n: nat): seq<Piece>
    requires |values| == TOKENS && n <= TOKENS
  {
    seq(|pieces|, i requires 0 <= i < |pieces| =>
      if pieces[i].Token? && pieces[i].k < n then Literal(values[pieces[i].k]) else pieces[i])
  }

  // ---------------------------------------------------------------- inert texts

  /** No suffix of the text is comparable with the key of a pass from `from` on. */
  ghost predicate Inert(text: string, from: nat) {
    forall p, k | 0 <= p < |text| && from <= k < TOKENS :: !Comparable(text[p..], Key(k))
  }

  ghost predicate NoKeyIn(text: string) {
    forall p, k | 0 <= p < |text| && 0 <= k < TOKENS :: !(Key(k) <= text[p..])
  }

  /** The characters that keys are made of. */
  predicate KeyChar(c: char) {
    'a' <= c <= 'z' || c == '_' || c == '{' || c == '}'
  }

  /** A text that no key can run into. */
  predicate EndsKeys(text: string) {
    text != "" && !KeyChar(text[0])
  }

  /** Token k stands for a text that can be anything; {severity_priority}, {line} and {tid} are
      numbers.  With `dated`, times are taken to be as the renderer's clock prints them. */
  predicate Free(k: nat, dated: bool) {
    k == 1 || k == 3 || k == 4 || k == 5 || k == 7 || (k == 0 && !dated)
  }

  /** Literal i cannot take part in a key in a pass from `from` on: it is inert, or what
      directly follows it ends every key, or is a token that does or after whose pass the
      literal is inert, or nothing follows.  The demand on tokens is made only below `bound`. */
  ghost predicate LiteralSafe(pieces: seq<Piece>, i: nat, from: nat, bound: nat, dated: bool)
    requires i < |pieces| && pieces[i].Literal?
  {
    || Inert(pieces[i].text, from)
    || (NoKeyIn(pieces[i].text)
        && (i + 1 < |pieces| ==>
              match pieces[i + 1]
              case Literal(next) => EndsKeys(next)
              case Token(k) => Free(k, dated) && k < bound ==> Inert(pieces[i].text, k + 1)))
  }

  ghost predicate PiecesSafe(pieces: seq<Piece>, from: nat, bound: nat, dated: bool) {
    && WellFormed(pieces, from)
    && forall i: nat | i < |pieces| && pieces[i].Literal? :: LiteralSafe(pieces, i, from, bound, dated)
  }

  /** Every value is inert for the passes after its own, and those that are not free end keys. */
  ghost predicate ValuesInert(values: seq<string>, dated: bool) {
    && |values| == TOKENS
    && (forall k | 0 <= k < TOKENS :: Inert(values[k], k + 1))
    && (forall k | 0 <= k < TOKENS && !Free(k, dated) :: EndsKeys(values[k]))
  }

  /** Texts without an opening brace are inert: numbers and timestamps always are. */
  lemma NoBraceInert(text: string, from: nat)
    requires '{' !in text
    ensures Inert(text, from)
  {
    forall p, k | 0 <= p < |text| && from <= k < TOKENS ensures !Comparable(text[p..], Key(k)) {
      assert text[p..][0] == text[p];
      assert text[p] in text;
    }
  }

  lemma PrefixOfBoth(key: string, a: string, b: string)
    requires key <= a + b
    ensures Comparable(a, key)
  {
    if |a| <= |key| {
      assert a == (a + b)[..|a|] == key[..|a|];
    } else {
      assert key == (a + b)[..|key|] == a[..|key|];
    }
  }

  lemma KeysOfKeyChars(k: nat, p: nat)
    requires k < TOKENS && p < |Key(k)|
    ensures KeyChar(Key(k)[p])
  {
  }

  /** A key cannot start in a text and run into an opening brace or a character of no key. */
  lemma KeyStops(k: nat, a: string, b: string)
    requires k < TOKENS && a != "" && (b == "" || b[0] == '{' || EndsKeys(b)) && Key(k) <= a + b
    ensures Key(k) <= a
  {
    assert a == (a + b)[..|a|];
    assert b != "" ==> (a + b)[|a|] == b[0];
    if |a| < |Key(k)| {
      KeysOfKeyChars(k, |a|);
    }
  }

  lemma Assoc(a: string, b: string, c: string)
    ensures a + (b + c) == (a + b) + c
  {
  }

  // ---------------------------------------------------------------- one pass over the pieces

  lemma PassCopies(text: string, rest: string, k: nat, val: string)
    requires k < TOKENS && Inert(text, k)
    ensures Replaced(text + rest, Key(k), val) == text + Replaced(rest, Key(k), val)
  {
    forall p | 0 <= p < |text| ensures !(Key(k) <= text[p..] + rest) {
      if Key(k) <= text[p..] + rest {
        PrefixOfBoth(Key(k), text[p..], rest);
      }
    }
    PassSkips(text, rest, Key(k), val);
  }

  lemma OtherKeyCopied(j: nat, k: nat, rest: string, val: string)
    requires j < TOKENS && k < TOKENS && j != k
    ensures Replaced(Key(j) + rest, Key(k), val) == Key(j) + Replaced(rest, Key(k), val)
  {
    KeysDiffer(j, k);
    forall p | 0 <= p < |Key(j)| ensures !(Key(k) <= Key(j)[p..] + rest) {
      if Key(k) <= Key(j)[p..] + rest {
        PrefixOfBoth(Key(k), Key(j)[p..], rest);
        OnlyHeadOpens(j, k, p);
      }
    }
    PassSkips(Key(j), rest, Key(k), val);
  }

  lemma OnlyHeadOpens(j: nat, k: nat, p: nat)
    requires j < TOKENS && k < TOKENS && p < |Key(j)| && Comparable(Key(j)[p..], Key(k))
    ensures p == 0 && Comparable(Key(j), Key(k))
  {
    assert Key(j)[p..][0] == Key(j)[p] && Key(k)[0] == '{';
    assert Key(j)[0..] == Key(j);
  }

  /** No occurrence of the pass's key starts in a safe literal. */
  lemma NoStart(pieces: seq<Piece>, k: nat, bound: nat, dated: bool)
    requires k < TOKENS && PiecesSafe(pieces, k, bound, dated) && pieces != [] && pieces[0].Literal?
    ensures WellFormed(pieces[1..], k)
    ensures forall p | 0 <= p < |pieces[0].text| :: !(Key(k) <= pieces[0].text[p..] + Flat(pieces[1..]))
  {
    var text, others := pieces[0].text, pieces[1..];
    assert forall i | 0 <= i < |others| :: others[i] == pieces[i + 1];
    var rest := Flat(others);
    assert LiteralSafe(pieces, 0, k, bound, dated);
    forall p | 0 <= p < |text| ensures !(Key(k) <= text[p..] + rest) {
      if Key(k) <= text[p..] + rest {
        PrefixOfBoth(Key(k), text[p..], rest);
        KeyStops(k, text[p..], rest);
      }
    }
  }

  lemma TailSafe(pieces: seq<Piece>, from: nat, bound: nat, dated: bool)
    requires PiecesSafe(pieces, from, bound, dated) && pieces != []
    ensures PiecesSafe(pieces[1..], from, bound, dated)
  {
    var rest := pieces[1..];
    assert forall i | 0 <= i < |rest| :: rest[i] == pieces[i + 1];
    forall i: nat | i < |rest| && rest[i].Literal? ensures LiteralSafe(rest, i, from, bound, dated) {
      assert LiteralSafe(pieces, i + 1, from, bound, dated);
    }
  }

  /** Every occurrence of the pass's key is one of its own tokens. */
  lemma {:induction false} OnePass(pieces: seq<Piece>, k: nat, v: string, bound: nat, dated: bool)
    requires k < TOKENS && PiecesSafe(pieces, k, bound, dated)
    ensures WellFormed(Substitute(pieces, k, v), k + 1)
    ensures Replaced(Flat(pieces), Key(k), v) == Flat(Substitute(pieces, k, v))
  {
    if pieces != [] {
      var rest := pieces[1..];
      TailSafe(pieces, k, bound, dated);
      OnePass(rest, k, v, bound, dated);
      assert Substitute(pieces, k, v)[1..] == Substitute(rest, k, v);
      match pieces[0]
      case Literal(text) =>
        NoStart(pieces, k, bound, dated);
        PassSkips(text, Flat(rest), Key(k), v);
      case Token(j) =>
        if j == k {
          ReplacedHere(Key(k), Flat(rest), v);
        } else {
          OtherKeyCopied(j, k, Flat(rest), v);
        }
    }
  }

  lemma InertLater(text: string, from: nat, later: nat)
    requires Inert(text, from) && from <= later
    ensures Inert(text, later)
  {
  }

  lemma SubstituteSafe(pieces: seq<Piece>, k: nat, v: string, bound: nat, dated: bool)
    requires k < TOKENS && k < bound && PiecesSafe(pieces, k, bound, dated) && Inert(v, k + 1)
    requires !Free(k, dated) ==> EndsKeys(v)
    ensures PiecesSafe(Substitute(pieces, k, v), k + 1, bound, dated)
  {
    var next := Substitute(pieces, k, v);
    forall i: nat | i < |next| && next[i].Literal? ensures LiteralSafe(next, i, k + 1, bound, dated) {
      if pieces[i].Literal? {
        StaysSafe(pieces, i, k, v, bound, dated);
      }
    }
  }

  lemma StaysSafe(pieces: seq<Piece>, i: nat, k: nat, v: string, bound: nat, dated: bool)
    requires i < |pieces| && pieces[i].Literal? && k < bound && LiteralSafe(pieces, i, k, bound, dated)
    requires !Free(k, dated) ==> EndsKeys(v)
    ensures LiteralSafe(Substitute(pieces, k, v), i, k + 1, bound, dated)
  {
    var text := pieces[i].text;
    if Inert(text, k) {
      InertLater(text, k, k + 1);
    } else if i + 1 < |pieces| && pieces[i + 1] == Token(k) && Free(k, dated) {
      assert Inert(text, k + 1);
    } else if i + 1 < |pieces| {
      assert Substitute(pieces, k, v)[i + 1] == if pieces[i + 1] == Token(k) then Literal(v) else pieces[i + 1];
    }
  }

  lemma SettleOne(pieces: seq<Piece>, values: seq<string>, n: nat)
    requires |values| == TOKENS && n < TOKENS
    ensures Substitute(Settled(pieces, values, n), n, values[n]) == Settled(pieces, values, n + 1)
  {
  }

  /** Up to and including the pass of token `bound`, the passes replace tokens and nothing else. */
  lemma {:induction false} EarlyPasses(pieces: seq<Piece>, values: seq<string>, n: nat, bound: nat, dated: bool)
    requires PiecesSafe(pieces, 0, bound, dated) && ValuesInert(values, dated) && n <= bound + 1 && n <= TOKENS
    ensures WellFormed(Settled(pieces, values, n), n)
    ensures n <= bound ==> PiecesSafe(Settled(pieces, values, n), n, bound, dated)
    ensures Passes(Flat(pieces), values, 0) == Passes(Flat(Settled(pieces, values, n)), values, n)
  {
    if n == 0 {
      assert Settled(pieces, values, 0) == pieces;
    } else {
      var k := n - 1;
      var before := Settled(pieces, values, k);
      EarlyPasses(pieces, values, k, bound, dated);
      SettleOne(pieces, values, k);
      NextPass(before, values, k, bound, dated);
    }
  }

  lemma NextPass(pieces: seq<Piece>, values: seq<string>, k: nat, bound: nat, dated: bool)
    requires k < TOKENS && k <= bound && PiecesSafe(pieces, k, bound, dated) && ValuesInert(values, dated)
    ensures WellFormed(pieces, 0) && WellFormed(Substitute(pieces, k, values[k]), k + 1)
    ensures k < bound ==> PiecesSafe(Substitute(pieces, k, values[k]), k + 1, bound, dated)
    ensures Passes(Flat(pieces), values, k) == Passes(Flat(Substitute(pieces, k, values[k])), values, k + 1)
  {
    OnePass(pieces, k, values[k], bound, dated);
    if k < bound {
      SubstituteSafe(pieces, k, values[k], bound, dated);
    }
  }

  lemma {:induction false} SettledExpands(pieces: seq<Piece>, values: seq<string>, n: nat)
    requires |values| == TOKENS && n <= TOKENS && WellFormed(pieces, 0)
    ensures WellFormed(Settled(pieces, values, n), n)
    ensures Expand(Settled(pieces, values, n), values) == Expand(pieces, values)
  {
    if pieces != [] {
      assert forall i | 0 <= i < |pieces[1..]| :: pieces[1..][i] == pieces[i + 1];
      SettledExpands(pieces[1..], values, n);
      assert Settled(pieces, values, n)[1..] == Settled(pieces[1..], values, n);
    }
  }

  lemma {:induction false} OnlyLiterals(pieces: seq<Piece>, values: seq<string>)
    requires |values| == TOKENS && WellFormed(pieces, TOKENS)
    ensures Flat(pieces) == Expand(pieces, values)
  {
    if pieces != [] {
      assert forall i | 0 <= i < |pieces[1..]| :: pieces[1..][i] == pieces[i + 1];
      OnlyLiterals(pieces[1..], values);
    }
  }

  // ---------------------------------------------------------------- parsing

  lemma FlatHead(pieces: seq<Piece>)
    requires WellFormed(pieces, 0) && pieces != []
    ensures WellFormed(pieces[1..], 0) && Flat(pieces) == PatternText(pieces[0]) + Flat(pieces[1..])
  {
    assert forall i | 0 <= i < |pieces[1..]| :: pieces[1..][i] == pieces[i + 1];
  }

  lemma GlueHead(c: char, a: string, b: string)
    ensures ([c] + a) + b == [c] + (a + b)
  {
  }

  lemma FlatStep(pieces: seq<Piece>, text: string, rest: seq<Piece>)
    requires pieces == [Literal(text)] + rest && WellFormed(rest, 0)
    ensures WellFormed(pieces, 0) && Flat(pieces) == text + Flat(rest)
  {
    assert pieces[1..] == rest;
  }

  lemma AddCharFlat(c: char, pieces: seq<Piece>)
    requires WellFormed(pieces, 0)
    ensures WellFormed(AddChar(c, pieces), 0) && Flat(AddChar(c, pieces)) == [c] + Flat(pieces)
  {
    if pieces != [] && pieces[0].Literal? {
      var text, rest := pieces[0].text, pieces[1..];
      assert forall i | 0 <= i < |rest| :: rest[i] == pieces[i + 1];
      FlatStep(pieces, text, rest);
      FlatStep(AddChar(c, pieces), [c] + text, rest);
      GlueHead(c, text, Flat(rest));
    } else {
      FlatStep(AddChar(c, pieces), [c], pieces);
    }
  }

  lemma {:induction false} ParseFlat(s: string)
    ensures WellFormed(Parse(s), 0) && Flat(Parse(s)) == s
    decreases |s|
  {
    if s != "" {
      match TokenAt(s, 0)
      case Some(k) =>
        var rest := Parse(s[|Key(k)|..]);
        ParseFlat(s[|Key(k)|..]);
        assert ([Token(k)] + rest)[1..] == rest;
      case None =>
        var rest := Parse(s[1..]);
        ParseFlat(s[1..]);
        AddCharFlat(s[0], rest);
        assert [s[0]] + s[1..] == s;
    }
  }

  /** No key is hidden in a literal, and no two literals are neighbours. */
  ghost predicate Clean(pieces: seq<Piece>) {
    && (forall i | 0 <= i < |pieces| && pieces[i].Literal? :: NoKeyIn(pieces[i].text))
    && (forall i: nat | i + 1 < |pieces| && pieces[i].Literal? :: NextIsToken(pieces, i))
  }

  ghost predicate NextIsToken(pieces: seq<Piece>, i: nat)
    requires i + 1 < |pieces|
  {
    pieces[i + 1].Token?
  }

  lemma LiteralFirstClean(text: string, rest: seq<Piece>)
    requires NoKeyIn(text) && Clean(rest) && (rest == [] || rest[0].Token?)
    ensures Clean([Literal(text)] + rest)
  {
    var all := [Literal(text)] + rest;
    forall i: nat | i + 1 < |all| && all[i].Literal? ensures NextIsToken(all, i) {
      if i > 0 {
        assert NextIsToken(rest, i - 1);
      }
    }
  }

  lemma TailClean(pieces: seq<Piece>)
    requires Clean(pieces) && pieces != []
    ensures Clean(pieces[1..])
    ensures pieces[0].Literal? && |pieces| > 1 ==> pieces[1].Token?
  {
    var rest := pieces[1..];
    assert |pieces| > 1 && pieces[0].Literal? ==> NextIsToken(pieces, 0);
    assert forall i | 0 <= i < |rest| :: rest[i] == pieces[i + 1];
    forall i: nat | i + 1 < |rest| && rest[i].Literal? ensures NextIsToken(rest, i) {
      assert NextIsToken(pieces, i + 1);
    }
  }

  lemma AddCharClean(s: string, pieces: seq<Piece>)
    requires s != "" && Clean(pieces) && WellFormed(pieces, 0) && Flat(pieces) == s[1..] && TokenAt(s, 0).None?
    ensures Clean(AddChar(s[0], pieces))
  {
    HeadClean(s, pieces);
    if pieces != [] && pieces[0].Literal? {
      TailClean(pieces);
      LiteralFirstClean([s[0]] + pieces[0].text, pieces[1..]);
    } else {
      LiteralFirstClean([s[0]], pieces);
    }
  }

  lemma HeadClean(s: string, pieces: seq<Piece>)
    requires s != "" && Clean(pieces) && WellFormed(pieces, 0) && Flat(pieces) == s[1..] && TokenAt(s, 0).None?
    ensures AddChar(s[0], pieces)[0].Literal? && NoKeyIn(AddChar(s[0], pieces)[0].text)
  {
    if pieces != [] && pieces[0].Literal? {
      FlatHead(pieces);
      NoKeyBefore(s, pieces[0].text, Flat(pieces[1..]));
    } else {
      NoKeyBefore(s, "", s[1..]);
      assert [s[0]] + "" == [s[0]];
    }
  }

  lemma NoKeyBefore(s: string, text: string, rest: string)
    requires s != "" && s[1..] == text + rest && NoKeyIn(text)
    requires forall k | 0 <= k < TOKENS :: !(Key(k) <= s)
    ensures NoKeyIn([s[0]] + text)
  {
    assert s == [s[0]] + (text + rest);
    Assoc([s[0]], text, rest);
    NoKeyLonger(s[0], text, rest);
  }

  lemma NoKeyLonger(c: char, text: string, rest: string)
    requires NoKeyIn(text) && forall k | 0 <= k < TOKENS :: !(Key(k) <= ([c] + text) + rest)
    ensures NoKeyIn([c] + text)
  {
    var all := [c] + text;
    forall p, k | 0 <= p < |all| && 0 <= k < TOKENS ensures !(Key(k) <= all[p..]) {
      if p == 0 {
        assert all[0..] == all;
        assert all <= all + rest;
      } else {
        assert all[p..] == text[p - 1..];
      }
    }
  }

  lemma {:induction false} ParseClean(s: string)
    ensures Clean(Parse(s))
    decreases |s|
  {
    if s != "" {
      match TokenAt(s, 0)
      case Some(k) =>
        var rest := Parse(s[|Key(k)|..]);
        ParseClean(s[|Key(k)|..]);
        TokenFirstClean(k, rest);
      case None =>
        ParseClean(s[1..]);
        ParseFlat(s[1..]);
        AddCharClean(s, Parse(s[1..]));
    }
  }

  lemma TokenFirstClean(k: nat, rest: seq<Piece>)
    requires Clean(rest)
    ensures Clean([Token(k)] + rest)
  {
    var all := [Token(k)] + rest;
    forall i: nat | i + 1 < |all| && all[i].Literal? ensures NextIsToken(all, i) {
      assert NextIsToken(rest, i - 1);
    }
  }

  // ---------------------------------------------------------------- sequential equals simultaneous

  /** Literal i, directly followed by the token m of a text, could begin the key of a pass after
      token m's. */
  ghost predicate Risky(pieces: seq<Piece>, i: nat, m: nat, dated: bool) {
    && i + 1 < |pieces| && pieces[i].Literal? && pieces[i + 1] == Token(m) && Free(m, dated)
    && !Inert(pieces[i].text, m + 1)
  }

  /** The risky places of a list of pieces: where the literal is, and the token after it. */
  ghost function Risks(pieces: seq<Piece>, dated: bool): set<(nat, nat)> {
    set i: nat, m: nat | i < |pieces| && m < TOKENS && Risky(pieces, i, m, dated) :: (i, m)
  }

  /** Every literal directly followed by the token of a text is inert for the passes after that
      token's; a literal before a number, and a last literal, may be anything. */
  ghost predicate PatternSafe(pattern: string, dated: bool) {
    Risks(Parse(pattern), dated) == {}
  }

  ghost predicate NoRiskBelow(pieces: seq<Piece>, bound: nat, dated: bool) {
    forall r | r in Risks(pieces, dated) :: bound <= r.1
  }

  lemma CleanIsSafe(pieces: seq<Piece>, bound: nat, dated: bool)
    requires Clean(pieces) && WellFormed(pieces, 0) && NoRiskBelow(pieces, bound, dated)
    ensures PiecesSafe(pieces, 0, bound, dated)
  {
    forall i: nat | i < |pieces| && pieces[i].Literal? ensures LiteralSafe(pieces, i, 0, bound, dated) {
      if i + 1 < |pieces| {
        assert NextIsToken(pieces, i);
        assert Risky(pieces, i, pieces[i + 1].k, dated) ==> (i, pieces[i + 1].k) in Risks(pieces, dated);
      }
    }
  }

  /** What the documentation promises: tokens expand, unknown text is copied literally. */
  ghost function Promised(pattern: string, values: seq<string>): string
    requires |values| == TOKENS
  {
    ParseFlat(pattern);
    EndLine(Expand(Parse(pattern), values))
  }

  /** The expansion for an event: every token by the field its key names, every literal by itself. */
  ghost function ExpandFor(pieces: seq<Piece>, e: Event): string
    requires WellFormed(pieces, 0)
  {
    if pieces == [] then ""
    else (match pieces[0] case Literal(text) => text case Token(k) => Named(Key(k), e)) + ExpandFor(pieces[1..], e)
  }

  /** The promise for an event. */
  ghost function PromisedFor(pattern: string, e: Event): string {
    ParseFlat(pattern);
    EndLine(ExpandFor(Parse(pattern), e))
  }

  lemma {:induction false} ExpandsByName(pieces: seq<Piece>, e: Event)
    requires WellFormed(pieces, 0)
    ensures ExpandFor(pieces, e) == Expand(pieces, Values(e))
  {
    if pieces != [] {
      assert forall i | 0 <= i < |pieces[1..]| :: pieces[1..][i] == pieces[i + 1];
      ExpandsByName(pieces[1..], e);
      if pieces[0].Token? {
        ValuesNamed(e, pieces[0].k);
      }
    }
  }

  lemma PromisedByName(pattern: string, e: Event)
    ensures PromisedFor(pattern, e) == Promised(pattern, Values(e))
  {
    ParseFlat(pattern);
    ExpandsByName(Parse(pattern), e);
  }

  /** If the pattern is safe and every value is inert for the passes after its own, the nine
      passes produce the simultaneous expansion. */
  lemma SequentialIsSimultaneous(pattern: string, values: seq<string>, dated: bool)
    requires PatternSafe(pattern, dated) && ValuesInert(values, dated)
    ensures EndLine(Passes(pattern, values, 0)) == Promised(pattern, values)
  {
    var pieces := Parse(pattern);
    ParseFlat(pattern);
    ParseClean(pattern);
    CleanIsSafe(pieces, TOKENS, dated);
    EarlyPasses(pieces, values, TOKENS, TOKENS, dated);
    SettledExpands(pieces, values, TOKENS);
    OnlyLiterals(Settled(pieces, values, TOKENS), values);
  }

  // ---------------------------------------------------------------- events

  predicate TimeChar(c: char) {
    '0' <= c <= '9' || c == '-' || c == ':' || c == ' '
  }

  /** The shape of a printed time: digits, '-', ':' and ' ' only. */
  predicate PrintedTime(time: string) {
    time != "" && forall i | 0 <= i < |time| :: TimeChar(time[i])
  }

  /** Every text of the event is inert for the passes after its own. */
  ghost predicate TextsInert(e: Event) {
    && Inert(e.time, 1) && Inert(e.severityName, 2) && Inert(e.endpoint, 4)
    && Inert(e.message, 5) && Inert(e.file, 6) && Inert(e.func, 8)
  }

  ghost predicate InClass(e: Event, dated: bool) {
    dated ==> PrintedTime(e.time)
  }

  lemma PrintedTimeInert(time: string)
    requires PrintedTime(time)
    ensures Inert(time, 1) && EndsKeys(time)
  {
    NoBraceInert(time, 1);
  }

  lemma NumberInert(n: nat, from: nat)
    ensures Inert(Decimal(n), from) && EndsKeys(Decimal(n))
  {
    NoBraceInert(Decimal(n), from);
  }

  lemma EventValuesInert(e: Event, dated: bool)
    requires TextsInert(e) && InClass(e, dated)
    ensures ValuesInert(Values(e), dated)
  {
    NumberInert(e.priority, 3);
    NumberInert(e.line, 7);
    NumberInert(e.tid, 9);
    if dated {
      PrintedTimeInert(e.time);
    }
    var values := Values(e);
    assert values[0] == e.time && values[1] == e.severityName && values[2] == Decimal(e.priority);
    assert values[3] == e.endpoint && values[4] == e.message && values[5] == e.file;
    assert values[6] == Decimal(e.line) && values[7] == e.func && values[8] == Decimal(e.tid);
  }

  /** Of an event's own texts, only those inserted before some later pass matter: the message,
      for instance, must not play with {file}, {line}, {func} and {tid}, while a {time} in it
      is copied literally.  Numbers never matter, neither as values nor after a literal. */
  lemma EventRendersAsPromised(pattern: string, e: Event, dated: bool)
    requires PatternSafe(pattern, dated) && TextsInert(e) && InClass(e, dated)
    ensures EndLine(Passes(pattern, Values(e), 0)) == PromisedFor(pattern, e)
  {
    EventValuesInert(e, dated);
    SequentialIsSimultaneous(pattern, Values(e), dated);
    PromisedByName(pattern, e);
  }

  /** In particular when neither the literals of the pattern nor the event's texts hold an
      opening brace. */
  lemma BraceFreeRendersAsPromised(pattern: string, e: Event)
    requires forall i | 0 <= i < |Parse(pattern)| && Parse(pattern)[i].Literal? :: '{' !in Parse(pattern)[i].text
    requires '{' !in e.time && '{' !in e.severityName && '{' !in e.endpoint && '{' !in e.message
    requires '{' !in e.file && '{' !in e.func
    ensures EndLine(Passes(pattern, Values(e), 0)) == PromisedFor(pattern, e)
  {
    var pieces := Parse(pattern);
    forall i: nat, m: nat | i < |pieces| && pieces[i].Literal? ensures !Risky(pieces, i, m, false) {
      NoBraceInert(pieces[i].text, m + 1);
    }
    NoBraceInert(e.time, 1);
    NoBraceInert(e.severityName, 2);
    NoBraceInert(e.endpoint, 4);
    NoBraceInert(e.message, 5);
    NoBraceInert(e.file, 6);
    NoBraceInert(e.func, 8);
    EventRendersAsPromised(pattern, e, false);
  }
}
