/**
The renderer key by key, every key written out: which field it stands for, which keys the texts
of an event must stay clear of, and the newline at the end.
*/
module PatternNames {
  import opened Events
  import opened Text
  import opened PatternRenderer
  import opened PatternTheorems
  import opened PatternExactness

  /** No suffix of the text is comparable with one of the keys. */
  ghost predicate ClearOf(text: string, keys: seq<string>) {
    forall p, i | 0 <= p < |text| && 0 <= i < |keys| :: !Comparable(text[p..], keys[i])
  }

  /** The keys of the passes from `from` on. */
  function KeysFrom(from: nat): (keys: seq<string>)
    requires from <= TOKENS
    ensures |keys| == TOKENS - from
    ensures forall i | 0 <= i < |keys| :: keys[i] == Key(from + i)
  {
    seq(TOKENS - from, i requires 0 <= i < TOKENS - from => Key(from + i))
  }

  lemma InertIsClear(text: string, from: nat)
    requires from <= TOKENS
    ensures Inert(text, from) <==> ClearOf(text, KeysFrom(from))
  {
    var keys := KeysFrom(from);
    if ClearOf(text, keys) {
      forall p, k | 0 <= p < |text| && from <= k < TOKENS ensures !Comparable(text[p..], Key(k)) {
        assert keys[k - from] == Key(k);
      }
    }
  }

  lemma KeysByName()
    ensures KeysFrom(8) == ["{tid}"]
    ensures KeysFrom(6) == ["{line}", "{func}", "{tid}"]
    ensures KeysFrom(5) == ["{file}", "{line}", "{func}", "{tid}"]
    ensures KeysFrom(4) == ["{message}", "{file}", "{line}", "{func}", "{tid}"]
    ensures KeysFrom(2) == ["{severity_priority}", "{endpoint}", "{message}", "{file}", "{line}", "{func}", "{tid}"]
    ensures KeysFrom(1) == ["{severity}", "{severity_priority}", "{endpoint}", "{message}", "{file}", "{line}",
                            "{func}", "{tid}"]
  {
  }

  /** Which keys the texts of an event must stay clear of: each text of those that are replaced
      after its own. */
  lemma TextsInertByName(e: Event)
    ensures TextsInert(e) <==>
            && ClearOf(e.time, ["{severity}", "{severity_priority}", "{endpoint}", "{message}", "{file}", "{line}",
                                "{func}", "{tid}"])
            && ClearOf(e.severityName, ["{severity_priority}", "{endpoint}", "{message}", "{file}", "{line}",
                                        "{func}", "{tid}"])
            && ClearOf(e.endpoint, ["{message}", "{file}", "{line}", "{func}", "{tid}"])
            && ClearOf(e.message, ["{file}", "{line}", "{func}", "{tid}"])
            && ClearOf(e.file, ["{line}", "{func}", "{tid}"])
            && ClearOf(e.func, ["{tid}"])
  {
    InertIsClear(e.time, 1);
    InertIsClear(e.severityName, 2);
    InertIsClear(e.endpoint, 4);
    InertIsClear(e.message, 5);
    InertIsClear(e.file, 6);
    InertIsClear(e.func, 8);
    KeysByName();
  }

  /** The final newline: none after nothing, one otherwise, never doubled. */
  lemma FinalNewline(s: string)
    ensures EndLine("") == "" && EndLine(s + "\n") == s + "\n"
    ensures s != "" && s[|s| - 1] != '\n' ==> EndLine(s) == s + "\n"
  {
  }

  lemma {:induction false} InertIsCopied(text: string, values: seq<string>, k: nat)
    requires |values| == TOKENS && k <= TOKENS && Inert(text, k)
    ensures Passes(text, values, k) == text
    decreases TOKENS - k
  {
    if k < TOKENS {
      PassCopies(text, "", k, values[k]);
      assert text + "" == text;
      InertLater(text, k, k + 1);
      InertIsCopied(text, values, k + 1);
    }
  }

  lemma OneToken(k: nat, values: seq<string>)
    requires k < TOKENS && |values| == TOKENS && Inert(values[k], k + 1)
    ensures Passes(Key(k), values, 0) == values[k]
  {
    EarlyPassesCopy(k, "", values, 0);
    assert Key(k) + "" == Key(k) && values[k] + "" == values[k];
    InertIsCopied(values[k], values, k + 1);
  }

  lemma OneNumber(k: nat, n: nat, e: Event)
    requires k < TOKENS && Values(e)[k] == Decimal(n)
    ensures EndLine(Passes(Key(k), Values(e), 0)) == Decimal(n) + "\n"
  {
    NumberInert(n, k + 1);
    OneToken(k, Values(e));
  }

  /** The three numbers, on their own: which field each key stands for, in any event. */
  lemma NumberTokens(e: Event)
    ensures EndLine(Passes("{severity_priority}", Values(e), 0)) == Decimal(e.priority) + "\n"
    ensures EndLine(Passes("{line}", Values(e), 0)) == Decimal(e.line) + "\n"
    ensures EndLine(Passes("{tid}", Values(e), 0)) == Decimal(e.tid) + "\n"
  {
    OneNumber(2, e.priority, e);
    OneNumber(6, e.line, e);
    OneNumber(8, e.tid, e);
  }

  /** The six texts, on their own, in an event with inert texts. */
  lemma TextTokens(e: Event)
    requires TextsInert(e)
    ensures EndLine(Passes("{time}", Values(e), 0)) == EndLine(e.time)
    ensures EndLine(Passes("{severity}", Values(e), 0)) == EndLine(e.severityName)
    ensures EndLine(Passes("{endpoint}", Values(e), 0)) == EndLine(e.endpoint)
    ensures EndLine(Passes("{message}", Values(e), 0)) == EndLine(e.message)
    ensures EndLine(Passes("{file}", Values(e), 0)) == EndLine(e.file)
    ensures EndLine(Passes("{func}", Values(e), 0)) == EndLine(e.func)
  {
    EventValuesInert(e, false);
    OneToken(0, Values(e));
    OneToken(1, Values(e));
    OneToken(3, Values(e));
    OneToken(4, Values(e));
    OneToken(5, Values(e));
    OneToken(7, Values(e));
  }
}
