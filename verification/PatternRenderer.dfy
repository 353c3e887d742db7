/**
The pattern renderer: nine in-place replacements, one per token, over one buffer.  A single
replacement is leftmost non-overlapping substitution; the nine in sequence equal one
simultaneous substitution exactly as far as no inserted text can complete a later key.
*/
module PatternRenderer {
  import opened Events
  import opened Text

  // ---------------------------------------------------------------- one replacement

  /** The first position from `from` on at which key occurs, as `std::string::find`. */
  function Find(s: string, key: string, from: nat): (p: Option<nat>)
    requires from <= |s|
    ensures p.Some? ==> from <= p.value && p.value + |key| <= |s| && key <= s[p.value..]
                        && forall q | from <= q < p.value :: !(key <= s[q..])
    ensures p.None? ==> forall q | from <= q <= |s| :: !(key <= s[q..])
    decreases |s| - from
  {
    if key <= s[from..] then Some(from)
    else if from == |s| then None
    else Find(s, key, from + 1)
  }

  /** Leftmost non-overlapping substitution. */
  function Replaced(s: string, key: string, val: string): string
    requires key != ""
  {
    if s == "" then ""
    else if key <= s then val + Replaced(s[|key|..], key, val)
    else [s[0]] + Replaced(s[1..], key, val)
  }

  /** Text in which the key does not start is copied. */
  lemma {:induction false} PassSkips(text: string, rest: string, key: string, val: string)
    requires key != "" && forall p | 0 <= p < |text| :: !(key <= text[p..] + rest)
    ensures Replaced(text + rest, key, val) == text + Replaced(rest, key, val)
  {
    if text == "" {
      assert text + rest == rest;
    } else {
      assert text[0..] == text;
      forall p | 0 <= p < |text[1..]| ensures !(key <= text[1..][p..] + rest) {
        assert text[1..][p..] == text[p + 1..];
      }
      PassSkips(text[1..], rest, key, val);
      assert (text + rest)[1..] == text[1..] + rest;
      assert [text[0]] + (text[1..] + Replaced(rest, key, val)) == text + Replaced(rest, key, val);
    }
  }

  lemma Regroup(a: string, b: string, c: string, d: string)
    ensures a + (b + (c + d)) == (a + b) + c + d
  {
  }

  lemma AfterTurn(text: string, key: string, val: string, p: nat)
    requires p + |key| <= |text|
    ensures var text' := text[..p] + val + text[p + |key|..];
            p + |val| <= |text'| && text'[..p + |val|] == text[..p] + val && text'[p + |val|..] == text[p + |key|..]
  {
  }

  lemma ReplacedHere(key: string, rest: string, val: string)
    requires key != ""
    ensures Replaced(key + rest, key, val) == val + Replaced(rest, key, val)
  {
    assert key <= key + rest && (key + rest)[|key|..] == rest;
  }

  lemma Turned(done: string, copied: string, rest: string, key: string, val: string)
    requires key != "" && forall q | 0 <= q < |copied| :: !(key <= copied[q..] + (key + rest))
    ensures (done + copied) + val + Replaced(rest, key, val) == done + Replaced(copied + (key + rest), key, val)
  {
    PassSkips(copied, key + rest, key, val);
    ReplacedHere(key, rest, val);
    Regroup(done, copied, val, Replaced(rest, key, val));
  }

  lemma StartsWithKey(s: string, key: string)
    requires key <= s
    ensures s == key + s[|key|..]
  {
  }

  lemma Between(text: string, pos: nat, p: nat)
    requires pos <= p <= |text|
    ensures text[..p] == text[..pos] + text[pos..p] && text[pos..] == text[pos..p] + text[p..]
    ensures forall q | 0 <= q < |text[pos..p]| :: text[pos..p][q..] + text[p..] == text[pos + q..]
  {
  }

  lemma FoundHere(text: string, pos: nat, key: string, p: nat)
    requires pos <= p && pos <= |text| && Find(text, key, pos) == Some(p)
    ensures var copied, rest := text[pos..p], text[p + |key|..];
            && text[..p] == text[..pos] + copied
            && text[pos..] == copied + (key + rest)
            && forall q | 0 <= q < |copied| :: !(key <= copied[q..] + (key + rest))
  {
    StartsWithKey(text[p..], key);
    assert text[p..][|key|..] == text[p + |key|..];
    Between(text, pos, p);
  }

  /** One turn of the loop: the text before pos is final, the text after it is still to do. */
  lemma LoopTurn(text: string, pos: nat, key: string, val: string, p: nat)
    requires key != "" && pos <= p && pos <= |text| && Find(text, key, pos) == Some(p)
    ensures text[..p] + val + Replaced(text[p + |key|..], key, val) == text[..pos] + Replaced(text[pos..], key, val)
  {
    FoundHere(text, pos, key, p);
    Turned(text[..pos], text[pos..p], text[p + |key|..], key, val);
  }

  lemma NothingFound(text: string, pos: nat, key: string, val: string)
    requires key != "" && pos <= |text| && Find(text, key, pos).None?
    ensures text[..pos] + Replaced(text[pos..], key, val) == text
  {
    var rest := text[pos..];
    forall q | 0 <= q < |rest| ensures !(key <= rest[q..] + "") {
      assert rest[q..] + "" == text[pos + q..];
    }
    PassSkips(rest, "", key, val);
    assert rest + "" == rest;
  }

  /** The find/replace loop, for any value, even one that contains the key. */
  method ReplaceAll(out: StringBuffer, key: string, val: string)
    requires key != ""
    modifies out
    ensures out.text == Replaced(old(out.text), key, val)
  {
    var pos: nat := 0;
    assert out.text[0..] == out.text;
    while true
      invariant pos <= |out.text|
      invariant out.text[..pos] + Replaced(out.text[pos..], key, val) == Replaced(old(out.text), key, val)
      decreases |out.text| - pos
    {
      var found := Find(out.text, key, pos);
      if found.None? {
        NothingFound(out.text, pos, key, val);
        return;
      }
      LoopTurn(out.text, pos, key, val, found.value);
      AfterTurn(out.text, key, val, found.value);
      out.text := out.text[..found.value] + val + out.text[found.value + |key|..];
      pos := found.value + |val|;
    }
  }

  // ---------------------------------------------------------------- the reference: split and join

  function Split(s: string, key: string): (parts: seq<string>)
    requires key != ""
    ensures parts != []
  {
    if s == "" then [""]
    else if key <= s then [""] + Split(s[|key|..], key)
    else
      var rest := Split(s[1..], key);
      [[s[0]] + rest[0]] + rest[1..]
  }

  function Join(parts: seq<string>, sep: string): string
    requires parts != []
  {
    if |parts| == 1 then parts[0] else parts[0] + sep + Join(parts[1..], sep)
  }

  lemma JoinPrepends(c: char, parts: seq<string>, sep: string)
    requires parts != []
    ensures Join([[c] + parts[0]] + parts[1..], sep) == [c] + Join(parts, sep)
  {
    var parts' := [[c] + parts[0]] + parts[1..];
    assert parts'[1..] == parts[1..];
    if |parts| > 1 {
      assert [c] + parts[0] + sep + Join(parts[1..], sep) == [c] + (parts[0] + sep + Join(parts[1..], sep));
    }
  }

  lemma JoinEmpty(parts: seq<string>, sep: string)
    requires parts != []
    ensures Join([""] + parts, sep) == sep + Join(parts, sep)
  {
    assert ([""] + parts)[1..] == parts;
    assert "" + sep == sep;
  }

  predicate Occurs(s: string, key: string) {
    exists q | 0 <= q <= |s| :: key <= s[q..]
  }

  /** Replacing a key by a value is splitting on the key and joining with the value; joining
      with the key gives the string back. */
  lemma {:induction false} ReplacedIsSplitJoin(s: string, key: string, val: string)
    requires key != ""
    ensures Replaced(s, key, val) == Join(Split(s, key), val)
    ensures Join(Split(s, key), key) == s
    decreases |s|
  {
    if s == "" {
    } else if key <= s {
      ReplacedIsSplitJoin(s[|key|..], key, val);
      var rest := Split(s[|key|..], key);
      JoinEmpty(rest, val);
      JoinEmpty(rest, key);
      assert key + s[|key|..] == s;
    } else {
      ReplacedIsSplitJoin(s[1..], key, val);
      JoinPrepends(s[0], Split(s[1..], key), val);
      JoinPrepends(s[0], Split(s[1..], key), key);
    }
  }

  lemma {:induction false} FirstPartIsPrefix(s: string, key: string)
    requires key != ""
    ensures Split(s, key)[0] <= s
    decreases |s|
  {
    if s != "" && !(key <= s) {
      FirstPartIsPrefix(s[1..], key);
    }
  }

  /** No part contains the key: the split is complete. */
  lemma {:induction false} PartsHaveNoKey(s: string, key: string, k: nat)
    requires key != "" && k < |Split(s, key)|
    ensures !Occurs(Split(s, key)[k], key)
    decreases |s|
  {
    if s == "" {
    } else if key <= s {
      if k > 0 {
        PartsHaveNoKey(s[|key|..], key, k - 1);
      }
    } else {
      var rest := Split(s[1..], key);
      PartsHaveNoKey(s[1..], key, k);
      if k == 0 {
        FirstPartIsPrefix(s[1..], key);
        var part := [s[0]] + rest[0];
        forall q | 0 <= q <= |part| ensures !(key <= part[q..]) {
          if q == 0 {
            assert part <= s;
          } else {
            assert part[q..] == rest[0][q - 1..];
          }
        }
      }
    }
  }

  // ---------------------------------------------------------------- tokens

  const TOKENS: nat := 9

  function Key(k: nat): (key: string)
    requires k < TOKENS
    ensures |key| >= 5 && key[0] == '{'
    ensures forall p | 1 <= p < |key| :: key[p] != '{'
  {
    if k == 0 then "{time}"
    else if k == 1 then "{severity}"
    else if k == 2 then "{severity_priority}"
    else if k == 3 then "{endpoint}"
    else if k == 4 then "{message}"
    else if k == 5 then "{file}"
    else if k == 6 then "{line}"
    else if k == 7 then "{func}"
    else "{tid}"
  }

  /** One is a prefix of the other. */
  predicate Comparable(a: string, b: string) {
    a <= b || b <= a
  }

  lemma KeysDiffer(j: nat, k: nat)
    requires j < TOKENS && k < TOKENS && j != k
    ensures !Comparable(Key(j), Key(k))
  {
    assert Key(0)[1] == 't' && Key(0)[2] == 'i' && Key(0)[3] == 'm';
    assert Key(1)[1] == 's' && Key(1)[9] == '}';
    assert Key(2)[1] == 's' && Key(2)[9] == '_';
    assert Key(3)[1] == 'e';
    assert Key(4)[1] == 'm';
    assert Key(5)[1] == 'f' && Key(5)[2] == 'i';
    assert Key(6)[1] == 'l';
    assert Key(7)[1] == 'f' && Key(7)[2] == 'u';
    assert Key(8)[1] == 't' && Key(8)[2] == 'i' && Key(8)[3] == 'd';
  }

  /** What the tokens stand for, in the order of the passes. */
  function Values(e: Event): (values: seq<string>)
    ensures |values| == TOKENS
  {
    [e.time, e.severityName, Decimal(e.priority), e.endpoint, e.message,
     e.file, Decimal(e.line), e.func, Decimal(e.tid)]
  }

  /** What a key stands for, by name. */
  function Named(key: string, e: Event): string {
    match key
    case "{time}" => e.time
    case "{severity}" => e.severityName
    case "{severity_priority}" => Decimal(e.priority)
    case "{endpoint}" => e.endpoint
    case "{message}" => e.message
    case "{file}" => e.file
    case "{line}" => Decimal(e.line)
    case "{func}" => e.func
    case "{tid}" => Decimal(e.tid)
    case _ => key
  }

  lemma ValuesNamed(e: Event, k: nat)
    requires k < TOKENS
    ensures Values(e)[k] == Named(Key(k), e)
  {
  }

  /** The passes from token k on, one after the other over the whole buffer. */
  function Passes(s: string, values: seq<string>, k: nat): string
    requires |values| == TOKENS && k <= TOKENS
    decreases TOKENS - k
  {
    if k == TOKENS then s else Passes(Replaced(s, Key(k), values[k]), values, k + 1)
  }

  function EndLine(s: string): string {
    if s != "" && s[|s| - 1] != '\n' then s + "\n" else s
  }

  method Render(pattern: string, e: Event, out: StringBuffer)
    modifies out
    ensures out.text == EndLine(Passes(pattern, Values(e), 0))
  {
    out.text := pattern;
    ReplaceAll(out, "{time}", e.time);
    ReplaceAll(out, "{severity}", e.severityName);
    ReplaceAll(out, "{severity_priority}", Decimal(e.priority));
    ReplaceAll(out, "{endpoint}", e.endpoint);
    ReplaceAll(out, "{message}", e.message);
    ReplaceAll(out, "{file}", e.file);
    ReplaceAll(out, "{line}", Decimal(e.line));
    ReplaceAll(out, "{func}", e.func);
    ReplaceAll(out, "{tid}", Decimal(e.tid));
    ghost var v := Values(e);
    ghost var s1 := Replaced(pattern, Key(0), v[0]);
    ghost var s2 := Replaced(s1, Key(1), v[1]);
    ghost var s3 := Replaced(s2, Key(2), v[2]);
    ghost var s4 := Replaced(s3, Key(3), v[3]);
    ghost var s5 := Replaced(s4, Key(4), v[4]);
    ghost var s6 := Replaced(s5, Key(5), v[5]);
    ghost var s7 := Replaced(s6, Key(6), v[6]);
    ghost var s8 := Replaced(s7, Key(7), v[7]);
    assert out.text == Replaced(s8, Key(8), v[8]);
    assert Passes(s5, v, 5) == Passes(s8, v, 8) == out.text;
    assert Passes(pattern, v, 0) == Passes(s3, v, 3) == Passes(s5, v, 5);
    if out.text != "" && out.text[|out.text| - 1] != '\n' {
      out.text := out.text + "\n";
    }
  }
}
