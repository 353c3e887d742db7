/**
JSON documents, their compact printed form, and an independent parser that follows sections
2 and 4 to 7 of RFC 8259.  A byte of SyLog's output is the character with that code; the
parser and the printer work for all characters.
*/
module Json {
  import opened Text

  datatype Member = Member(key: string, value: Json)

  datatype Json =
    | JNull
    | JBool(b: bool)
    | JInt(i: int)
    | JToken(text: string)          // a number with a fraction or an exponent, as its text
    | JString(s: string)
    | JArray(items: seq<Json>)
    | JObject(members: seq<Member>)

  // ---------------------------------------------------------------- printing

  function HexDigit(n: nat): char
    requires n < 16
  {
    if n < 10 then Digit(n) else ('a' as int + (n - 10)) as char
  }

  function EscapeChar(c: char): (s: string)
    ensures s != ""
  {
    if c == '"' then "\\\""
    else if c == '\\' then "\\\\"
    else if c == '\U{0008}' then "\\b"
    else if c == '\U{000C}' then "\\f"
    else if c == '\n' then "\\n"
    else if c == '\r' then "\\r"
    else if c == '\t' then "\\t"
    else if c as int < 0x20 then "\\u00" + [HexDigit(c as int / 16), HexDigit(c as int % 16)]
    else [c]
  }

  function EscapeBody(s: string): string {
    if s == "" then "" else EscapeBody(s[..|s| - 1]) + EscapeChar(s[|s| - 1])
  }

  function Quote(s: string): string {
    "\"" + EscapeBody(s) + "\""
  }

  function Print(j: Json): string
    decreases j, 1
  {
    match j
    case JNull => "null"
    case JBool(b) => if b then "true" else "false"
    case JInt(i) => DecimalInt(i)
    case JToken(text) => text
    case JString(s) => Quote(s)
    case JArray(items) => "[" + PrintItems(items) + "]"
    case JObject(members) => "{" + PrintMembers(members) + "}"
  }

  function PrintItems(items: seq<Json>): string
    decreases items, 0
  {
    if items == [] then ""
    else if |items| == 1 then Print(items[0])
    else Print(items[0]) + ("," + PrintItems(items[1..]))
  }

  function PrintMember(m: Member): string
    decreases m, 2
  {
    Quote(m.key) + (":" + Print(m.value))
  }

  function PrintMembers(members: seq<Member>): string
    decreases members, 3
  {
    if members == [] then ""
    else if |members| == 1 then PrintMember(members[0])
    else PrintMember(members[0]) + ("," + PrintMembers(members[1..]))
  }

  // ---------------------------------------------------------------- the parser: lexical parts

  datatype Parsed<+T> = Bad | Good(value: T, rest: string)

  /** Section 2: insignificant whitespace. */
  function SkipSpace(s: string): (r: string)
    ensures |r| <= |s|
  {
    if s != "" && (s[0] == ' ' || s[0] == '\t' || s[0] == '\n' || s[0] == '\r') then SkipSpace(s[1..]) else s
  }

  function HexValue(c: char): (r: nat)
    ensures r <= 16
  {
    if '0' <= c <= '9' then c as int - '0' as int
    else if 'a' <= c <= 'f' then c as int - 'a' as int + 10
    else if 'A' <= c <= 'F' then c as int - 'A' as int + 10
    else 16
  }

  /** Four hexadecimal digits; 0x10000 stands for anything else. */
  function HexQuad(s: string): (r: nat)
    ensures r <= 0x10000
  {
    if |s| < 4 || HexValue(s[0]) == 16 || HexValue(s[1]) == 16 || HexValue(s[2]) == 16 || HexValue(s[3]) == 16
    then 0x10000
    else HexValue(s[0]) * 0x1000 + HexValue(s[1]) * 0x100 + HexValue(s[2]) * 0x10 + HexValue(s[3])
  }

  /** Section 7: what follows a backslash, surrogate pairs included. */
  function ParseEscape(s: string): (r: Parsed<char>)
    ensures r.Good? ==> |r.rest| < |s|
  {
    if s == "" then Bad
    else match s[0]
         case '"' => Good('"', s[1..])
         case '\\' => Good('\\', s[1..])
         case '/' => Good('/', s[1..])
         case 'b' => Good('\U{0008}', s[1..])
         case 'f' => Good('\U{000C}', s[1..])
         case 'n' => Good('\n', s[1..])
         case 'r' => Good('\r', s[1..])
         case 't' => Good('\t', s[1..])
         case 'u' =>
           var code := HexQuad(s[1..]);
           if code < 0xD800 || 0xE000 <= code < 0x10000 then Good(code as char, s[5..])
           else if code < 0xDC00 && |s| >= 11 && s[5] == '\\' && s[6] == 'u' && 0xDC00 <= HexQuad(s[7..]) < 0xE000
           then Good((0x10000 + (code - 0xD800) * 0x400 + (HexQuad(s[7..]) - 0xDC00)) as char, s[11..])
           else Bad
         case _ => Bad
  }

  /** Section 7: the rest of a string after its opening quotation mark. */
  function ParseChars(s: string): (r: Parsed<string>)
    ensures r.Good? ==> |r.rest| < |s|
    decreases |s|
  {
    if s == "" then Bad
    else if s[0] == '"' then Good("", s[1..])
    else if s[0] == '\\' then
      match ParseEscape(s[1..])
      case Bad => Bad
      case Good(c, rest) =>
        (match ParseChars(rest) case Bad => Bad case Good(more, rest') => Good([c] + more, rest'))
    else if s[0] as int < 0x20 then Bad
    else match ParseChars(s[1..]) case Bad => Bad case Good(more, rest) => Good([s[0]] + more, rest)
  }

  function DigitRun(s: string): (n: nat)
    ensures n <= |s|
    ensures forall k | 0 <= k < n :: '0' <= s[k] <= '9'
  {
    if s != "" && '0' <= s[0] <= '9' then 1 + DigitRun(s[1..]) else 0
  }

  function NatOf(digits: string): nat
    requires forall k | 0 <= k < |digits| :: '0' <= digits[k] <= '9'
  {
    if digits == "" then 0
    else NatOf(digits[..|digits| - 1]) * 10 + (digits[|digits| - 1] as int - '0' as int)
  }

  /** Section 6: the length of the fraction, of the exponent; 0 if absent. */
  function FractionRun(s: string): (n: nat)
    ensures n <= |s|
  {
    if s != "" && s[0] == '.' && DigitRun(s[1..]) > 0 then 1 + DigitRun(s[1..]) else 0
  }

  function ExponentRun(s: string): (n: nat)
    ensures n <= |s|
  {
    if s == "" || (s[0] != 'e' && s[0] != 'E') then 0
    else
      var sign := if |s| > 1 && (s[1] == '+' || s[1] == '-') then 2 else 1;
      if DigitRun(s[sign..]) > 0 then sign + DigitRun(s[sign..]) else 0
  }

  /** Section 6: the length of the fraction and the exponent together. */
  function TailRun(s: string): (n: nat)
    ensures n <= |s|
  {
    FractionRun(s) + ExponentRun(s[FractionRun(s)..])
  }

  function SignRun(s: string): (n: nat)
    ensures n <= |s|
  {
    if s != "" && s[0] == '-' then 1 else 0
  }

  function Signed(sign: nat, digits: string): int
    requires forall k | 0 <= k < |digits| :: '0' <= digits[k] <= '9'
  {
    if sign == 1 then -(NatOf(digits) as int) else NatOf(digits)
  }

  /** Section 6: numbers; no leading zeros. */
  function ParseNumber(s: string): (r: Parsed<Json>)
    ensures r.Good? ==> |r.rest| < |s|
  {
    var unsigned := s[SignRun(s)..];
    var n := DigitRun(unsigned);
    if n == 0 || (n > 1 && unsigned[0] == '0') then Bad
    else
      var after := unsigned[n..];
      if TailRun(after) == 0 then Good(JInt(Signed(SignRun(s), unsigned[..n])), after)
      else Good(JToken(s[..SignRun(s) + n + TailRun(after)]), after[TailRun(after)..])
  }

  // ---------------------------------------------------------------- the parser: values

  /** Section 3: one of the three literal names. */
  function ParseWord(s: string, word: string, j: Json): Parsed<Json>
    requires word != ""
  {
    if word <= s then Good(j, s[|word|..]) else Bad
  }

  /** Section 3: any value, after its leading whitespace. */
  function ParseValue(s: string): (r: Parsed<Json>)
    ensures r.Good? ==> |r.rest| < |s|
    decreases |s|, 0
  {
    if s == "" then Bad
    else if s[0] == '{' then
      (var t := SkipSpace(s[1..]);
       if t != "" && t[0] == '}' then Good(JObject([]), t[1..])
       else match ParseMembers(t) case Bad => Bad case Good(members, rest) => Good(JObject(members), rest))
    else if s[0] == '[' then
      (var t := SkipSpace(s[1..]);
       if t != "" && t[0] == ']' then Good(JArray([]), t[1..])
       else match ParseItems(t) case Bad => Bad case Good(items, rest) => Good(JArray(items), rest))
    else if s[0] == '"' then
      (match ParseChars(s[1..]) case Bad => Bad case Good(text, rest) => Good(JString(text), rest))
    else if s[0] == 'n' then ParseWord(s, "null", JNull)
    else if s[0] == 't' then ParseWord(s, "true", JBool(true))
    else if s[0] == 'f' then ParseWord(s, "false", JBool(false))
    else ParseNumber(s)
  }

  /** Section 4: members up to and including the closing brace. */
  function ParseMembers(s: string): (r: Parsed<seq<Member>>)
    ensures r.Good? ==> |r.rest| < |s|
    decreases |s|, 1
  {
    if s == "" || s[0] != '"' then Bad
    else match ParseChars(s[1..])
         case Bad => Bad
         case Good(key, rest) =>
           var colon := SkipSpace(rest);
           if colon == "" || colon[0] != ':' then Bad
           else match ParseValue(SkipSpace(colon[1..]))
                case Bad => Bad
                case Good(value, rest') =>
                  var next := SkipSpace(rest');
                  if next != "" && next[0] == '}' then Good([Member(key, value)], next[1..])
                  else if next != "" && next[0] == ',' then
                    match ParseMembers(SkipSpace(next[1..]))
                    case Bad => Bad
                    case Good(members, rest'') => Good([Member(key, value)] + members, rest'')
                  else Bad
  }

  /** Section 5: elements up to and including the closing bracket. */
  function ParseItems(s: string): (r: Parsed<seq<Json>>)
    ensures r.Good? ==> |r.rest| < |s|
    decreases |s|, 1
  {
    match ParseValue(s)
    case Bad => Bad
    case Good(item, rest) =>
      var next := SkipSpace(rest);
      if next != "" && next[0] == ']' then Good([item], next[1..])
      else if next != "" && next[0] == ',' then
        match ParseItems(SkipSpace(next[1..]))
        case Bad => Bad
        case Good(items, rest') => Good([item] + items, rest')
      else Bad
  }

  /** Section 2: a JSON text is one value with whitespace around it. */
  function ParseText(s: string): Parsed<Json> {
    match ParseValue(SkipSpace(s))
    case Bad => Bad
    case Good(j, rest) => if SkipSpace(rest) == "" then Good(j, "") else Bad
  }
}
