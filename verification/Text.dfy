/** The output buffer of the renderers and the decimal form of numbers. */
module Text {

  /** A `std::string&` that a renderer appends to or rewrites. */
  class StringBuffer {
    var text: string

    constructor ()
      ensures text == ""
    {
      text := "";
    }
  }

  function Digit(n: nat): (c: char)
    requires n < 10
    ensures '0' <= c <= '9' && c as int == '0' as int + n
  {
    ('0' as int + n) as char
  }

  function Decimal(n: nat): (s: string)
    ensures s != ""
    ensures forall k | 0 <= k < |s| :: '0' <= s[k] <= '9'
  {
    if n < 10 then [Digit(n)] else Decimal(n / 10) + [Digit(n % 10)]
  }

  function DecimalInt(i: int): (s: string)
    ensures s != ""
  {
    if i < 0 then "-" + Decimal(-i) else Decimal(i)
  }
}
