/** url.QueryEscape and url.QueryUnescape (section 2.1 of RFC 3986, Appendix B of RFC 6749). */
module Escape {
  import opened Text

  predicate IsDigit(c: byte) { '0' <= c <= '9' }

  predicate IsLetter(c: byte) { 'a' <= c <= 'z' || 'A' <= c <= 'Z' }

  /** The bytes that travel as themselves in a query component. */
  predicate Unreserved(c: byte) {
    IsLetter(c) || IsDigit(c) || c == '-' || c == '_' || c == '.' || c == '~'
  }

  function HexDigit(n: nat): byte
    requires n < 16
  {
    if n < 10 then ('0' as int + n) as char else ('A' as int + n - 10) as char
  }

  /** The value of a hexadecimal digit of either case. */
  function UnHex(c: byte): Option<nat> {
    if IsDigit(c) then Some(c as int - '0' as int)
    else if 'a' <= c <= 'f' then Some(c as int - 'a' as int + 10)
    else if 'A' <= c <= 'F' then Some(c as int - 'A' as int + 10)
    else None
  }

  function EscapeByte(c: byte): Str {
    if Unreserved(c) then [c]
    else if c == ' ' then "+"
    else ['%', HexDigit(c as int / 16), HexDigit(c as int % 16)]
  }

  function QueryEscape(s: Str): Str {
    if s == [] then [] else EscapeByte(s[0]) + QueryEscape(s[1..])
  }

  /** None is Go's EscapeError. */
  function QueryUnescape(s: Str): Option<Str> {
    if s == [] then Some([])
    else if s[0] == '%' then
      if |s| < 3 || UnHex(s[1]).None? || UnHex(s[2]).None? then None
      else Prepend((16 * UnHex(s[1]).value + UnHex(s[2]).value) as char, QueryUnescape(s[3..]))
    else Prepend(if s[0] == '+' then ' ' else s[0], QueryUnescape(s[1..]))
  }

  function Prepend(c: byte, r: Option<Str>): Option<Str> {
    if r.None? then None else Some([c] + r.value)
  }

  /** The second result of Go's call discarded: an undecodable text reads as "". */
  function UnescapeOrEmpty(s: Str): Str {
    match QueryUnescape(s)
    case Some(t) => t
    case None => []
  }

  /** Letters, digits and four marks stay as they are; a space becomes a plus sign; anything else, a percent sign and two digits. */
  lemma EscapeByteExact(c: byte)
    ensures EscapeByte(c) == [c] <==>
            'a' <= c <= 'z' || 'A' <= c <= 'Z' || '0' <= c <= '9' || c in {'-', '_', '.', '~'}
    ensures EscapeByte(c) == "+" <==> c == ' '
    ensures |EscapeByte(c)| == 1 || (|EscapeByte(c)| == 3 && EscapeByte(c)[0] == '%')
  {
  }

  /** Hexadecimal digits are read in either case, and nothing else is one. */
  lemma HexEitherCase(n: nat, c: byte)
    requires n < 16
    ensures UnHex(HexDigit(n)) == Some(n) && UnHex(LowerByte(HexDigit(n))) == Some(n)
    ensures UnHex(c).Some? <==> '0' <= c <= '9' || 'a' <= c <= 'f' || 'A' <= c <= 'F'
  {
  }

  lemma UnescapeByte(c: byte, rest: Str)
    ensures QueryUnescape(EscapeByte(c) + rest) == Prepend(c, QueryUnescape(rest))
  {
  }

  /** Every string, of whatever bytes, comes back. */
  lemma {:induction false} UnescapeEscape(s: Str)
    ensures QueryUnescape(QueryEscape(s)) == Some(s)
    ensures UnescapeOrEmpty(QueryEscape(s)) == s
  {
    if s != [] {
      UnescapeEscape(s[1..]);
      UnescapeByte(s[0], QueryEscape(s[1..]));
      assert s == [s[0]] + s[1..];
    }
  }

  /** No delimiter survives escaping. */
  lemma {:induction false} EscapeAlphabet(s: Str)
    ensures forall c :: c in QueryEscape(s) ==> Unreserved(c) || c == '%' || c == '+'
  {
    if s != [] {
      EscapeAlphabet(s[1..]);
    }
  }
}
