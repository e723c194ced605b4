/**
 Tokens of a formula, as CExpParser::nextToken cuts them.

 A number and `!=` share the token character 'n'; the number member keeps the
 last number read, so both are the token N(value). [] stands for the end token
 '\0', and Bad for an exception thrown by nextToken.
 */
module Lexer {
  import opened Base
  import opened Arith

  datatype Token = N(value: real) | Sym(c: char) | Bad

  /** What one call of nextToken does to the text that is left. */
  datatype Lexed =
    | Throws
    | Lexed(kind: char, used: nat, value: real)

  predicate IsNumberChar(c: char) {
    IsDigit(c) || c == '.'
  }

  /** Length of the longest prefix of digits and dots. */
  function NumberRun(s: string): (n: nat)
    ensures n <= |s|
  {
    if s == [] || !IsNumberChar(s[0]) then 0 else 1 + NumberRun(s[1..])
  }

  /** Does a two-character operator start here, with `second` as its second half? */
  predicate Doubled(s: string, second: char) {
    |s| > 1 && s[1] == second
  }

  /** Token character and length of the operator s starts with; '\0' for a lone `=`. */
  function Operator(s: string): (char, nat)
    requires s != []
  {
    match s[0]
    case '&' => if Doubled(s, '&') then ('&', 2) else ('a', 1)
    case '|' => if Doubled(s, '|') then ('|', 2) else ('o', 1)
    case '<' => if Doubled(s, '=') then ('l', 2) else ('<', 1)
    case '>' => if Doubled(s, '=') then ('g', 2) else ('>', 1)
    case '!' => if Doubled(s, '=') then ('n', 2) else ('!', 1)
    case '=' => if Doubled(s, '=') then ('e', 2) else ('=', 1)
    case c => (c, 1)
  }

  function Next(s: string, value: real): (r: Lexed)
    ensures r.Lexed? ==> r.used <= |s| && (r.kind != '\0' ==> r.used > 0)
  {
    var gap := Spaces(s);
    var t := s[gap..];
    if t == [] then Lexed('\0', gap, value)
    else if IsNumberChar(t[0]) then
      var n := NumberRun(t);
      match Stod(t[..n])
      case None => Throws
      case Some(v) => Lexed('n', gap + n, v)
    else
      var (kind, n) := Operator(t);
      if kind == '=' then Throws else Lexed(kind, gap + n, value)
  }

  function TokenOf(kind: char, value: real): Token {
    if kind == 'n' then N(value) else Sym(kind)
  }

  /** All tokens of s, `value` being the number read last. */
  function Tokens(s: string, value: real): seq<Token>
    decreases |s|
  {
    match Next(s, value)
    case Throws => [Bad]
    case Lexed(kind, used, v) =>
      if kind == '\0' then [] else [TokenOf(kind, v)] + Tokens(s[used..], v)
  }
}
