/**
 CExpParser: the parser object whose methods move a read position over the
 formula and compute its value on the way. A thrown exception is the result
 ok == false. Every method is tied to the grammar of module Grammar.
 */
module ExpParser {
  import opened Base
  import opened Arith
  import opened Lexer
  import opened Grammar

  predicate StartsBad(ts: seq<Token>) {
    ts != [] && ts[0] == Bad
  }

  /**
   What the parse function of level k does at the tokens ts: the value it
   returns and the tokens it leaves, or None when it throws.
   */
  function Outcome(k: nat, ts: seq<Token>): Option<(real, seq<Token>)>
    requires k <= FACTOR
  {
    Finish(Parse(k, ts))
  }

  function Finish(p: Parsed): Option<(real, seq<Token>)> {
    match p
    case None => None
    case Some((t, rest)) =>
      if StartsBad(rest) || Eval(t).None? then None else Some((Eval(t).value, rest))
  }

  lemma {:induction false} BadFails(k: nat, ts: seq<Token>)
    requires k <= FACTOR && StartsBad(ts)
    ensures Parse(k, ts).None?
    decreases FACTOR - k
  {
    if k < FACTOR {
      BadFails(k + 1, ts);
    }
  }

  // The outcomes by level, in terms of values only.

  /** The loop of level k with `v` accumulated so far. */
  function ValueLoop(k: nat, v: real, ts: seq<Token>): Option<(real, seq<Token>)>
    requires 1 <= k < FACTOR
    decreases |ts|
  {
    if !Continues(k, ts) then Some((v, ts))
    else if StartsBad(ts[1..]) then None
    else
      match Outcome(k + 1, ts[1..])
      case None => None
      case Some((rhs, rest)) =>
        match Apply(TokenOp(ts[0]).value.0, v, rhs)
        case None => None
        case Some(x) => ValueLoop(k, x, rest)
  }

  lemma {:induction false} ValueLoopIs(k: nat, tree: Tree, v: real, ts: seq<Token>)
    requires 1 <= k < FACTOR && Eval(tree) == Some(v) && !StartsBad(ts)
    ensures Finish(Loop(k, tree, ts)) == ValueLoop(k, v, ts)
    decreases |ts|
  {
    if Continues(k, ts) {
      if StartsBad(ts[1..]) {
        BadFails(k + 1, ts[1..]);
        return;
      }
      match Parse(k + 1, ts[1..])
      case None =>
      case Some((right, rest)) =>
        var (op, memo) := TokenOp(ts[0]).value;
        var next := Bin(op, memo, tree, right);
        if Eval(next).None? {
          if Loop(k, next, rest).Some? {
            LoopKeepsException(k, next, rest);
          }
        } else if !StartsBad(rest) {
          ValueLoopIs(k, next, Eval(next).value, rest);
        }
    }
  }

  lemma {:induction false} OutcomeLevel(k: nat, ts: seq<Token>)
    requires 1 <= k < FACTOR
    ensures Outcome(k + 1, ts).None? ==> Outcome(k, ts).None?
    ensures Outcome(k + 1, ts).Some? ==>
              var (v, rest) := Outcome(k + 1, ts).value;
              Outcome(k, ts) == ValueLoop(k, v, rest) && !StartsBad(rest)
  {
    match Parse(k + 1, ts)
    case None =>
    case Some((tree, rest)) =>
      assert Parse(k, ts) == Loop(k, tree, rest);
      if Eval(tree).None? {
        if Loop(k, tree, rest).Some? {
          LoopKeepsException(k, tree, rest);
        }
      } else if !StartsBad(rest) {
        ValueLoopIs(k, tree, Eval(tree).value, rest);
      }
  }

  function ConditionalOutcome(ts: seq<Token>): Option<(real, seq<Token>)> {
    match Outcome(1, ts)
    case None => None
    case Some((cond, rest)) =>
      if !StartsWith(rest, '?') then Some((cond, rest))
      else if StartsBad(rest[1..]) then None
      else
        match Outcome(CONDITIONAL, rest[1..])
        case None => None
        case Some((yes, rest2)) =>
          if !StartsWith(rest2, ':') || StartsBad(rest2[1..]) then None
          else
            match Outcome(CONDITIONAL, rest2[1..])
            case None => None
            case Some((no, rest3)) => Some((if cond != 0.0 then yes else no, rest3))
  }

  lemma {:induction false} ConditionalOutcomeIs(ts: seq<Token>)
    ensures Outcome(CONDITIONAL, ts) == ConditionalOutcome(ts)
  {
    assert Parse(CONDITIONAL, ts) == ParseConditional(ts);
    if Parse(1, ts).Some? && StartsWith(Parse(1, ts).value.1, '?') {
      var after := Parse(1, ts).value.1[1..];
      if StartsBad(after) {
        BadFails(CONDITIONAL, after);
      } else if Parse(CONDITIONAL, after).Some? && StartsWith(Parse(CONDITIONAL, after).value.1, ':') {
        var last := Parse(CONDITIONAL, after).value.1[1..];
        if StartsBad(last) {
          BadFails(CONDITIONAL, last);
        }
      }
    }
  }

  function FactorOutcome(ts: seq<Token>): Option<(real, seq<Token>)> {
    if ts == [] || StartsBad(ts[1..]) then None
    else if ts[0].N? then Some((ts[0].value, ts[1..]))
    else if ts[0] == Sym('(') then
      match Outcome(CONDITIONAL, ts[1..])
      case None => None
      case Some((x, rest)) =>
        if StartsWith(rest, ')') && !StartsBad(rest[1..]) then Some((x, rest[1..])) else None
    else if ts[0] == Sym('-') then
      match Outcome(FACTOR, ts[1..])
      case None => None
      case Some((x, rest)) => Some((-x, rest))
    else if ts[0] == Sym('!') then
      match Outcome(FACTOR, ts[1..])
      case None => None
      case Some((x, rest)) => Some((if x == 0.0 then 1.0 else 0.0, rest))
    else None
  }

  lemma {:induction false} FactorOutcomeIs(ts: seq<Token>)
    ensures Outcome(FACTOR, ts) == FactorOutcome(ts)
  {
    assert Parse(FACTOR, ts) == ParseFactor(ts);
    if ts != [] && StartsBad(ts[1..]) {
      BadFails(CONDITIONAL, ts[1..]);
      BadFails(FACTOR, ts[1..]);
    }
  }

  /** The token characters level k's loop looks for. */
  function LevelChars(k: nat): string {
    match k
    case 1 => "|"
    case 2 => "&"
    case 3 => "o"
    case 4 => "a"
    case 5 => "<l>gen"
    case 6 => "+-"
    case 7 => "*/"
    case _ => ""
  }

  function CharOp(c: char): Op {
    match c
    case '|' => Or
    case '&' => And
    case 'o' => BitOr
    case 'a' => BitAnd
    case '<' => Lt
    case 'l' => Le
    case '>' => Gt
    case 'g' => Ge
    case 'e' => Eq
    case 'n' => Ne
    case '+' => Add
    case '-' => Sub
    case '*' => Mul
    case _ => Div
  }

  lemma ApplyTerm(a: real, b: real)
    ensures Apply(Mul, a, b) == Some(a * b)
    ensures Apply(Div, a, b) == if b == 0.0 then None else Some(a / b)
  {
  }

  /** The value of a comparison, by its token character. */
  function Compare(op: char, a: real, b: real): real
    requires op in "<l>gen"
  {
    match op
    case '<' => Truth(a < b)
    case 'l' => Truth(a <= b)
    case '>' => Truth(a > b)
    case 'g' => Truth(a >= b)
    case 'e' => Truth(a == b)
    case _ => Truth(a != b)
  }

  class ExpParser {
    const expr: string
    var pos: nat
    var currentToken: char
    var value: real

    ghost predicate Valid()
      reads this
    {
      pos <= |expr|
    }

    /** Tokens not consumed yet, the current one first. */
    ghost function Rest(): seq<Token>
      reads this
      requires Valid()
    {
      if currentToken == '\0' then [] else [TokenOf(currentToken, value)] + Tokens(expr[pos..], value)
    }

    /** Unread characters, plus one while the current token is not the end. */
    ghost function Unread(): nat
      reads this
      requires Valid()
    {
      |expr| - pos + if currentToken == '\0' then 0 else 1
    }

    /** `garbage` is the number member, which the C++ constructor leaves uninitialised. */
    constructor Blank(e: string, garbage: real)
      ensures Valid() && expr == e && pos == 0 && currentToken == '\0' && value == garbage
    {
      expr, pos, currentToken, value := e, 0, '\0', garbage;
    }

    /** The C++ constructor: it reads the first token outside any try block. */
    static method Create(e: string, garbage: real) returns (ok: bool, p: ExpParser)
      ensures fresh(p) && p.Valid() && p.expr == e
      ensures ok <==> !StartsBad(Tokens(e, garbage))
      ensures ok ==> p.Rest() == Tokens(e, garbage)
    {
      p := new ExpParser.Blank(e, garbage);
      assert e[0..] == e;
      ok := p.NextToken();
    }

    method SkipSpaces()
      requires Valid()
      modifies this`pos
      ensures Valid() && pos == old(pos) + Spaces(expr[old(pos)..])
    {
      while pos < |expr| && IsSpace(expr[pos])
        invariant old(pos) <= pos <= |expr|
        invariant Spaces(expr[old(pos)..]) == pos - old(pos) + Spaces(expr[pos..])
      {
        assert expr[pos..][1..] == expr[pos + 1..];
        pos := pos + 1;
      }
    }

    method ReadNumber()
      requires Valid()
      modifies this`pos
      ensures Valid() && pos == old(pos) + NumberRun(expr[old(pos)..])
    {
      while pos < |expr| && (IsDigit(expr[pos]) || expr[pos] == '.')
        invariant old(pos) <= pos <= |expr|
        invariant NumberRun(expr[old(pos)..]) == pos - old(pos) + NumberRun(expr[pos..])
      {
        assert expr[pos..][1..] == expr[pos + 1..];
        pos := pos + 1;
      }
    }

    /** The switch over operator characters; false for a lone `=`. */
    method ReadOperator() returns (ok: bool)
      requires Valid() && pos < |expr|
      modifies this`pos, this`currentToken
      ensures Valid() && pos >= old(pos)
      ensures ok <==> Operator(expr[old(pos)..]).0 != '='
      ensures ok ==> (currentToken, pos) == (Operator(expr[old(pos)..]).0, old(pos) + Operator(expr[old(pos)..]).1)
    {
      ok := true;
      var c := expr[pos];
      if c == '&' {
        if pos + 1 < |expr| && expr[pos + 1] == '&' {
          currentToken, pos := '&', pos + 2;
        } else {
          currentToken, pos := 'a', pos + 1;
        }
      } else if c == '|' {
        if pos + 1 < |expr| && expr[pos + 1] == '|' {
          currentToken, pos := '|', pos + 2;
        } else {
          currentToken, pos := 'o', pos + 1;
        }
      } else if c == '<' {
        if pos + 1 < |expr| && expr[pos + 1] == '=' {
          currentToken, pos := 'l', pos + 2;
        } else {
          currentToken, pos := '<', pos + 1;
        }
      } else if c == '>' {
        if pos + 1 < |expr| && expr[pos + 1] == '=' {
          currentToken, pos := 'g', pos + 2;
        } else {
          currentToken, pos := '>', pos + 1;
        }
      } else if c == '!' {
        if pos + 1 < |expr| && expr[pos + 1] == '=' {
          currentToken, pos := 'n', pos + 2;
        } else {
          currentToken, pos := '!', pos + 1;
        }
      } else if c == '=' {
        if pos + 1 < |expr| && expr[pos + 1] == '=' {
          currentToken, pos := 'e', pos + 2;
        } else {
          ok := false;
        }
      } else {
        currentToken, pos := c, pos + 1;
      }
    }

    /** One turn of level k's loop, by the current token. */
    lemma LoopHead(k: nat, v: real)
      requires Valid() && 1 <= k < FACTOR
      ensures currentToken !in LevelChars(k) ==> ValueLoop(k, v, Rest()) == Some((v, Rest()))
      ensures var tail := Tokens(expr[pos..], value);
              currentToken in LevelChars(k) ==>
                if StartsBad(tail) || Outcome(k + 1, tail).None? then ValueLoop(k, v, Rest()).None?
                else
                  var (rhs, rest) := Outcome(k + 1, tail).value;
                  var x := Apply(CharOp(currentToken), v, rhs);
                  ValueLoop(k, v, Rest()) == if x.None? then None else ValueLoop(k, x.value, rest)
    {
      hide Outcome, Tokens, Apply;
      if currentToken != '\0' {
        var tail := Tokens(expr[pos..], value);
        Tail(TokenOf(currentToken, value), tail);
      }
    }

    /** The current token and what follows it, as the head and tail of Rest. */
    lemma Head()
      requires Valid()
      ensures forall c | c != 'n' && c != '\0' :: StartsWith(Rest(), c) <==> currentToken == c
      ensures currentToken == '\0' <==> Rest() == []
      ensures currentToken != '\0' ==>
                Rest()[0] == TokenOf(currentToken, value) && Rest()[1..] == Tokens(expr[pos..], value)
    {
      hide Tokens;
      if currentToken != '\0' {
        Tail(TokenOf(currentToken, value), Tokens(expr[pos..], value));
      }
    }

    /** The body of nextToken. */
    method ReadToken() returns (ok: bool)
      requires Valid()
      modifies this
      ensures Valid() && pos >= old(pos)
      ensures ok <==> Next(expr[old(pos)..], old(value)).Lexed?
      ensures ok ==> Next(expr[old(pos)..], old(value)) == Lexed(currentToken, pos - old(pos), value)
    {
      hide Spaces, NumberRun, Operator, Stod;
      ghost var left := expr[pos..];
      SkipSpaces();
      assert left[Spaces(left)..] == expr[pos..];
      if pos >= |expr| {
        currentToken := '\0';
        return true;
      }
      if IsDigit(expr[pos]) || expr[pos] == '.' {
        var start := pos;
        ReadNumber();
        assert expr[start..][..pos - start] == expr[start..pos];
        var v := Stod(expr[start..pos]);
        if v.None? {
          return false;
        }
        value := v.value;
        currentToken := 'n';
        return true;
      }
      ok := ReadOperator();
    }

    method NextToken() returns (ok: bool)
      requires Valid()
      modifies this
      ensures Valid()
      ensures ok <==> !StartsBad(Tokens(expr[old(pos)..], old(value)))
      ensures ok ==> Rest() == Tokens(expr[old(pos)..], old(value))
      ensures ok && old(currentToken) != '\0' ==> Unread() < old(Unread())
    {
      ghost var left := expr[pos..];
      ok := ReadToken();
      assert ok ==> left[pos - old(pos)..] == expr[pos..];
    }

    method Calculate() returns (ghost normal: bool, result: real)
      requires Valid()
      modifies this
      ensures Valid()
      ensures normal <==> Calculated(old(Rest())).Some?
      ensures result == if normal then Calculated(old(Rest())).value else 0.0
    {
      var ok, r := ParseConditional();
      if !ok || currentToken != '\0' {
        return false, 0.0;
      }
      return true, r;
    }

    method ParseConditional() returns (ok: bool, result: real)
      requires Valid()
      modifies this
      ensures Valid()
      ensures ok <==> Outcome(CONDITIONAL, old(Rest())).Some?
      ensures ok ==> (result, Rest()) == Outcome(CONDITIONAL, old(Rest())).value && Unread() < old(Unread())
      decreases Unread(), FACTOR - CONDITIONAL
    {
      hide Outcome, Tokens, Rest, Unread, StartsBad, StartsWith;
      ConditionalOutcomeIs(Rest());
      ok, result := ParseLogicalOr();
      Head();
      if !ok || currentToken != '?' {
        return;
      }
      ok := NextToken();
      if !ok {
        return;
      }
      var yes;
      ok, yes := ParseConditional();
      Head();
      if !ok || currentToken != ':' {
        return false, 0.0;
      }
      ok := NextToken();
      if !ok {
        return;
      }
      var no;
      ok, no := ParseConditional();
      result := if result != 0.0 then yes else no;
    }

    method ParseLogicalOr() returns (ok: bool, result: real)
      requires Valid()
      modifies this
      ensures Valid()
      ensures ok <==> Outcome(1, old(Rest())).Some?
      ensures ok ==> (result, Rest()) == Outcome(1, old(Rest())).value && Unread() < old(Unread())
      decreases Unread(), FACTOR - 1
    {
      hide Outcome, Tokens, ValueLoop, Rest, Unread, StartsBad;
      OutcomeLevel(1, Rest());
      ok, result := ParseLogicalAnd();
      while ok && currentToken == '|'
        invariant Valid()
        invariant !ok ==> Outcome(1, old(Rest())).None?
        invariant ok ==> Unread() < old(Unread())
        invariant ok ==> Outcome(1, old(Rest())) == ValueLoop(1, result, Rest())
        decreases ok, Unread()
      {
        LoopHead(1, result);
        ok := NextToken();
        if ok {
          var rhs;
          ok, rhs := ParseLogicalAnd();
          result := if result != 0.0 || rhs != 0.0 then 1.0 else 0.0;
        }
      }
      if ok {
        LoopHead(1, result);
      }
    }

    method ParseLogicalAnd() returns (ok: bool, result: real)
      requires Valid()
      modifies this
      ensures Valid()
      ensures ok <==> Outcome(2, old(Rest())).Some?
      ensures ok ==> (result, Rest()) == Outcome(2, old(Rest())).value && Unread() < old(Unread())
      decreases Unread(), FACTOR - 2
    {
      hide Outcome, Tokens, ValueLoop, Rest, Unread, StartsBad;
      OutcomeLevel(2, Rest());
      ok, result := ParseBitOr();
      while ok && currentToken == '&'
        invariant Valid()
        invariant !ok ==> Outcome(2, old(Rest())).None?
        invariant ok ==> Unread() < old(Unread())
        invariant ok ==> Outcome(2, old(Rest())) == ValueLoop(2, result, Rest())
        decreases ok, Unread()
      {
        LoopHead(2, result);
        ok := NextToken();
        if ok {
          var rhs;
          ok, rhs := ParseBitOr();
          result := if result != 0.0 && rhs != 0.0 then 1.0 else 0.0;
        }
      }
      if ok {
        LoopHead(2, result);
      }
    }

    method ParseBitOr() returns (ok: bool, result: real)
      requires Valid()
      modifies this
      ensures Valid()
      ensures ok <==> Outcome(3, old(Rest())).Some?
      ensures ok ==> (result, Rest()) == Outcome(3, old(Rest())).value && Unread() < old(Unread())
      decreases Unread(), FACTOR - 3
    {
      hide Outcome, Tokens, ValueLoop, Rest, Unread, StartsBad;
      OutcomeLevel(3, Rest());
      ok, result := ParseBitAnd();
      while ok && currentToken == 'o'
        invariant Valid()
        invariant !ok ==> Outcome(3, old(Rest())).None?
        invariant ok ==> Unread() < old(Unread())
        invariant ok ==> Outcome(3, old(Rest())) == ValueLoop(3, result, Rest())
        decreases ok, Unread()
      {
        LoopHead(3, result);
        ok := NextToken();
        if ok {
          var rhs;
          ok, rhs := ParseBitAnd();
          result := Arith.BitOr(Trunc(result), Trunc(rhs)) as real;
        }
      }
      if ok {
        LoopHead(3, result);
      }
    }

    method ParseBitAnd() returns (ok: bool, result: real)
      requires Valid()
      modifies this
      ensures Valid()
      ensures ok <==> Outcome(4, old(Rest())).Some?
      ensures ok ==> (result, Rest()) == Outcome(4, old(Rest())).value && Unread() < old(Unread())
      decreases Unread(), FACTOR - 4
    {
      hide Outcome, Tokens, ValueLoop, Rest, Unread, StartsBad;
      OutcomeLevel(4, Rest());
      ok, result := ParseComparison();
      while ok && currentToken == 'a'
        invariant Valid()
        invariant !ok ==> Outcome(4, old(Rest())).None?
        invariant ok ==> Unread() < old(Unread())
        invariant ok ==> Outcome(4, old(Rest())) == ValueLoop(4, result, Rest())
        decreases ok, Unread()
      {
        LoopHead(4, result);
        ok := NextToken();
        if ok {
          var rhs;
          ok, rhs := ParseComparison();
          result := Arith.BitAnd(Trunc(result), Trunc(rhs)) as real;
        }
      }
      if ok {
        LoopHead(4, result);
      }
    }

    method ParseComparison() returns (ok: bool, result: real)
      requires Valid()
      modifies this
      ensures Valid()
      ensures ok <==> Outcome(5, old(Rest())).Some?
      ensures ok ==> (result, Rest()) == Outcome(5, old(Rest())).value && Unread() < old(Unread())
      decreases Unread(), FACTOR - 5
    {
      hide Outcome, Tokens, ValueLoop, Rest, Unread, StartsBad;
      OutcomeLevel(5, Rest());
      ok, result := ParseAddSub();
      while ok && currentToken in "<l>gen"
        invariant Valid()
        invariant !ok ==> Outcome(5, old(Rest())).None?
        invariant ok ==> Unread() < old(Unread())
        invariant ok ==> Outcome(5, old(Rest())) == ValueLoop(5, result, Rest())
        decreases ok, Unread()
      {
        LoopHead(5, result);
        var op := currentToken;
        ok := NextToken();
        if ok {
          var rhs;
          ok, rhs := ParseAddSub();
          result := Compare(op, result, rhs);
        }
      }
      if ok {
        LoopHead(5, result);
      }
    }

    method ParseAddSub() returns (ok: bool, result: real)
      requires Valid()
      modifies this
      ensures Valid()
      ensures ok <==> Outcome(6, old(Rest())).Some?
      ensures ok ==> (result, Rest()) == Outcome(6, old(Rest())).value && Unread() < old(Unread())
      decreases Unread(), FACTOR - 6
    {
      hide Outcome, Tokens, ValueLoop, Rest, Unread, StartsBad;
      OutcomeLevel(6, Rest());
      ok, result := ParseTerm();
      while ok && (currentToken == '+' || currentToken == '-')
        invariant Valid()
        invariant !ok ==> Outcome(6, old(Rest())).None?
        invariant ok ==> Unread() < old(Unread())
        invariant ok ==> Outcome(6, old(Rest())) == ValueLoop(6, result, Rest())
        decreases ok, Unread()
      {
        LoopHead(6, result);
        var op := currentToken;
        ok := NextToken();
        if ok {
          var term;
          ok, term := ParseTerm();
          result := if op == '+' then result + term else result - term;
        }
      }
      if ok {
        LoopHead(6, result);
      }
    }

    method ParseTerm() returns (ok: bool, result: real)
      requires Valid()
      modifies this
      ensures Valid()
      ensures ok <==> Outcome(7, old(Rest())).Some?
      ensures ok ==> (result, Rest()) == Outcome(7, old(Rest())).value && Unread() < old(Unread())
      decreases Unread(), FACTOR - 7
    {
      hide Outcome, Tokens, ValueLoop, Rest, Unread, StartsBad, Apply;
      OutcomeLevel(7, Rest());
      ok, result := ParseFactor();
      while ok && (currentToken == '*' || currentToken == '/')
        invariant Valid()
        invariant !ok ==> Outcome(7, old(Rest())).None?
        invariant ok ==> Unread() < old(Unread())
        invariant ok ==> Outcome(7, old(Rest())) == ValueLoop(7, result, Rest())
        decreases ok, Unread()
      {
        LoopHead(7, result);
        var op := currentToken;
        ok := NextToken();
        if ok {
          var factor;
          ok, factor := ParseFactor();
          ApplyTerm(result, factor);
          if ok && op == '*' {
            result := result * factor;
          } else if ok && factor == 0.0 {
            ok := false;
          } else if ok {
            result := result / factor;
          }
        }
      }
      if ok {
        LoopHead(7, result);
      }
    }

    method ParseFactor() returns (ok: bool, result: real)
      requires Valid()
      modifies this
      ensures Valid()
      ensures ok <==> Outcome(FACTOR, old(Rest())).Some?
      ensures ok ==> (result, Rest()) == Outcome(FACTOR, old(Rest())).value && Unread() < old(Unread())
      decreases Unread(), 0
    {
      hide Outcome, Tokens, Rest, Unread, StartsBad, StartsWith;
      FactorOutcomeIs(Rest());
      Head();
      result := 0.0;
      if currentToken == 'n' {
        result := value;
        ok := NextToken();
      } else if currentToken == '(' {
        ok := NextToken();
        if ok {
          ok, result := ParseConditional();
          Head();
          if ok && currentToken != ')' {
            ok := false;
          } else if ok {
            ok := NextToken();
          }
        }
      } else if currentToken == '-' {
        ok := NextToken();
        if ok {
          ok, result := ParseFactor();
          result := -result;
        }
      } else if currentToken == '!' {
        ok := NextToken();
        if ok {
          ok, result := ParseFactor();
          result := if result == 0.0 then 1.0 else 0.0;
        }
      } else {
        ok := false;
      }
    }
  }
}
