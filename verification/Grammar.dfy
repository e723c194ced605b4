/**
 The nine-level grammar behind parseConditional .. parseFactor, the value of a
 derivation, and the recursive-descent parser as a function. The parser accepts
 exactly the grammar, and every accepted token sequence has one derivation.
 */
module Grammar {
  import opened Base
  import opened Arith
  import opened Lexer

  datatype Op = Or | And | BitOr | BitAnd | Lt | Le | Gt | Ge | Eq | Ne | Add | Sub | Mul | Div

  /** A derivation. The `memo` of a Ne node is the number its shared token carries. */
  datatype Tree =
    | Num(value: real)
    | Paren(inner: Tree)
    | Neg(arg: Tree)
    | Not(arg: Tree)
    | Bin(op: Op, memo: real, left: Tree, right: Tree)
    | Cond(cond: Tree, yes: Tree, no: Tree)

  const CONDITIONAL: nat := 0
  const COMPARISON: nat := 5
  const FACTOR: nat := 8

  /** The parse function that handles an operator: 1 is parseLogicalOr, 7 is parseTerm. */
  function OpLevel(op: Op): (k: nat)
    ensures 1 <= k < FACTOR
  {
    match op
    case Or => 1
    case And => 2
    case BitOr => 3
    case BitAnd => 4
    case Lt | Le | Gt | Ge | Eq | Ne => COMPARISON
    case Add | Sub => 6
    case Mul | Div => 7
  }

  function OpToken(op: Op, memo: real): Token {
    match op
    case Or => Sym('|')
    case And => Sym('&')
    case BitOr => Sym('o')
    case BitAnd => Sym('a')
    case Lt => Sym('<')
    case Le => Sym('l')
    case Gt => Sym('>')
    case Ge => Sym('g')
    case Eq => Sym('e')
    case Ne => N(memo)
    case Add => Sym('+')
    case Sub => Sym('-')
    case Mul => Sym('*')
    case Div => Sym('/')
  }

  /** Inverse of OpToken. */
  function TokenOp(t: Token): (r: Option<(Op, real)>)
    ensures r.Some? ==> OpToken(r.value.0, r.value.1) == t
  {
    match t
    case N(v) => Some((Ne, v))
    case Bad => None
    case Sym(c) =>
      match c
      case '|' => Some((Or, 0.0))
      case '&' => Some((And, 0.0))
      case 'o' => Some((BitOr, 0.0))
      case 'a' => Some((BitAnd, 0.0))
      case '<' => Some((Lt, 0.0))
      case 'l' => Some((Le, 0.0))
      case '>' => Some((Gt, 0.0))
      case 'g' => Some((Ge, 0.0))
      case 'e' => Some((Eq, 0.0))
      case '+' => Some((Add, 0.0))
      case '-' => Some((Sub, 0.0))
      case '*' => Some((Mul, 0.0))
      case '/' => Some((Div, 0.0))
      case _ => None
  }

  /** Does level k's loop go on at the head of ts? */
  predicate Continues(k: nat, ts: seq<Token>) {
    ts != [] && TokenOp(ts[0]).Some? && OpLevel(TokenOp(ts[0]).value.0) == k
  }

  predicate StartsWith(ts: seq<Token>, c: char) {
    ts != [] && ts[0] == Sym(c)
  }

  // ------------------------------------------------------ grammar and value

  /** t is a derivation from the non-terminal of level k. */
  predicate Derivation(k: nat, t: Tree)
    decreases t
  {
    match t
    case Num(_) => true
    case Paren(x) => Derivation(CONDITIONAL, x)
    case Neg(x) => Derivation(FACTOR, x)
    case Not(x) => Derivation(FACTOR, x)
    case Bin(op, memo, l, r) =>
      && k <= OpLevel(op)
      && (op != Ne ==> memo == 0.0)
      && Derivation(OpLevel(op), l)
      && Derivation(OpLevel(op) + 1, r)
    case Cond(c, a, b) =>
      k == CONDITIONAL && Derivation(1, c) && Derivation(CONDITIONAL, a) && Derivation(CONDITIONAL, b)
  }

  /** The tokens a derivation produces. */
  function Yield(t: Tree): (ts: seq<Token>)
    ensures |ts| > 0
  {
    match t
    case Num(v) => [N(v)]
    case Paren(x) => [Sym('(')] + Yield(x) + [Sym(')')]
    case Neg(x) => [Sym('-')] + Yield(x)
    case Not(x) => [Sym('!')] + Yield(x)
    case Bin(op, memo, l, r) => Yield(l) + [OpToken(op, memo)] + Yield(r)
    case Cond(c, a, b) => Yield(c) + [Sym('?')] + Yield(a) + [Sym(':')] + Yield(b)
  }

  lemma {:induction false} YieldLexed(t: Tree)
    ensures Yield(t)[0] != Bad
    decreases t
  {
    match t
    case Bin(_, _, l, _) => YieldLexed(l);
    case Cond(c, _, _) => YieldLexed(c);
    case _ =>
  }

  function Truth(b: bool): real {
    if b then 1.0 else 0.0
  }

  /** Value of an operator; None is the exception of a zero divisor. */
  function Apply(op: Op, a: real, b: real): Option<real> {
    match op
    case Or => Some(Truth(a != 0.0 || b != 0.0))
    case And => Some(Truth(a != 0.0 && b != 0.0))
    case BitOr => Some(Arith.BitOr(Trunc(a), Trunc(b)) as real)
    case BitAnd => Some(Arith.BitAnd(Trunc(a), Trunc(b)) as real)
    case Lt => Some(Truth(a < b))
    case Le => Some(Truth(a <= b))
    case Gt => Some(Truth(a > b))
    case Ge => Some(Truth(a >= b))
    case Eq => Some(Truth(a == b))
    case Ne => Some(Truth(a != b))
    case Add => Some(a + b)
    case Sub => Some(a - b)
    case Mul => Some(a * b)
    case Div => if b == 0.0 then None else Some(a / b)
  }

  /** Eager value: both branches of `?:` and both sides of `&&`, `||` are computed. */
  function Eval(t: Tree): Option<real> {
    match t
    case Num(v) => Some(v)
    case Paren(x) => Eval(x)
    case Neg(x) => if Eval(x).None? then None else Some(-Eval(x).value)
    case Not(x) => if Eval(x).None? then None else Some(Truth(Eval(x).value == 0.0))
    case Bin(op, _, l, r) =>
      if Eval(l).None? || Eval(r).None? then None else Apply(op, Eval(l).value, Eval(r).value)
    case Cond(c, a, b) =>
      if Eval(c).None? || Eval(a).None? || Eval(b).None? then None
      else if Eval(c).value != 0.0 then Eval(a) else Eval(b)
  }

  // ------------------------------------------------------ the parser

  type Parsed = Option<(Tree, seq<Token>)>

  /** The derivation the parse function of level k recognises, and the tokens it leaves. */
  function Parse(k: nat, ts: seq<Token>): (r: Parsed)
    requires k <= FACTOR
    ensures r.Some? ==> |r.value.1| < |ts|
    decreases |ts|, FACTOR - k + 1
  {
    if k == CONDITIONAL then ParseConditional(ts)
    else if k == FACTOR then ParseFactor(ts)
    else
      match Parse(k + 1, ts)
      case None => None
      case Some((left, rest)) => Loop(k, left, rest)
  }

  /** The `while` loop of level k, `left` being what it has accumulated. */
  function Loop(k: nat, left: Tree, ts: seq<Token>): (r: Parsed)
    requires 1 <= k < FACTOR
    ensures r.Some? ==> |r.value.1| <= |ts|
    decreases |ts|, 0
  {
    if !Continues(k, ts) then Some((left, ts))
    else
      match Parse(k + 1, ts[1..])
      case None => None
      case Some((right, rest)) =>
        var (op, memo) := TokenOp(ts[0]).value;
        Loop(k, Bin(op, memo, left, right), rest)
  }

  function ParseConditional(ts: seq<Token>): (r: Parsed)
    ensures r.Some? ==> |r.value.1| < |ts|
    decreases |ts|, FACTOR + 1, 0
  {
    match Parse(1, ts)
    case None => None
    case Some((c, rest)) =>
      if !StartsWith(rest, '?') then Some((c, rest))
      else
        match Parse(CONDITIONAL, rest[1..])
        case None => None
        case Some((a, rest2)) =>
          if !StartsWith(rest2, ':') then None
          else
            match Parse(CONDITIONAL, rest2[1..])
            case None => None
            case Some((b, rest3)) => Some((Cond(c, a, b), rest3))
  }

  function ParseFactor(ts: seq<Token>): (r: Parsed)
    ensures r.Some? ==> |r.value.1| < |ts|
    decreases |ts|, 0, 0
  {
    if ts == [] then None
    else if ts[0].N? then Some((Num(ts[0].value), ts[1..]))
    else if ts[0] == Sym('(') then
      match Parse(CONDITIONAL, ts[1..])
      case None => None
      case Some((x, rest)) => if StartsWith(rest, ')') then Some((Paren(x), rest[1..])) else None
    else if ts[0] == Sym('-') then
      match Parse(FACTOR, ts[1..])
      case None => None
      case Some((x, rest)) => Some((Neg(x), rest))
    else if ts[0] == Sym('!') then
      match Parse(FACTOR, ts[1..])
      case None => None
      case Some((x, rest)) => Some((Not(x), rest))
    else None
  }

  // ------------------------------------------------------ soundness

  /** What the parser recognises is a derivation of the tokens it consumed. */
  lemma {:induction false} ParseSound(k: nat, ts: seq<Token>)
    requires k <= FACTOR && Parse(k, ts).Some?
    ensures var (t, rest) := Parse(k, ts).value; Derivation(k, t) && ts == Yield(t) + rest
    decreases |ts|, FACTOR - k + 1
  {
    if k == CONDITIONAL {
      ConditionalSound(ts);
    } else if k == FACTOR {
      FactorSound(ts);
    } else {
      ParseSound(k + 1, ts);
      var (left, rest) := Parse(k + 1, ts).value;
      LoopSound(k, left, rest);
    }
  }

  lemma {:induction false} LoopSound(k: nat, left: Tree, ts: seq<Token>)
    requires 1 <= k < FACTOR && Derivation(k, left) && Loop(k, left, ts).Some?
    ensures var (t, rest) := Loop(k, left, ts).value; Derivation(k, t) && Yield(left) + ts == Yield(t) + rest
    decreases |ts|, 0
  {
    if Continues(k, ts) {
      ParseSound(k + 1, ts[1..]);
      var (right, rest) := Parse(k + 1, ts[1..]).value;
      var (op, memo) := TokenOp(ts[0]).value;
      LoopSound(k, Bin(op, memo, left, right), rest);
      Assoc4(Yield(left), [ts[0]], Yield(right), rest);
      assert ts == [ts[0]] + ts[1..];
    }
  }

  lemma {:induction false} ConditionalSound(ts: seq<Token>)
    requires ParseConditional(ts).Some?
    ensures var (t, rest) := ParseConditional(ts).value; Derivation(CONDITIONAL, t) && ts == Yield(t) + rest
    decreases |ts|, FACTOR + 1, 0
  {
    ParseSound(1, ts);
    var (c, rest) := Parse(1, ts).value;
    if StartsWith(rest, '?') {
      ParseSound(CONDITIONAL, rest[1..]);
      var (a, rest2) := Parse(CONDITIONAL, rest[1..]).value;
      ParseSound(CONDITIONAL, rest2[1..]);
      var (b, rest3) := Parse(CONDITIONAL, rest2[1..]).value;
      CondYield(ts, c, a, b, rest, rest2, rest3);
    }
  }

  lemma CondYield(ts: seq<Token>, c: Tree, a: Tree, b: Tree, rest: seq<Token>, rest2: seq<Token>, rest3: seq<Token>)
    requires ts == Yield(c) + rest
    requires StartsWith(rest, '?') && rest[1..] == Yield(a) + rest2
    requires StartsWith(rest2, ':') && rest2[1..] == Yield(b) + rest3
    ensures ts == Yield(Cond(c, a, b)) + rest3
  {
    var head := Yield(c) + [rest[0]] + Yield(a);
    assert rest == [rest[0]] + rest[1..];
    Assoc4(Yield(c), [rest[0]], Yield(a), rest2);
    assert rest2 == [rest2[0]] + rest2[1..];
    Assoc4(head, [rest2[0]], Yield(b), rest3);
  }

  lemma {:induction false} FactorSound(ts: seq<Token>)
    requires ParseFactor(ts).Some?
    ensures var (t, rest) := ParseFactor(ts).value; Derivation(FACTOR, t) && ts == Yield(t) + rest
    decreases |ts|, 0, 0
  {
    assert ts == [ts[0]] + ts[1..];
    if ts[0] == Sym('(') {
      ParseSound(CONDITIONAL, ts[1..]);
      var (x, rest) := Parse(CONDITIONAL, ts[1..]).value;
      assert rest == [Sym(')')] + rest[1..];
    } else if ts[0] == Sym('-') || ts[0] == Sym('!') {
      ParseSound(FACTOR, ts[1..]);
    }
  }

  // ------------------------------------------------------ completeness

  /** No token at the head of rest would make level k, or a tighter one, go on. */
  predicate Closed(k: nat, rest: seq<Token>) {
    && (rest != [] && TokenOp(rest[0]).Some? ==> OpLevel(TokenOp(rest[0]).value.0) < k)
    && (k == CONDITIONAL ==> !StartsWith(rest, '?'))
  }

  /** Every derivation is found again from the tokens it produces. */
  lemma {:induction false} ParseComplete(k: nat, t: Tree, rest: seq<Token>)
    requires k <= FACTOR && Derivation(k, t) && Closed(k, rest)
    ensures Parse(k, Yield(t) + rest) == Some((t, rest))
    decreases t, FACTOR - k, 1
  {
    if k == CONDITIONAL {
      ConditionalComplete(t, rest);
    } else if k == FACTOR {
      FactorComplete(t, rest);
    } else {
      SpineComplete(k, t, rest);
    }
  }

  /** A left-associated chain of level k brings the loop to its last operand. */
  lemma {:induction false} SpineComplete(k: nat, t: Tree, rest: seq<Token>)
    requires 1 <= k < FACTOR && Derivation(k, t) && Closed(k + 1, rest)
    ensures Parse(k, Yield(t) + rest) == Loop(k, t, rest)
    decreases t, FACTOR - k, 0
  {
    if t.Bin? && OpLevel(t.op) == k {
      var after := Yield(t.right) + rest;
      var tail := [OpToken(t.op, t.memo)] + after;
      OpTokenBack(t.op, t.memo);
      SpineComplete(k, t.left, tail);
      ParseComplete(k + 1, t.right, rest);
      Assoc4(Yield(t.left), [OpToken(t.op, t.memo)], Yield(t.right), rest);
      Tail(OpToken(t.op, t.memo), after);
    } else {
      ParseComplete(k + 1, t, rest);
    }
  }

  lemma OpTokenBack(op: Op, memo: real)
    requires op != Ne ==> memo == 0.0
    ensures TokenOp(OpToken(op, memo)) == Some((op, memo))
  {
  }

  lemma {:induction false} ConditionalComplete(t: Tree, rest: seq<Token>)
    requires Derivation(CONDITIONAL, t) && Closed(CONDITIONAL, rest)
    ensures ParseConditional(Yield(t) + rest) == Some((t, rest))
    decreases t, FACTOR, 0
  {
    if t.Cond? {
      var tail := [Sym(':')] + (Yield(t.no) + rest);
      var mid := [Sym('?')] + (Yield(t.yes) + tail);
      ParseComplete(1, t.cond, mid);
      ParseComplete(CONDITIONAL, t.yes, tail);
      ParseComplete(CONDITIONAL, t.no, rest);
      Tail(Sym('?'), Yield(t.yes) + tail);
      Tail(Sym(':'), Yield(t.no) + rest);
      CondYield(Yield(t.cond) + mid, t.cond, t.yes, t.no, mid, tail, rest);
    } else {
      ParseComplete(1, t, rest);
    }
  }

  lemma {:induction false} FactorComplete(t: Tree, rest: seq<Token>)
    requires Derivation(FACTOR, t)
    ensures ParseFactor(Yield(t) + rest) == Some((t, rest))
    decreases t, 0, 0
  {
    var ts := Yield(t) + rest;
    match t
    case Num(v) =>
      assert ts[1..] == rest;
    case Paren(x) =>
      var tail := [Sym(')')] + rest;
      assert ts[1..] == Yield(x) + tail && tail[1..] == rest;
      ParseComplete(CONDITIONAL, x, tail);
    case Neg(x) =>
      assert ts[1..] == Yield(x) + rest;
      ParseComplete(FACTOR, x, rest);
    case Not(x) =>
      assert ts[1..] == Yield(x) + rest;
      ParseComplete(FACTOR, x, rest);
    case Bin(_, _, _, _) =>
  }

  // ------------------------------------------------------ calculate

  /** What calculate returns without an exception; None when it catches one. */
  function Calculated(ts: seq<Token>): Option<real> {
    match Parse(CONDITIONAL, ts)
    case None => None
    case Some((t, rest)) => if rest == [] then Eval(t) else None
  }

  /**
   calculate ends normally with v exactly when the whole token stream derives
   from the grammar and the eager value of the derivation is v.
   */
  lemma {:induction false} CalculatedIff(ts: seq<Token>, v: real)
    ensures Calculated(ts) == Some(v)
       <==> exists t :: Derivation(CONDITIONAL, t) && Yield(t) == ts && Eval(t) == Some(v)
  {
    if Calculated(ts) == Some(v) {
      ParseSound(CONDITIONAL, ts);
      var (t, rest) := Parse(CONDITIONAL, ts).value;
      assert Yield(t) + [] == Yield(t);
    }
    forall t | Derivation(CONDITIONAL, t) && Yield(t) == ts && Eval(t) == Some(v)
      ensures Calculated(ts) == Some(v)
    {
      CalculatedDerivation(t);
    }
  }

  /** A derivable stream gives the value of its derivation, or an exception on a zero divisor. */
  lemma {:induction false} CalculatedDerivation(t: Tree)
    requires Derivation(CONDITIONAL, t)
    ensures Calculated(Yield(t)) == Eval(t)
  {
    ParseComplete(CONDITIONAL, t, []);
    assert Yield(t) + [] == Yield(t);
  }

  /** The grammar is unambiguous. */
  lemma {:induction false} DerivationUnique(t1: Tree, t2: Tree)
    requires Derivation(CONDITIONAL, t1) && Derivation(CONDITIONAL, t2) && Yield(t1) == Yield(t2)
    ensures t1 == t2
  {
    ParseComplete(CONDITIONAL, t1, []);
    ParseComplete(CONDITIONAL, t2, []);
  }

  /** Since a number and `!=` are one token, three numbers in a row compare the outer two. */
  lemma {:induction false} NumberActsAsNotEqual(a: real, b: real, c: real)
    ensures Calculated([N(a), N(b), N(c)]) == Some(Truth(a != c))
  {
    var t := Bin(Ne, b, Num(a), Num(c));
    assert Yield(t) == [N(a), N(b), N(c)];
    CalculatedDerivation(t);
  }

  /** Some divisor in t, in a branch that counts or not, has the value zero. */
  predicate ZeroDivisor(t: Tree) {
    match t
    case Num(_) => false
    case Paren(x) => ZeroDivisor(x)
    case Neg(x) => ZeroDivisor(x)
    case Not(x) => ZeroDivisor(x)
    case Bin(op, _, l, r) => ZeroDivisor(l) || ZeroDivisor(r) || (op == Div && Eval(r) == Some(0.0))
    case Cond(c, a, b) => ZeroDivisor(c) || ZeroDivisor(a) || ZeroDivisor(b)
  }

  lemma {:induction false} EvalNoneIff(t: Tree)
    ensures Eval(t).None? <==> ZeroDivisor(t)
  {
    match t
    case Num(_) =>
    case Paren(x) => EvalNoneIff(x);
    case Neg(x) => EvalNoneIff(x);
    case Not(x) => EvalNoneIff(x);
    case Bin(op, _, l, r) =>
      EvalNoneIff(l);
      EvalNoneIff(r);
    case Cond(c, a, b) =>
      EvalNoneIff(c);
      EvalNoneIff(a);
      EvalNoneIff(b);
  }

  /** Once the accumulated operand has no value, neither has what the loop returns. */
  lemma {:induction false} LoopKeepsException(k: nat, left: Tree, ts: seq<Token>)
    requires 1 <= k < FACTOR && Eval(left).None? && Loop(k, left, ts).Some?
    ensures Eval(Loop(k, left, ts).value.0).None?
    decreases |ts|
  {
    if Continues(k, ts) {
      var (right, rest) := Parse(k + 1, ts[1..]).value;
      var (op, memo) := TokenOp(ts[0]).value;
      LoopKeepsException(k, Bin(op, memo, left, right), rest);
    }
  }
}
