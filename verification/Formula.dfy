/**
 Formulas as a writer thinks of them, and their text with the fewest parentheses.
 A leaf is a number or a reference to a stored point, `<device#id>`.
 */
module Formula {
  import opened Base
  import opened Arith
  import opened Lexer
  import G = Grammar

  datatype Formula =
    | Lit(text: string)
    | Point(device: string, id: nat)
    | Neg(arg: Formula)
    | Not(arg: Formula)
    | Bin(op: G.Op, left: Formula, right: Formula)
    | Cond(cond: Formula, yes: Formula, no: Formula)

  /** The value of every stored point. */
  type Env = (string, nat) -> real

  predicate IsNumeral(t: string) {
    t != "" && (forall i | 0 <= i < |t| :: IsNumberChar(t[i])) && Stod(t).Some?
  }

  /** Numbers are written as digits and dots that std::stod accepts. */
  predicate Literals(f: Formula) {
    match f
    case Lit(t) => IsNumeral(t)
    case Point(_, _) => true
    case Neg(x) => Literals(x)
    case Not(x) => Literals(x)
    case Bin(_, l, r) => Literals(l) && Literals(r)
    case Cond(c, a, b) => Literals(c) && Literals(a) && Literals(b)
  }

  /** No reference to a point. */
  predicate Ground(f: Formula) {
    match f
    case Lit(_) => true
    case Point(_, _) => false
    case Neg(x) => Ground(x)
    case Not(x) => Ground(x)
    case Bin(_, l, r) => Ground(l) && Ground(r)
    case Cond(c, a, b) => Ground(c) && Ground(a) && Ground(b)
  }

  /** Eager value; None when some divisor, in any branch, is zero. */
  function Value(f: Formula, env: Env): Option<real>
    requires Literals(f)
  {
    match f
    case Lit(t) => Stod(t)
    case Point(d, i) => Some(env(d, i))
    case Neg(x) => if Value(x, env).None? then None else Some(-Value(x, env).value)
    case Not(x) => if Value(x, env).None? then None else Some(G.Truth(Value(x, env).value == 0.0))
    case Bin(op, l, r) =>
      if Value(l, env).None? || Value(r, env).None? then None
      else G.Apply(op, Value(l, env).value, Value(r, env).value)
    case Cond(c, a, b) =>
      if Value(c, env).None? || Value(a, env).None? || Value(b, env).None? then None
      else if Value(c, env).value != 0.0 then Value(a, env) else Value(b, env)
  }

  // ---------------------------------------------------------------- printing

  datatype Lexeme = Numeral(text: string) | Mark(text: string) | Ref(device: string, id: nat)

  function OpText(op: G.Op): string {
    match op
    case Or => "||"
    case And => "&&"
    case BitOr => "|"
    case BitAnd => "&"
    case Lt => "<"
    case Le => "<="
    case Gt => ">"
    case Ge => ">="
    case Eq => "=="
    case Ne => "!="
    case Add => "+"
    case Sub => "-"
    case Mul => "*"
    case Div => "/"
  }

  function Level(f: Formula): (k: nat)
    ensures k <= G.FACTOR
  {
    match f
    case Bin(op, _, _) => G.OpLevel(op)
    case Cond(_, _, _) => G.CONDITIONAL
    case _ => G.FACTOR
  }

  /** The lexemes of f where the grammar wants level k: parentheses only around a looser f. */
  function Lexemes(k: nat, f: Formula): seq<Lexeme>
    decreases f, 1
  {
    if Level(f) < k then [Mark("(")] + Bare(f) + [Mark(")")] else Bare(f)
  }

  function Bare(f: Formula): seq<Lexeme>
    decreases f, 0
  {
    match f
    case Lit(t) => [Numeral(t)]
    case Point(d, i) => [Ref(d, i)]
    case Neg(x) => [Mark("-")] + Lexemes(G.FACTOR, x)
    case Not(x) => [Mark("!")] + Lexemes(G.FACTOR, x)
    case Bin(op, l, r) => Lexemes(G.OpLevel(op), l) + [Mark(OpText(op))] + Lexemes(G.OpLevel(op) + 1, r)
    case Cond(c, a, b) => Lexemes(1, c) + [Mark("?")] + Lexemes(0, a) + [Mark(":")] + Lexemes(0, b)
  }

  function Text(x: Lexeme): string {
    match x
    case Numeral(t) => t
    case Mark(t) => t
    case Ref(d, i) => "<" + d + "#" + IntText(i) + ">"
  }

  predicate AllSpaces(s: string) {
    forall i | 0 <= i < |s| :: IsSpace(s[i])
  }

  /** Blanks in front of each lexeme, and after the last one. */
  predicate Layout(xs: seq<Lexeme>, gaps: seq<string>, tail: string) {
    |gaps| == |xs| && (forall i | 0 <= i < |gaps| :: AllSpaces(gaps[i])) && AllSpaces(tail)
  }

  /** The text of lexemes under a layout. */
  function Spell(xs: seq<Lexeme>, gaps: seq<string>, tail: string): string
    requires |gaps| == |xs|
  {
    if xs == [] then tail else gaps[0] + Text(xs[0]) + Spell(xs[1..], gaps[1..], tail)
  }

  // ---------------------------------------------------------------- the derivation a text has

  /** The number read last when the text of f has been read. */
  function LastNumber(f: Formula): real
    requires Literals(f) && Ground(f)
  {
    match f
    case Lit(t) => Stod(t).value
    case Neg(x) => LastNumber(x)
    case Not(x) => LastNumber(x)
    case Bin(_, _, r) => LastNumber(r)
    case Cond(_, _, b) => LastNumber(b)
  }

  function Concrete(k: nat, f: Formula): G.Tree
    requires Literals(f) && Ground(f)
    decreases f, 1
  {
    if Level(f) < k then G.Paren(ConcreteBare(f)) else ConcreteBare(f)
  }

  function ConcreteBare(f: Formula): G.Tree
    requires Literals(f) && Ground(f)
    decreases f, 0
  {
    match f
    case Lit(t) => G.Num(Stod(t).value)
    case Neg(x) => G.Neg(Concrete(G.FACTOR, x))
    case Not(x) => G.Not(Concrete(G.FACTOR, x))
    case Bin(op, l, r) =>
      G.Bin(op, if op == G.Ne then LastNumber(l) else 0.0,
            Concrete(G.OpLevel(op), l), Concrete(G.OpLevel(op) + 1, r))
    case Cond(c, a, b) => G.Cond(Concrete(1, c), Concrete(0, a), Concrete(0, b))
  }

  /** Without its parentheses, the derivation t is the formula f. */
  predicate Denotes(t: G.Tree, f: Formula)
    requires Literals(f)
  {
    match t
    case Paren(x) => Denotes(x, f)
    case Num(v) => f.Lit? && Stod(f.text) == Some(v)
    case Neg(x) => f.Neg? && Denotes(x, f.arg)
    case Not(x) => f.Not? && Denotes(x, f.arg)
    case Bin(op, _, l, r) => f.Bin? && f.op == op && Denotes(l, f.left) && Denotes(r, f.right)
    case Cond(c, a, b) => f.Cond? && Denotes(c, f.cond) && Denotes(a, f.yes) && Denotes(b, f.no)
  }

  /** No pair of parentheses in t could be dropped where level k is wanted. */
  predicate NoSpareParens(k: nat, t: G.Tree)
    decreases t
  {
    match t
    case Num(_) => true
    case Paren(x) => !G.Derivation(k, x) && NoSpareParens(G.CONDITIONAL, x)
    case Neg(x) => NoSpareParens(G.FACTOR, x)
    case Not(x) => NoSpareParens(G.FACTOR, x)
    case Bin(op, _, l, r) => NoSpareParens(G.OpLevel(op), l) && NoSpareParens(G.OpLevel(op) + 1, r)
    case Cond(c, a, b) =>
      NoSpareParens(1, c) && NoSpareParens(G.CONDITIONAL, a) && NoSpareParens(G.CONDITIONAL, b)
  }

  /** The printed form is a derivation from level k with no parentheses to spare. */
  lemma {:induction false} ConcreteDerives(k: nat, f: Formula)
    requires Literals(f) && Ground(f) && k <= G.FACTOR
    ensures G.Derivation(k, Concrete(k, f)) && NoSpareParens(k, Concrete(k, f))
    decreases f, 1
  {
    hide Stod;
    BareDerives(f);
  }

  lemma {:induction false} BareDerives(f: Formula)
    requires Literals(f) && Ground(f)
    ensures G.Derivation(0, ConcreteBare(f)) && NoSpareParens(0, ConcreteBare(f))
    decreases f, 0
  {
    hide Stod;
    match f
    case Lit(_) =>
    case Neg(x) => ConcreteDerives(G.FACTOR, x);
    case Not(x) => ConcreteDerives(G.FACTOR, x);
    case Bin(op, l, r) =>
      ConcreteDerives(G.OpLevel(op), l);
      ConcreteDerives(G.OpLevel(op) + 1, r);
    case Cond(c, a, b) =>
      ConcreteDerives(1, c);
      ConcreteDerives(0, a);
      ConcreteDerives(0, b);
  }

  lemma {:induction false} ConcreteDenotes(k: nat, f: Formula)
    requires Literals(f) && Ground(f)
    ensures Denotes(Concrete(k, f), f)
    decreases f, 1
  {
    BareDenotes(f);
    assert Concrete(k, f) == G.Paren(ConcreteBare(f)) || Concrete(k, f) == ConcreteBare(f);
  }

  lemma {:induction false} BareDenotes(f: Formula)
    requires Literals(f) && Ground(f)
    ensures Denotes(ConcreteBare(f), f)
    decreases f, 0
  {
    hide Stod;
    match f
    case Lit(_) =>
    case Neg(x) => ConcreteDenotes(G.FACTOR, x);
    case Not(x) => ConcreteDenotes(G.FACTOR, x);
    case Bin(op, l, r) =>
      ConcreteDenotes(G.OpLevel(op), l);
      ConcreteDenotes(G.OpLevel(op) + 1, r);
    case Cond(c, a, b) =>
      ConcreteDenotes(1, c);
      ConcreteDenotes(0, a);
      ConcreteDenotes(0, b);
  }

  /** A derivation that denotes f has the value of f. */
  lemma {:induction false} DenotesValue(t: G.Tree, f: Formula, env: Env)
    requires Literals(f) && Denotes(t, f)
    ensures G.Eval(t) == Value(f, env)
    decreases t
  {
    match t
    case Num(_) =>
    case Paren(x) => DenotesValue(x, f, env);
    case Neg(x) => DenotesValue(x, f.arg, env);
    case Not(x) => DenotesValue(x, f.arg, env);
    case Bin(_, _, l, r) =>
      DenotesValue(l, f.left, env);
      DenotesValue(r, f.right, env);
    case Cond(c, a, b) =>
      DenotesValue(c, f.cond, env);
      DenotesValue(a, f.yes, env);
      DenotesValue(b, f.no, env);
  }
}
