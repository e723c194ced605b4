/**
 What a text is worth, in plain arithmetic: each operator between two decimals, and how operators in a
 row are grouped.
 */
module OperatorValues {
  import opened Base
  import opened Arith
  import opened Lexer
  import opened Formula
  import opened Printing
  import opened Template
  import G = Grammar
  import ExpParser

  // ---------------------------------------------------------------- truncation

  /** static_cast<int> drops the fraction, toward zero on both sides. */
  lemma {:induction false} TruncTowardZero(x: real)
    ensures x >= 0.0 ==> 0.0 <= Trunc(x) as real <= x < Trunc(x) as real + 1.0
    ensures x <= 0.0 ==> Trunc(x) as real - 1.0 < x <= Trunc(x) as real <= 0.0
  {
  }

  /** The i-th bit of a number is the parity of what is left after i halvings, rounding down. */
  lemma {:induction false} BitIs(n: int, i: nat)
    ensures Bit(n, i) == n / Pow2(i) % 2
    decreases i
  {
    if i > 0 {
      BitIs(n / 2, i - 1);
      HalvedFirst(n, Pow2(i - 1));
    }
  }

  lemma HalvedFirst(n: int, p: nat)
    requires p > 0
    ensures n / 2 / p == n / (2 * p)
  {
    var q := n / (2 * p);
    var r := n - q * (2 * p);
    assert 0 <= r < 2 * p;
    assert n / 2 == q * p + r / 2;
    assert 0 <= r / 2 < p;
    DivisionIs(n / 2, p, q, r / 2);
  }

  lemma DivisionIs(n: int, p: nat, q: int, r: int)
    requires n == q * p + r && 0 <= r < p
    ensures n / p == q
  {
    var d := n / p - q;
    assert d * p + n % p == r;
    assert d >= 1 ==> d * p >= p;
    assert d <= -1 ==> d * p <= 0 - p;
  }

  // ---------------------------------------------------------------- texts and their trees

  /** The lexemes without any blanks. */
  function Plain(xs: seq<Lexeme>): string {
    if xs == [] then "" else Text(xs[0]) + Plain(xs[1..])
  }

  function NoGaps(xs: seq<Lexeme>): seq<string> {
    seq(|xs|, _ => "")
  }

  lemma {:induction false} PlainSpell(xs: seq<Lexeme>)
    ensures Plain(xs) == Spell(xs, NoGaps(xs), "")
  {
    if xs != [] {
      PlainSpell(xs[1..]);
      assert NoGaps(xs)[1..] == NoGaps(xs[1..]);
      assert "" + Text(xs[0]) == Text(xs[0]);
    }
  }

  /** The lexemes are an operand with the tokens of t, the number read last being `last`. */
  ghost predicate Reads(xs: seq<Lexeme>, t: G.Tree, last: real) {
    && Phrase(xs) && NoRefs(xs)
    && forall rest, v {:trigger Tokenize(xs + rest, v)} ::
         Tokenize(xs + rest, v) == G.Yield(t) + Tokenize(rest, last)
  }

  lemma {:induction false} TextValue(xs: seq<Lexeme>, t: G.Tree, last: real, v: real)
    requires Reads(xs, t, last) && G.Derivation(G.CONDITIONAL, t)
    ensures G.Calculated(Tokens(Plain(xs), v)) == G.Eval(t)
  {
    hide Tokens, Tokenize, Spell, Chain, G.Eval, G.Calculated;
    PlainSpell(xs);
    SpellTokens(xs, NoGaps(xs), "", v);
    assert xs + [] == xs;
    assert Tokenize(xs + [], v) == G.Yield(t) + Tokenize([], last);
    TokenizeNothing(last);
    assert G.Yield(t) + [] == G.Yield(t);
    G.CalculatedDerivation(t);
  }

  /** A signed decimal as the parser sees it. */
  function Leaf(x: Decimal): G.Tree
    requires IsNumeral(x.digits)
  {
    var n := G.Num(Stod(x.digits).value);
    if x.negative then G.Neg(n) else n
  }

  lemma {:induction false} ReadsLeaf(x: Decimal)
    requires IsNumeral(x.digits)
    ensures Reads(DecimalLexemes(x), Leaf(x), Stod(x.digits).value)
  {
    hide Stod, Tokenize;
    var n := Numeral(x.digits);
    PhraseOne(n);
    PhrasePrefix("-", [n]);
    forall rest, v
      ensures Tokenize(DecimalLexemes(x) + rest, v) == G.Yield(Leaf(x)) + Tokenize(rest, Stod(x.digits).value)
    {
      TokenizeNumeral(x.digits, rest, v);
      TokenizeMark("-", [n] + rest, v);
      assert [Mark("-"), n] + rest == [Mark("-")] + ([n] + rest);
    }
  }

  lemma {:induction false} ReadsParen(xs: seq<Lexeme>, t: G.Tree, last: real)
    requires Reads(xs, t, last)
    ensures Reads([Mark("(")] + xs + [Mark(")")], G.Paren(t), last)
  {
    hide Tokenize;
    var ys := [Mark("(")] + xs + [Mark(")")];
    forall rest, v
      ensures Tokenize(ys + rest, v) == G.Yield(G.Paren(t)) + Tokenize(rest, last)
    {
      Assoc4([Mark("(")], xs, [Mark(")")], rest);
      TokenizeMark("(", xs + ([Mark(")")] + rest), v);
      assert Tokenize(xs + ([Mark(")")] + rest), v) == G.Yield(t) + Tokenize([Mark(")")] + rest, last);
      TokenizeMark(")", rest, last);
      Assoc4([Sym('(')], G.Yield(t), [Sym(')')], Tokenize(rest, last));
    }
  }

  lemma {:induction false} ReadsNot(xs: seq<Lexeme>, t: G.Tree, last: real)
    requires Reads(xs, t, last)
    ensures Reads([Mark("!")] + xs, G.Not(t), last)
  {
    hide Tokenize, Phrase;
    PhrasePrefix("!", xs);
    forall rest, v
      ensures Tokenize([Mark("!")] + xs + rest, v) == G.Yield(G.Not(t)) + Tokenize(rest, last)
    {
      Assoc([Mark("!")], xs, rest);
      TokenizeMark("!", xs + rest, v);
      Assoc([Sym('!')], G.Yield(t), Tokenize(rest, last));
    }
  }

  /** Two operands with a mark between them. */
  lemma {:induction false} ReadsJoin(xl: seq<Lexeme>, tl: G.Tree, vl: real, m: string, xr: seq<Lexeme>,
                                     tr: G.Tree, vr: real, rest: seq<Lexeme>, v: real)
    requires Reads(xl, tl, vl) && Reads(xr, tr, vr)
    ensures Tokenize(xl + [Mark(m)] + xr + rest, v)
         == G.Yield(tl) + [TokenOf(MarkKind(m), vl)] + G.Yield(tr) + Tokenize(rest, vr)
  {
    hide Tokenize, MarkKind;
    assert Tokenize(xl + ([Mark(m)] + (xr + rest)), v) == G.Yield(tl) + Tokenize([Mark(m)] + (xr + rest), vl);
    assert Tokenize(xr + rest, vl) == G.Yield(tr) + Tokenize(rest, vr);
    JoinTokens(xl, m, xr, rest, G.Yield(tl), G.Yield(tr), Tokenize(rest, vr), v, vl);
  }

  function Node(op: G.Op, tl: G.Tree, vl: real, tr: G.Tree): G.Tree {
    G.Bin(op, if op == G.Ne then vl else 0.0, tl, tr)
  }

  lemma {:induction false} ReadsBin(xl: seq<Lexeme>, tl: G.Tree, vl: real, op: G.Op, xr: seq<Lexeme>,
                                    tr: G.Tree, vr: real)
    requires Reads(xl, tl, vl) && Reads(xr, tr, vr)
    ensures Reads(xl + [Mark(OpText(op))] + xr, Node(op, tl, vl, tr), vr)
  {
    hide Tokenize, MarkKind, Phrase;
    PhraseJoin(xl, OpText(op), xr);
    OpTextKind(op, vl);
    forall rest, v
      ensures Tokenize(xl + [Mark(OpText(op))] + xr + rest, v)
           == G.Yield(Node(op, tl, vl, tr)) + Tokenize(rest, vr)
    {
      ReadsJoin(xl, tl, vl, OpText(op), xr, tr, vr, rest, v);
    }
  }

  lemma {:induction false} ReadsCond(xc: seq<Lexeme>, tc: G.Tree, vc: real, xa: seq<Lexeme>, ta: G.Tree, va: real,
                                     xb: seq<Lexeme>, tb: G.Tree, vb: real)
    requires Reads(xc, tc, vc) && Reads(xa, ta, va) && Reads(xb, tb, vb)
    ensures Reads(xc + [Mark("?")] + xa + [Mark(":")] + xb, G.Cond(tc, ta, tb), vb)
  {
    hide Tokenize, Phrase;
    PhraseJoin(xc, "?", xa);
    PhraseJoin(xc + [Mark("?")] + xa, ":", xb);
    forall rest, v
      ensures Tokenize(xc + [Mark("?")] + xa + [Mark(":")] + xb + rest, v)
           == G.Yield(G.Cond(tc, ta, tb)) + Tokenize(rest, vb)
    {
      ReadsJoin(xc, tc, vc, "?", xa, ta, va, [Mark(":")] + (xb + rest), v);
      Assoc4(xc + [Mark("?")] + xa, [Mark(":")], xb, rest);
      TokenizeMark(":", xb + rest, va);
      assert Tokenize(xb + rest, va) == G.Yield(tb) + Tokenize(rest, vb);
      Assoc4(G.Yield(tc) + [Sym('?')] + G.Yield(ta), [Sym(':')], G.Yield(tb), Tokenize(rest, vb));
    }
  }

  // ---------------------------------------------------------------- values

  lemma PlainLeaf(x: Decimal)
    ensures Plain(DecimalLexemes(x)) == DecimalText(x)
  {
    var n := [Numeral(x.digits)];
    assert n[1..] == [] && x.digits + "" == x.digits;
    assert Plain(n) == x.digits;
    assert [Mark("-"), n[0]][1..] == n;
  }

  lemma {:induction false} PlainAppend(xs: seq<Lexeme>, ys: seq<Lexeme>)
    ensures Plain(xs + ys) == Plain(xs) + Plain(ys)
  {
    if xs == [] {
      assert xs + ys == ys;
    } else {
      assert (xs + ys)[1..] == xs[1..] + ys;
      PlainAppend(xs[1..], ys);
      Assoc(Text(xs[0]), Plain(xs[1..]), Plain(ys));
    }
  }

  lemma PlainMark(m: string)
    ensures Plain([Mark(m)]) == m
  {
    assert m + "" == m;
  }

  lemma PlainJoin(xl: seq<Lexeme>, m: string, xr: seq<Lexeme>)
    ensures Plain(xl + [Mark(m)] + xr) == Plain(xl) + m + Plain(xr)
  {
    PlainAppend(xl + [Mark(m)], xr);
    PlainAppend(xl, [Mark(m)]);
    PlainMark(m);
  }

  /** What the text is worth; None where calculate returns 0 for an exception. */
  function Worth(text: string, v: real): Option<real> {
    G.Calculated(Tokens(text, v))
  }

  lemma LeafValue(x: Decimal)
    requires IsNumeral(x.digits)
    ensures G.Eval(Leaf(x)) == Some(DecimalValue(x))
  {
    hide Stod;
  }

  lemma {:induction false} BinaryWorth(a: Decimal, op: G.Op, b: Decimal, v: real)
    requires IsNumeral(a.digits) && IsNumeral(b.digits)
    ensures Worth(DecimalText(a) + OpText(op) + DecimalText(b), v) == G.Apply(op, DecimalValue(a), DecimalValue(b))
  {
    hide Stod, Tokens, Plain, G.Calculated, G.Apply, Reads;
    var xa, xb := DecimalLexemes(a), DecimalLexemes(b);
    var va, vb := Stod(a.digits).value, Stod(b.digits).value;
    Operand(a);
    Operand(b);
    LeafValue(a);
    LeafValue(b);
    ReadsBin(xa, Leaf(a), va, op, xb, Leaf(b), vb);
    PlainJoin(xa, OpText(op), xb);
    TextValue(xa + [Mark(OpText(op))] + xb, Node(op, Leaf(a), va, Leaf(b)), vb, v);
  }

  /** The fourteen operators between the texts s and t of signed decimals of the values x and y. */
  lemma {:induction false} OperatorWorth(a: Decimal, s: string, x: real, b: Decimal, t: string, y: real, v: real)
    requires IsNumeral(a.digits) && s == DecimalText(a) && x == DecimalValue(a)
    requires IsNumeral(b.digits) && t == DecimalText(b) && y == DecimalValue(b)
    ensures Worth(s + "+" + t, v) == Some(x + y)
    ensures Worth(s + "-" + t, v) == Some(x - y)
    ensures Worth(s + "*" + t, v) == Some(x * y)
    ensures Worth(s + "/" + t, v) == if y == 0.0 then None else Some(x / y)
    ensures Worth(s + "<" + t, v) == Some(if x < y then 1.0 else 0.0)
    ensures Worth(s + "<=" + t, v) == Some(if x <= y then 1.0 else 0.0)
    ensures Worth(s + ">" + t, v) == Some(if x > y then 1.0 else 0.0)
    ensures Worth(s + ">=" + t, v) == Some(if x >= y then 1.0 else 0.0)
    ensures Worth(s + "==" + t, v) == Some(if x == y then 1.0 else 0.0)
    ensures Worth(s + "!=" + t, v) == Some(if x == y then 0.0 else 1.0)
    ensures Worth(s + "&&" + t, v) == Some(if x == 0.0 || y == 0.0 then 0.0 else 1.0)
    ensures Worth(s + "||" + t, v) == Some(if x == 0.0 && y == 0.0 then 0.0 else 1.0)
    ensures Worth(s + "&" + t, v) == Some(BitAnd(Trunc(x), Trunc(y)) as real)
    ensures Worth(s + "|" + t, v) == Some(BitOr(Trunc(x), Trunc(y)) as real)
  {
    hide Worth, Stod, DecimalText, DecimalValue, BitAnd, BitOr, Trunc;
    forall op
      ensures Worth(s + OpText(op) + t, v) == G.Apply(op, x, y)
    {
      BinaryWorth(a, op, b, v);
    }
    ExpParser.ApplyTerm(x, y);
    assert OpText(G.Add) == "+" && OpText(G.Sub) == "-" && OpText(G.Mul) == "*" && OpText(G.Div) == "/";
    assert OpText(G.Lt) == "<" && OpText(G.Le) == "<=" && OpText(G.Gt) == ">" && OpText(G.Ge) == ">=";
    assert OpText(G.Eq) == "==" && OpText(G.Ne) == "!=" && OpText(G.And) == "&&" && OpText(G.Or) == "||";
    assert OpText(G.BitAnd) == "&" && OpText(G.BitOr) == "|";
  }

  /** A decimal by itself, its negation as a truth value, and a choice between two. */
  lemma {:induction false} OperandWorth(a: Decimal, b: Decimal, c: Decimal, v: real)
    requires IsNumeral(a.digits) && IsNumeral(b.digits) && IsNumeral(c.digits)
    ensures
      && var x := DecimalValue(a);
      && Worth(DecimalText(a), v) == Some(x)
      && Worth("!" + DecimalText(a), v) == Some(if x == 0.0 then 1.0 else 0.0)
      && Worth("(" + DecimalText(a) + ")", v) == Some(x)
      && Worth(DecimalText(a) + "?" + DecimalText(b) + ":" + DecimalText(c), v)
         == Some(if x != 0.0 then DecimalValue(b) else DecimalValue(c))
  {
    hide Stod, Tokens, Plain, G.Calculated, Reads;
      var (xa, xb, xc) := (DecimalLexemes(a), DecimalLexemes(b), DecimalLexemes(c));
    var (va, vb, vc) := (Stod(a.digits).value, Stod(b.digits).value, Stod(c.digits).value);
    Operand(a);
    Operand(b);
    Operand(c);
    TextValue(xa, Leaf(a), va, v);
    ReadsNot(xa, Leaf(a), va);
    LeafValue(a);
    LeafValue(b);
    LeafValue(c);
    PlainAppend([Mark("!")], xa);
    PlainMark("!");
    TextValue([Mark("!")] + xa, G.Not(Leaf(a)), va, v);
    ReadsParen(xa, Leaf(a), va);
    PlainParen(xa);
    TextValue([Mark("(")] + xa + [Mark(")")], G.Paren(Leaf(a)), va, v);
    ReadsCond(xa, Leaf(a), va, xb, Leaf(b), vb, xc, Leaf(c), vc);
    PlainJoin(xa, "?", xb);
    PlainJoin(xa + [Mark("?")] + xb, ":", xc);
    TextValue(xa + [Mark("?")] + xb + [Mark(":")] + xc, G.Cond(Leaf(a), Leaf(b), Leaf(c)), vc, v);
  }

  lemma PlainParen(xs: seq<Lexeme>)
    ensures Plain([Mark("(")] + xs + [Mark(")")]) == "(" + Plain(xs) + ")"
  {
    PlainAppend([Mark("(")] + xs, [Mark(")")]);
    PlainAppend([Mark("(")], xs);
    PlainMark("(");
    PlainMark(")");
  }

  // ---------------------------------------------------------------- grouping

  /** The operators from the loosest to the tightest. */
  const PRECEDENCE: seq<seq<string>> :=
    [["||"], ["&&"], ["|"], ["&"], ["<", "<=", ">", ">=", "==", "!="], ["+", "-"], ["*", "/"]]

  lemma PrecedenceOp(i: nat, m: string) returns (op: G.Op)
    requires i < |PRECEDENCE| && m in PRECEDENCE[i]
    ensures OpText(op) == m && G.OpLevel(op) == i + 1
  {
    op := if i == 0 then G.Or else if i == 1 then G.And else if i == 2 then G.BitOr else if i == 3 then G.BitAnd
    else if i == 4 then
      (if m == "<" then G.Lt else if m == "<=" then G.Le else if m == ">" then G.Gt else if m == ">=" then G.Ge
       else if m == "==" then G.Eq else G.Ne)
    else if i == 5 then (if m == "+" then G.Add else G.Sub)
    else if m == "*" then G.Mul else G.Div;
  }

  /** Two operators in a row: the tighter one first, and the left one of two that are equally tight. */
  lemma {:induction false} Grouping(a: Decimal, i: nat, m: string, b: Decimal, j: nat, n: string, c: Decimal, v: real)
    requires IsNumeral(a.digits) && IsNumeral(b.digits) && IsNumeral(c.digits)
    requires i < |PRECEDENCE| && m in PRECEDENCE[i] && j < |PRECEDENCE| && n in PRECEDENCE[j]
    ensures
      && var (s, t, u) := (DecimalText(a), DecimalText(b), DecimalText(c));
      Worth(s + m + t + n + u, v)
      == if i >= j then Worth("(" + (s + m + t) + ")" + n + u, v) else Worth(s + m + ("(" + (t + n + u) + ")"), v)
  {
    hide Stod, Tokens, Plain, G.Calculated, Reads, G.Apply, OpText;
    var p := PrecedenceOp(i, m);
    var q := PrecedenceOp(j, n);
    var (xa, xb, xc) := (DecimalLexemes(a), DecimalLexemes(b), DecimalLexemes(c));
    var (va, vb, vc) := (Stod(a.digits).value, Stod(b.digits).value, Stod(c.digits).value);
    Operand(a);
    Operand(b);
    Operand(c);
    if i >= j {
      var xs, t := xa + [Mark(m)] + xb, Node(p, Leaf(a), va, Leaf(b));
      ReadsBin(xa, Leaf(a), va, p, xb, Leaf(b), vb);
      PlainJoin(xa, m, xb);
      GroupedLeft(xs, t, vb, q, xc, Leaf(c), vc, v);
    } else {
      var xs, t := xb + [Mark(n)] + xc, Node(q, Leaf(b), vb, Leaf(c));
      ReadsBin(xb, Leaf(b), vb, q, xc, Leaf(c), vc);
      PlainJoin(xb, n, xc);
      GroupedRight(xa, Leaf(a), va, p, xs, t, vc, v);
      FlatText(DecimalText(a), m, DecimalText(b), n, DecimalText(c));
    }
  }

  lemma FlatText(s: string, m: string, t: string, n: string, u: string)
    ensures s + m + t + n + u == s + m + (t + n + u)
  {
    Assoc(s + m, t, n + u);
    Assoc(s + m + t, n, u);
    Assoc(t, n, u);
  }

  /** Parentheses around a left operand that needs none. */
  lemma {:induction false} GroupedLeft(xl: seq<Lexeme>, tl: G.Tree, vl: real, op: G.Op, xr: seq<Lexeme>,
                                       tr: G.Tree, vr: real, v: real)
    requires Reads(xl, tl, vl) && Reads(xr, tr, vr)
    requires G.Derivation(G.OpLevel(op), tl) && G.Derivation(G.OpLevel(op) + 1, tr)
    ensures Worth(Plain(xl) + OpText(op) + Plain(xr), v) == Worth("(" + Plain(xl) + ")" + OpText(op) + Plain(xr), v)
  {
    hide Tokens, Plain, G.Calculated, Reads, G.Apply, OpText;
    DerivedAtTop(G.OpLevel(op), tl);
    var xp := [Mark("(")] + xl + [Mark(")")];
    ReadsParen(xl, tl, vl);
    PlainParen(xl);
    ReadsBin(xl, tl, vl, op, xr, tr, vr);
    ReadsBin(xp, G.Paren(tl), vl, op, xr, tr, vr);
    PlainJoin(xl, OpText(op), xr);
    PlainJoin(xp, OpText(op), xr);
    TextValue(xl + [Mark(OpText(op))] + xr, Node(op, tl, vl, tr), vr, v);
    TextValue(xp + [Mark(OpText(op))] + xr, Node(op, G.Paren(tl), vl, tr), vr, v);
  }

  /** Not binds tighter than every operator; a minus does too, as OperatorWorth says of negative decimals. */
  lemma {:induction false} NotGrouping(a: Decimal, i: nat, m: string, b: Decimal, v: real)
    requires IsNumeral(a.digits) && IsNumeral(b.digits) && i < |PRECEDENCE| && m in PRECEDENCE[i]
    ensures
      && var (s, t) := (DecimalText(a), DecimalText(b));
      Worth("!" + s + m + t, v) == Worth("(" + ("!" + s) + ")" + m + t, v)
  {
    hide Stod, Tokens, Plain, G.Calculated, Reads, G.Apply, OpText;
    var op := PrecedenceOp(i, m);
    var (xa, xb) := (DecimalLexemes(a), DecimalLexemes(b));
    Operand(a);
    Operand(b);
    ReadsNot(xa, Leaf(a), Stod(a.digits).value);
    PlainAppend([Mark("!")], xa);
    PlainMark("!");
    GroupedLeft([Mark("!")] + xa, G.Not(Leaf(a)), Stod(a.digits).value, op, xb, Leaf(b), Stod(b.digits).value, v);
  }

  lemma {:induction false} GroupedRight(xl: seq<Lexeme>, tl: G.Tree, vl: real, op: G.Op, xr: seq<Lexeme>,
                                        tr: G.Tree, vr: real, v: real)
    requires Reads(xl, tl, vl) && Reads(xr, tr, vr)
    requires G.Derivation(G.OpLevel(op), tl) && G.Derivation(G.OpLevel(op) + 1, tr)
    ensures Worth(Plain(xl) + OpText(op) + Plain(xr), v) == Worth(Plain(xl) + OpText(op) + ("(" + Plain(xr) + ")"), v)
  {
    hide Tokens, Plain, G.Calculated, Reads, G.Apply, OpText;
    DerivedAtTop(G.OpLevel(op) + 1, tr);
    var xp := [Mark("(")] + xr + [Mark(")")];
    ReadsParen(xr, tr, vr);
    PlainParen(xr);
    ReadsBin(xl, tl, vl, op, xr, tr, vr);
    ReadsBin(xl, tl, vl, op, xp, G.Paren(tr), vr);
    PlainJoin(xl, OpText(op), xr);
    PlainJoin(xl, OpText(op), xp);
    TextValue(xl + [Mark(OpText(op))] + xr, Node(op, tl, vl, tr), vr, v);
    TextValue(xl + [Mark(OpText(op))] + xp, Node(op, tl, vl, G.Paren(tr)), vr, v);
  }

  lemma {:induction false} DerivedAtTop(k: nat, t: G.Tree)
    requires G.Derivation(k, t)
    ensures G.Derivation(G.CONDITIONAL, t)
  {
  }

  /** The conditional is looser than every operator on all three places, and nests to the right. */
  lemma {:induction false} ConditionalGrouping(a: Decimal, i: nat, m: string, b: Decimal, c: Decimal, d: Decimal,
                                               e: Decimal, v: real)
    requires IsNumeral(a.digits) && IsNumeral(b.digits) && IsNumeral(c.digits) && IsNumeral(d.digits)
    requires IsNumeral(e.digits) && i < |PRECEDENCE| && m in PRECEDENCE[i]
    ensures
      && var (s, t, u, w, z) := (DecimalText(a), DecimalText(b), DecimalText(c), DecimalText(d), DecimalText(e));
      && Worth(s + m + t + "?" + u + ":" + w, v) == Worth("(" + (s + m + t) + ")" + "?" + u + ":" + w, v)
      && Worth(s + "?" + t + ":" + (u + m + w), v) == Worth(s + "?" + t + ":" + ("(" + (u + m + w) + ")"), v)
      && Worth(s + "?" + t + ":" + (u + "?" + w + ":" + z), v)
         == Worth(s + "?" + t + ":" + ("(" + (u + "?" + w + ":" + z) + ")"), v)
  {
    hide Stod, Tokens, Plain, G.Calculated, Reads, G.Apply, OpText;
    var op := PrecedenceOp(i, m);
    var (xa, xb, xc, xd, xe) :=
      (DecimalLexemes(a), DecimalLexemes(b), DecimalLexemes(c), DecimalLexemes(d), DecimalLexemes(e));
    var (va, vb, vc, vd, ve) := (Stod(a.digits).value, Stod(b.digits).value, Stod(c.digits).value,
                                 Stod(d.digits).value, Stod(e.digits).value);
    Operand(a);
    Operand(b);
    Operand(c);
    Operand(d);
    Operand(e);
    ReadsBin(xa, Leaf(a), va, op, xb, Leaf(b), vb);
    PlainJoin(xa, m, xb);
    GroupedCond(xa + [Mark(m)] + xb, Node(op, Leaf(a), va, Leaf(b)), vb, xc, Leaf(c), vc, xd, Leaf(d), vd, v);
    ReadsBin(xc, Leaf(c), vc, op, xd, Leaf(d), vd);
    PlainJoin(xc, m, xd);
    GroupedElse(xa, Leaf(a), va, xb, Leaf(b), vb, xc + [Mark(m)] + xd, Node(op, Leaf(c), vc, Leaf(d)), vd, v);
    ReadsCond(xc, Leaf(c), vc, xd, Leaf(d), vd, xe, Leaf(e), ve);
    PlainJoin(xc, "?", xd);
    PlainJoin(xc + [Mark("?")] + xd, ":", xe);
    GroupedElse(xa, Leaf(a), va, xb, Leaf(b), vb, xc + [Mark("?")] + xd + [Mark(":")] + xe,
                G.Cond(Leaf(c), Leaf(d), Leaf(e)), ve, v);
  }

  lemma Operand(x: Decimal)
    requires IsNumeral(x.digits)
    ensures Reads(DecimalLexemes(x), Leaf(x), Stod(x.digits).value) && Plain(DecimalLexemes(x)) == DecimalText(x)
    ensures forall k: nat | k <= G.FACTOR :: G.Derivation(k, Leaf(x))
  {
    ReadsLeaf(x);
    PlainLeaf(x);
  }

  lemma {:induction false} GroupedCond(xc: seq<Lexeme>, tc: G.Tree, vc: real, xa: seq<Lexeme>, ta: G.Tree, va: real,
                                       xb: seq<Lexeme>, tb: G.Tree, vb: real, v: real)
    requires Reads(xc, tc, vc) && Reads(xa, ta, va) && Reads(xb, tb, vb)
    requires G.Derivation(1, tc) && G.Derivation(0, ta) && G.Derivation(0, tb)
    ensures Worth(Plain(xc) + "?" + Plain(xa) + ":" + Plain(xb), v)
         == Worth("(" + Plain(xc) + ")" + "?" + Plain(xa) + ":" + Plain(xb), v)
  {
    hide Tokens, Plain, G.Calculated, Reads;
    DerivedAtTop(1, tc);
    var xp := [Mark("(")] + xc + [Mark(")")];
    ReadsParen(xc, tc, vc);
    PlainParen(xc);
    CondText(xc, xa, xb);
    CondText(xp, xa, xb);
    ReadsCond(xc, tc, vc, xa, ta, va, xb, tb, vb);
    ReadsCond(xp, G.Paren(tc), vc, xa, ta, va, xb, tb, vb);
    TextValue(xc + [Mark("?")] + xa + [Mark(":")] + xb, G.Cond(tc, ta, tb), vb, v);
    TextValue(xp + [Mark("?")] + xa + [Mark(":")] + xb, G.Cond(G.Paren(tc), ta, tb), vb, v);
  }

  lemma {:induction false} GroupedElse(xc: seq<Lexeme>, tc: G.Tree, vc: real, xa: seq<Lexeme>, ta: G.Tree, va: real,
                                       xb: seq<Lexeme>, tb: G.Tree, vb: real, v: real)
    requires Reads(xc, tc, vc) && Reads(xa, ta, va) && Reads(xb, tb, vb)
    requires G.Derivation(1, tc) && G.Derivation(0, ta) && G.Derivation(0, tb)
    ensures Worth(Plain(xc) + "?" + Plain(xa) + ":" + Plain(xb), v)
         == Worth(Plain(xc) + "?" + Plain(xa) + ":" + ("(" + Plain(xb) + ")"), v)
  {
    hide Tokens, Plain, G.Calculated, Reads;
    var xp := [Mark("(")] + xb + [Mark(")")];
    ReadsParen(xb, tb, vb);
    PlainParen(xb);
    CondText(xc, xa, xb);
    CondText(xc, xa, xp);
    ReadsCond(xc, tc, vc, xa, ta, va, xb, tb, vb);
    ReadsCond(xc, tc, vc, xa, ta, va, xp, G.Paren(tb), vb);
    TextValue(xc + [Mark("?")] + xa + [Mark(":")] + xb, G.Cond(tc, ta, tb), vb, v);
    TextValue(xc + [Mark("?")] + xa + [Mark(":")] + xp, G.Cond(tc, ta, G.Paren(tb)), vb, v);
  }

  lemma CondText(xc: seq<Lexeme>, xa: seq<Lexeme>, xb: seq<Lexeme>)
    ensures Plain(xc + [Mark("?")] + xa + [Mark(":")] + xb) == Plain(xc) + "?" + Plain(xa) + ":" + Plain(xb)
  {
    PlainJoin(xc, "?", xa);
    PlainJoin(xc + [Mark("?")] + xa, ":", xb);
  }
}
