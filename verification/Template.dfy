/**
 Substitute, then parse: replacing every `<device#id>` of a printed formula by
 the decimal text of the point, possibly negative, and then reading the result
 gives the value of the formula in the environment of those texts.
 */
module Template {
  import opened Base
  import opened Arith
  import opened Lexer
  import opened Formula
  import opened Printing
  import opened ReplaceRange
  import opened Substitution
  import G = Grammar

  /** The decimal text of a stored value. */
  datatype Decimal = Decimal(negative: bool, digits: string)

  type Decimals = (string, nat) -> Decimal

  function DecimalText(x: Decimal): string {
    if x.negative then "-" + x.digits else x.digits
  }

  function DecimalValue(x: Decimal): real
    requires IsNumeral(x.digits)
  {
    if x.negative then -Stod(x.digits).value else Stod(x.digits).value
  }

  /** Every text is a number std::stod can read back. */
  ghost predicate Readable(texts: Decimals) {
    forall d, i :: IsNumeral(texts(d, i).digits)
  }

  /** The environment the texts stand for. */
  ghost function EnvOf(texts: Decimals): Env
    requires Readable(texts)
  {
    (d: string, i: nat) => if IsNumeral(texts(d, i).digits) then DecimalValue(texts(d, i)) else 0.0
  }

  /** Numerals, and device names without the characters the notation itself uses. */
  predicate Usable(f: Formula) {
    match f
    case Lit(t) => IsNumeral(t)
    case Point(d, i) => d != "" && '#' !in d && '<' !in d && '>' !in d && i < INT_LIMIT
    case Neg(x) => Usable(x)
    case Not(x) => Usable(x)
    case Bin(_, l, r) => Usable(l) && Usable(r)
    case Cond(c, a, b) => Usable(c) && Usable(a) && Usable(b)
  }

  /** f with every point replaced by its text, read as a literal. */
  function Bind(f: Formula, texts: Decimals): Formula {
    match f
    case Lit(_) => f
    case Point(d, i) =>
      if texts(d, i).negative then Neg(Lit(texts(d, i).digits)) else Lit(texts(d, i).digits)
    case Neg(x) => Neg(Bind(x, texts))
    case Not(x) => Not(Bind(x, texts))
    case Bin(op, l, r) => Bin(op, Bind(l, texts), Bind(r, texts))
    case Cond(c, a, b) => Cond(Bind(c, texts), Bind(a, texts), Bind(b, texts))
  }

  lemma {:induction false} BindGround(f: Formula, texts: Decimals)
    requires Usable(f) && Readable(texts)
    ensures Literals(f) && Literals(Bind(f, texts)) && Ground(Bind(f, texts))
  {
    hide Stod;
    match f
    case Lit(_) =>
    case Point(_, _) =>
    case Neg(x) => BindGround(x, texts);
    case Not(x) => BindGround(x, texts);
    case Bin(_, l, r) =>
      BindGround(l, texts);
      BindGround(r, texts);
    case Cond(c, a, b) =>
      BindGround(c, texts);
      BindGround(a, texts);
      BindGround(b, texts);
  }

  lemma {:induction false} BindValue(f: Formula, texts: Decimals, env: Env)
    requires Usable(f) && Readable(texts) && Literals(f) && Literals(Bind(f, texts))
    ensures Value(Bind(f, texts), env) == Value(f, EnvOf(texts))
  {
    hide Stod;
    match f
    case Lit(_) =>
    case Point(_, _) =>
    case Neg(x) => BindValue(x, texts, env);
    case Not(x) => BindValue(x, texts, env);
    case Bin(_, l, r) =>
      BindValue(l, texts, env);
      BindValue(r, texts, env);
    case Cond(c, a, b) =>
      BindValue(c, texts, env);
      BindValue(a, texts, env);
      BindValue(b, texts, env);
  }

  // ---------------------------------------------------------------- lexemes

  function DecimalLexemes(x: Decimal): seq<Lexeme> {
    if x.negative then [Mark("-"), Numeral(x.digits)] else [Numeral(x.digits)]
  }

  function BindLexeme(x: Lexeme, texts: Decimals): seq<Lexeme> {
    if x.Ref? then DecimalLexemes(texts(x.device, x.id)) else [x]
  }

  function BindLexemes(xs: seq<Lexeme>, texts: Decimals): seq<Lexeme> {
    if xs == [] then [] else BindLexeme(xs[0], texts) + BindLexemes(xs[1..], texts)
  }

  /** The sign of a substituted value follows the blanks; its digits follow the sign. */
  function BindGaps(xs: seq<Lexeme>, gaps: seq<string>, texts: Decimals): (r: seq<string>)
    requires |gaps| == |xs|
    ensures |r| == |BindLexemes(xs, texts)|
  {
    if xs == [] then []
    else (if |BindLexeme(xs[0], texts)| == 2 then [gaps[0], ""] else [gaps[0]]) + BindGaps(xs[1..], gaps[1..], texts)
  }

  lemma {:induction false} BindConcat(xs: seq<Lexeme>, ys: seq<Lexeme>, texts: Decimals)
    ensures BindLexemes(xs + ys, texts) == BindLexemes(xs, texts) + BindLexemes(ys, texts)
  {
    if xs == [] {
      assert xs + ys == ys;
    } else {
      assert (xs + ys)[1..] == xs[1..] + ys;
      BindConcat(xs[1..], ys, texts);
    }
  }

  lemma BindOne(x: Lexeme, texts: Decimals)
    ensures BindLexemes([x], texts) == BindLexeme(x, texts)
  {
  }

  lemma {:induction false} BindJoin(l: seq<Lexeme>, m: string, r: seq<Lexeme>, texts: Decimals)
    ensures BindLexemes(l + [Mark(m)] + r, texts) == BindLexemes(l, texts) + [Mark(m)] + BindLexemes(r, texts)
  {
    BindConcat(l + [Mark(m)], r, texts);
    BindConcat(l, [Mark(m)], texts);
    BindOne(Mark(m), texts);
  }

  /** Binding before printing and binding the printed lexemes are the same. */
  lemma {:induction false} LexemesBind(k: nat, f: Formula, texts: Decimals)
    requires k <= G.FACTOR
    ensures BindLexemes(Lexemes(k, f), texts) == Lexemes(k, Bind(f, texts))
    decreases f, 1
  {
    hide BindLexemes;
    BareBind(f, texts);
    assert Level(Bind(f, texts)) == Level(f);
    if Level(f) < k {
      BindConcat([Mark("(")] + Bare(f), [Mark(")")], texts);
      BindConcat([Mark("(")], Bare(f), texts);
      BindOne(Mark("("), texts);
      BindOne(Mark(")"), texts);
    }
  }

  lemma {:induction false} BareBind(f: Formula, texts: Decimals)
    ensures BindLexemes(Bare(f), texts) == Bare(Bind(f, texts))
    decreases f, 0
  {
    hide BindLexemes, Lexemes;
    match f
    case Lit(t) => BindOne(Numeral(t), texts);
    case Point(d, i) =>
      BindOne(Ref(d, i), texts);
      FactorLexemes(texts(d, i).digits);
    case Neg(x) =>
      LexemesBind(G.FACTOR, x, texts);
      BindConcat([Mark("-")], Lexemes(G.FACTOR, x), texts);
      BindOne(Mark("-"), texts);
    case Not(x) =>
      LexemesBind(G.FACTOR, x, texts);
      BindConcat([Mark("!")], Lexemes(G.FACTOR, x), texts);
      BindOne(Mark("!"), texts);
    case Bin(op, l, r) =>
      LexemesBind(G.OpLevel(op), l, texts);
      LexemesBind(G.OpLevel(op) + 1, r, texts);
      BindJoin(Lexemes(G.OpLevel(op), l), OpText(op), Lexemes(G.OpLevel(op) + 1, r), texts);
    case Cond(c, a, b) =>
      LexemesBind(1, c, texts);
      LexemesBind(0, a, texts);
      LexemesBind(0, b, texts);
      BindJoin(Lexemes(1, c), "?", Lexemes(0, a), texts);
      BindJoin(Lexemes(1, c) + [Mark("?")] + Lexemes(0, a), ":", Lexemes(0, b), texts);
  }

  lemma FactorLexemes(t: string)
    ensures Lexemes(G.FACTOR, Lit(t)) == [Numeral(t)]
  {
  }

  lemma {:induction false} BindLayout(xs: seq<Lexeme>, gaps: seq<string>, tail: string, texts: Decimals)
    requires Layout(xs, gaps, tail)
    ensures Layout(BindLexemes(xs, texts), BindGaps(xs, gaps, texts), tail)
  {
    if xs != [] {
      BindLayout(xs[1..], gaps[1..], tail, texts);
      assert AllSpaces(gaps[0]) && AllSpaces("");
    }
  }

  // ---------------------------------------------------------------- text

  /** The texts as they stand in the formula. */
  function Written(texts: Decimals): Texts {
    (d: string, i: nat) => DecimalText(texts(d, i))
  }

  lemma SpellHead(x: Lexeme, xs: seq<Lexeme>, gap: string, gaps: seq<string>, tail: string)
    requires |gaps| == |xs|
    ensures Spell([x] + xs, [gap] + gaps, tail) == gap + Text(x) + Spell(xs, gaps, tail)
  {
    Tail(x, xs);
    Tail(gap, gaps);
  }

  lemma SpellOne(a: string)
    ensures Spell([Numeral(a)], [""], "") == a
  {
    SpellHead(Numeral(a), [], "", [], "");
    assert [Numeral(a)] + [] == [Numeral(a)] && [""] + [] == [""];
  }

  lemma SpellTwo(m: string, y: Lexeme)
    ensures Spell([Mark(m), y], ["", ""], "") == m + Text(y)
  {
    hide IntText;
    SpellHead(y, [], "", [], "");
    SpellHead(Mark(m), [y], "", [""], "");
    assert [y] + [] == [y] && [""] + [] == [""];
    assert [Mark(m), y] == [Mark(m)] + [y] && ["", ""] == [""] + [""];
  }

  /** Two operands and an operator without blanks. */
  lemma SpellThree(x: Lexeme, m: string, y: Lexeme)
    ensures Spell([x, Mark(m), y], ["", "", ""], "") == Text(x) + m + Text(y)
  {
    hide IntText;
    SpellTwo(m, y);
    SpellHead(x, [Mark(m), y], "", ["", ""], "");
    assert [x, Mark(m), y] == [x] + [Mark(m), y] && ["", "", ""] == [""] + ["", ""];
    Assoc(Text(x), m, Text(y));
  }

  /** The text with the values in place is the text of the bound lexemes. */
  lemma {:induction false} FillDecimals(xs: seq<Lexeme>, gaps: seq<string>, tail: string, texts: Decimals)
    requires |gaps| == |xs|
    ensures FillText(xs, gaps, tail, Written(texts)) == Spell(BindLexemes(xs, texts), BindGaps(xs, gaps, texts), tail)
  {
    hide IntText;
    if xs != [] {
      var x, gap := xs[0], gaps[0];
      var bound, boundGaps := BindLexemes(xs[1..], texts), BindGaps(xs[1..], gaps[1..], texts);
      FillDecimals(xs[1..], gaps[1..], tail, texts);
      if x.Ref? {
      } else {
        SpellHead(x, bound, gap, boundGaps, tail);
      }
    }
  }

  // ---------------------------------------------------------------- what a printed template is made of

  lemma CleanPrefix(m: string, xs: seq<Lexeme>)
    requires AllClean(xs) && m in MARKS
    ensures AllClean([Mark(m)] + xs)
  {
    hide Stod;
  }

  lemma CleanJoin(l: seq<Lexeme>, m: string, r: seq<Lexeme>)
    requires AllClean(l) && AllClean(r) && m in MARKS
    ensures AllClean(l + [Mark(m)] + r)
  {
    hide Stod;
  }

  lemma CleanParen(xs: seq<Lexeme>)
    requires AllClean(xs)
    ensures AllClean([Mark("(")] + xs + [Mark(")")])
  {
    hide Stod;
  }

  lemma {:induction false} UsableClean(k: nat, f: Formula)
    requires Usable(f)
    ensures AllClean(Lexemes(k, f))
    decreases f, 1
  {
    hide Stod, Usable, AllClean;
    BareClean(f);
    CleanParen(Bare(f));
  }

  lemma {:induction false} BareClean(f: Formula)
    requires Usable(f)
    ensures AllClean(Bare(f))
    decreases f, 0
  {
    hide Stod, Lexemes, AllClean;
    match f
    case Lit(t) => CleanOne(f);
    case Point(d, i) => CleanOne(f);
    case Neg(x) =>
      UsableClean(G.FACTOR, x);
      CleanPrefix("-", Lexemes(G.FACTOR, x));
    case Not(x) =>
      UsableClean(G.FACTOR, x);
      CleanPrefix("!", Lexemes(G.FACTOR, x));
    case Bin(op, l, r) =>
      UsableClean(G.OpLevel(op), l);
      UsableClean(G.OpLevel(op) + 1, r);
      CleanJoin(Lexemes(G.OpLevel(op), l), OpText(op), Lexemes(G.OpLevel(op) + 1, r));
    case Cond(c, a, b) =>
      UsableClean(1, c);
      UsableClean(0, a);
      UsableClean(0, b);
      CleanJoin(Lexemes(1, c), "?", Lexemes(0, a));
      CleanJoin(Lexemes(1, c) + [Mark("?")] + Lexemes(0, a), ":", Lexemes(0, b));
  }

  lemma CleanOne(f: Formula)
    requires Usable(f) && (f.Lit? || f.Point?)
    ensures AllClean(Bare(f))
  {
    hide Stod;
  }

  /** No `<` or `<=`. */
  predicate NoLess(f: Formula) {
    match f
    case Lit(_) => true
    case Point(_, _) => true
    case Neg(x) => NoLess(x)
    case Not(x) => NoLess(x)
    case Bin(op, l, r) => op != G.Lt && op != G.Le && NoLess(l) && NoLess(r)
    case Cond(c, a, b) => NoLess(c) && NoLess(a) && NoLess(b)
  }

  predicate NoOpener(xs: seq<Lexeme>) {
    forall i | 0 <= i < |xs| :: !Opener(xs[i])
  }

  lemma {:induction false} NoOpenerSeparable(xs: seq<Lexeme>)
    requires NoOpener(xs)
    ensures Separable(xs)
  {
    if xs != [] {
      NoOpenerSeparable(xs[1..]);
    }
  }

  /** Without `<` and `<=` every template is separable. */
  lemma {:induction false} NoLessSeparable(f: Formula)
    requires NoLess(f)
    ensures Separable(Lexemes(0, f))
  {
    LexemesNoOpener(0, f);
    NoOpenerSeparable(Lexemes(0, f));
  }

  lemma {:induction false} LexemesNoOpener(k: nat, f: Formula)
    requires NoLess(f)
    ensures NoOpener(Lexemes(k, f))
    decreases f, 1
  {
    BareNoOpener(f);
  }

  lemma {:induction false} BareNoOpener(f: Formula)
    requires NoLess(f)
    ensures NoOpener(Bare(f))
    decreases f, 0
  {
    hide Lexemes;
    match f
    case Lit(_) =>
    case Point(_, _) =>
    case Neg(x) => LexemesNoOpener(G.FACTOR, x);
    case Not(x) => LexemesNoOpener(G.FACTOR, x);
    case Bin(op, l, r) =>
      LexemesNoOpener(G.OpLevel(op), l);
      LexemesNoOpener(G.OpLevel(op) + 1, r);
    case Cond(c, a, b) =>
      LexemesNoOpener(1, c);
      LexemesNoOpener(0, a);
      LexemesNoOpener(0, b);
  }

  // ---------------------------------------------------------------- the callback on a template

  /** The callback resolves every point of f. */
  ghost predicate ResolvesPoints(g: Callback, f: Formula, texts: Texts) {
    match f
    case Lit(_) => true
    case Point(d, i) => g(RefText(d, i)) == Some(texts(d, i))
    case Neg(x) => ResolvesPoints(g, x, texts)
    case Not(x) => ResolvesPoints(g, x, texts)
    case Bin(_, l, r) => ResolvesPoints(g, l, texts) && ResolvesPoints(g, r, texts)
    case Cond(c, a, b) => ResolvesPoints(g, c, texts) && ResolvesPoints(g, a, texts) && ResolvesPoints(g, b, texts)
  }

  lemma ResolvesPrefix(g: Callback, m: string, xs: seq<Lexeme>, texts: Texts)
    requires Resolves(g, xs, texts)
    ensures Resolves(g, [Mark(m)] + xs, texts)
  {
  }

  lemma ResolvesJoin(g: Callback, l: seq<Lexeme>, m: string, r: seq<Lexeme>, texts: Texts)
    requires Resolves(g, l, texts) && Resolves(g, r, texts)
    ensures Resolves(g, l + [Mark(m)] + r, texts)
  {
  }

  /** And so every reference of its text. */
  lemma {:induction false} LexemesResolve(g: Callback, k: nat, f: Formula, texts: Texts)
    requires ResolvesPoints(g, f, texts)
    ensures Resolves(g, Lexemes(k, f), texts)
    decreases f, 1
  {
    hide Bare, RefText;
    BareResolve(g, f, texts);
  }

  lemma {:induction false} BareResolve(g: Callback, f: Formula, texts: Texts)
    requires ResolvesPoints(g, f, texts)
    ensures Resolves(g, Bare(f), texts)
    decreases f, 0
  {
    hide Lexemes, Resolves, RefText;
    match f
    case Lit(_) => LeafResolve(g, f, texts);
    case Point(_, _) => LeafResolve(g, f, texts);
    case Neg(x) =>
      LexemesResolve(g, G.FACTOR, x, texts);
      ResolvesPrefix(g, "-", Lexemes(G.FACTOR, x), texts);
    case Not(x) =>
      LexemesResolve(g, G.FACTOR, x, texts);
      ResolvesPrefix(g, "!", Lexemes(G.FACTOR, x), texts);
    case Bin(op, l, r) =>
      var j, k := G.OpLevel(op), G.OpLevel(op) + 1;
      LexemesResolve(g, j, l, texts);
      LexemesResolve(g, k, r, texts);
      ResolvesJoin(g, Lexemes(j, l), OpText(op), Lexemes(k, r), texts);
    case Cond(c, a, b) =>
      LexemesResolve(g, 1, c, texts);
      LexemesResolve(g, 0, a, texts);
      LexemesResolve(g, 0, b, texts);
      ResolvesJoin(g, Lexemes(1, c), "?", Lexemes(0, a), texts);
      ResolvesJoin(g, Lexemes(1, c) + [Mark("?")] + Lexemes(0, a), ":", Lexemes(0, b), texts);
  }

  lemma LeafResolve(g: Callback, f: Formula, texts: Texts)
    requires ResolvesPoints(g, f, texts) && (f.Lit? || f.Point?)
    ensures Resolves(g, Bare(f), texts)
  {
    hide RefText;
  }

  // ---------------------------------------------------------------- substitute, then parse

  /**
   For every usable formula in which no `<` has a `>` behind it, and every layout of its text,
   substitution followed by calculate gives the eager value under the substituted numbers. A
   negative number never changes how the formula is read.
   */
  lemma {:induction false} SubstituteThenParse(
    t: Formula, gaps: seq<string>, tail: string, texts: Decimals, f: Callback, v: real)
    requires Usable(t) && Separable(Lexemes(0, t)) && Readable(texts) && Layout(Lexemes(0, t), gaps, tail)
    requires Resolves(f, Lexemes(0, t), Written(texts))
    ensures Literals(t)
    ensures var s := Pass(Spell(Lexemes(0, t), gaps, tail), '<', '>', f);
            && s.Some?
            && Tokens(s.value, v) != [] && Tokens(s.value, v)[0] != Bad
            && G.Calculated(Tokens(s.value, v)) == Value(t, EnvOf(texts))
  {
    hide Resolves, AllClean, Separable, Spell, FillText, Written, Lexemes, Pass, Tokens, Value, BindLexemes, BindGaps,
      EnvOf, Concrete, Stod;
    var xs := Lexemes(0, t);
    var b := Bind(t, texts);
    BindGround(t, texts);
    LexemesBind(0, t, texts);
    BindLayout(xs, gaps, tail, texts);
    UsableClean(0, t);
    SubstituteText(xs, gaps, tail, Written(texts), f);
    FillDecimals(xs, gaps, tail, texts);
    RoundTrip(b, BindGaps(xs, gaps, texts), tail, v, EnvOf(texts));
    BindValue(t, texts, EnvOf(texts));
  }
}
