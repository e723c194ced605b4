/**
 The round trip: a formula printed with the fewest parentheses and any blanks
 between its lexemes is read back by the lexer and the parser.
 */
module Printing {
  import opened Base
  import opened Arith
  import opened Lexer
  import opened Formula
  import G = Grammar

  // ---------------------------------------------------------------- marks

  const MARKS: set<string> :=
    {"(", ")", "-", "!", "+", "*", "/", "&&", "&", "||", "|", "<", "<=", ">", ">=", "==", "!=", "?", ":"}

  /** The token character of a mark. */
  function MarkKind(m: string): char {
    if m == "" then '\0'
    else if m == "&" then 'a'
    else if m == "|" then 'o'
    else if m == "<=" then 'l'
    else if m == ">=" then 'g'
    else if m == "==" then 'e'
    else if m == "!=" then 'n'
    else m[0]
  }

  /** May the text r follow the mark m without being taken into the same token? */
  predicate Apart(m: string, r: string) {
    r == "" || m == ")" || (r[0] != '&' && r[0] != '|' && r[0] != '=')
  }

  lemma MarkRead(m: string, r: string)
    requires m in MARKS && Apart(m, r)
    ensures Operator(m + r) == (MarkKind(m), |m|)
    ensures MarkKind(m) != '=' && MarkKind(m) != '\0'
    ensures !IsNumberChar(m[0]) && !IsSpace(m[0])
  {
    assert r != "" ==> (m + r)[|m|] == r[0];
  }

  // ---------------------------------------------------------------- lexemes in sequence

  /** Ends an operand. */
  predicate Closes(x: Lexeme) {
    !x.Mark? || x.text == ")"
  }

  /** Starts an operand. */
  predicate Opens(x: Lexeme) {
    !x.Mark? || x.text == "(" || x.text == "-" || x.text == "!"
  }

  predicate Adjacent(a: Lexeme, b: Lexeme) {
    if Closes(a) then b.Mark? else Opens(b)
  }

  predicate Sound(x: Lexeme) {
    match x
    case Numeral(t) => IsNumeral(t)
    case Mark(m) => m in MARKS
    case Ref(_, _) => true
  }

  predicate Chain(xs: seq<Lexeme>) {
    && (forall i | 0 <= i < |xs| :: Sound(xs[i]))
    && (forall i | 0 <= i < |xs| - 1 :: Adjacent(xs[i], xs[i + 1]))
  }

  /** Lexemes that read as one operand. */
  predicate Phrase(xs: seq<Lexeme>) {
    |xs| > 0 && Chain(xs) && Opens(xs[0]) && Closes(xs[|xs| - 1])
  }

  lemma PhrasePrefix(m: string, xs: seq<Lexeme>)
    requires (m == "-" || m == "!") && Phrase(xs)
    ensures Phrase([Mark(m)] + xs)
  {
  }

  lemma PhraseJoin(l: seq<Lexeme>, m: string, r: seq<Lexeme>)
    requires Phrase(l) && Phrase(r) && m in MARKS && m != ")"
    ensures Phrase(l + [Mark(m)] + r)
  {
  }

  lemma {:induction false} LexemesPhrase(k: nat, f: Formula)
    requires Literals(f)
    ensures Phrase(Lexemes(k, f))
    decreases f, 1
  {
    BarePhrase(f);
  }

  lemma {:induction false} BarePhrase(f: Formula)
    requires Literals(f)
    ensures Phrase(Bare(f))
    decreases f, 0
  {
    hide Stod, Phrase;
    match f
    case Lit(t) => PhraseOne(Numeral(t));
    case Point(d, i) => PhraseOne(Ref(d, i));
    case Neg(x) =>
      LexemesPhrase(G.FACTOR, x);
      PhrasePrefix("-", Lexemes(G.FACTOR, x));
    case Not(x) =>
      LexemesPhrase(G.FACTOR, x);
      PhrasePrefix("!", Lexemes(G.FACTOR, x));
    case Bin(op, l, r) =>
      LexemesPhrase(G.OpLevel(op), l);
      LexemesPhrase(G.OpLevel(op) + 1, r);
      PhraseJoin(Lexemes(G.OpLevel(op), l), OpText(op), Lexemes(G.OpLevel(op) + 1, r));
    case Cond(c, a, b) =>
      LexemesPhrase(1, c);
      LexemesPhrase(0, a);
      LexemesPhrase(0, b);
      PhraseJoin(Lexemes(1, c), "?", Lexemes(0, a));
      PhraseJoin(Lexemes(1, c) + [Mark("?")] + Lexemes(0, a), ":", Lexemes(0, b));
  }

  lemma PhraseOne(x: Lexeme)
    requires Sound(x) && !x.Mark?
    ensures Phrase([x])
  {
  }

  // ---------------------------------------------------------------- lexing a spelled text

  /** The tokens of lexemes, v being the number read last. */
  function Tokenize(xs: seq<Lexeme>, v: real): seq<Token> {
    if xs == [] then []
    else
      match xs[0]
      case Numeral(t) =>
        if Stod(t).None? then [Bad] else [N(Stod(t).value)] + Tokenize(xs[1..], Stod(t).value)
      case Mark(m) => [TokenOf(MarkKind(m), v)] + Tokenize(xs[1..], v)
      case Ref(_, _) => [Bad]
  }

  predicate NoRefs(xs: seq<Lexeme>) {
    forall i | 0 <= i < |xs| :: !xs[i].Ref?
  }

  lemma {:induction false} SpacesGap(gap: string, t: string)
    requires AllSpaces(gap) && (t != "" ==> !IsSpace(t[0]))
    ensures Spaces(gap + t) == |gap|
  {
    if gap == "" {
      assert gap + t == t;
    } else {
      assert (gap + t)[1..] == gap[1..] + t;
      SpacesGap(gap[1..], t);
    }
  }

  lemma {:induction false} NumberRunText(t: string, r: string)
    requires (forall i | 0 <= i < |t| :: IsNumberChar(t[i])) && (r != "" ==> !IsNumberChar(r[0]))
    ensures NumberRun(t + r) == |t|
  {
    if t == "" {
      assert t + r == r;
    } else {
      assert (t + r)[1..] == t[1..] + r;
      NumberRunText(t[1..], r);
    }
  }

  /** One lexeme, its blanks in front and the rest of the text behind. */
  lemma {:induction false} NextNumeral(gap: string, t: string, r: string, v: real)
    requires AllSpaces(gap) && IsNumeral(t) && (r != "" ==> !IsNumberChar(r[0]))
    ensures Next(gap + t + r, v) == Lexed('n', |gap| + |t|, Stod(t).value)
  {
    hide Stod;
    Assoc(gap, t, r);
    SpacesGap(gap, t + r);
    assert (gap + t + r)[|gap|..] == t + r;
    NumberRunText(t, r);
    assert (t + r)[..|t|] == t;
  }

  lemma {:induction false} NextMark(gap: string, m: string, r: string, v: real)
    requires AllSpaces(gap) && m in MARKS && Apart(m, r)
    ensures Next(gap + m + r, v) == Lexed(MarkKind(m), |gap| + |m|, v) && MarkKind(m) != '\0'
  {
    hide Operator, Stod;
    Assoc(gap, m, r);
    MarkRead(m, r);
    SpacesGap(gap, m + r);
    assert (gap + m + r)[|gap|..] == m + r;
  }

  lemma {:induction false} NextEnd(tail: string, v: real)
    requires AllSpaces(tail)
    ensures Tokens(tail, v) == []
  {
    SpacesGap(tail, "");
    assert tail + "" == tail;
  }

  /** What follows the head of a chain cannot be taken into the same token. */
  lemma {:induction false} HeadApart(xs: seq<Lexeme>, gaps: seq<string>, tail: string)
    requires |xs| > 0 && Chain(xs) && NoRefs(xs) && Layout(xs, gaps, tail)
    ensures var r := Spell(xs[1..], gaps[1..], tail);
            if xs[0].Numeral? then r != "" ==> !IsNumberChar(r[0]) else Apart(xs[0].text, r)
  {
    hide Stod;
    if |xs| > 1 {
      var b := xs[1];
      assert Sound(b) && Adjacent(xs[0], b);
      if b.Mark? {
        MarkRead(b.text, "");
      }
      assert AllSpaces(gaps[1]);
      assert Spell(xs[1..], gaps[1..], tail)[0] == (gaps[1] + Text(b))[0];
    }
  }

  /** A chain is lexed into its own tokens, whatever blanks lie between. */
  lemma {:induction false} SpellTokens(xs: seq<Lexeme>, gaps: seq<string>, tail: string, v: real)
    requires Chain(xs) && NoRefs(xs) && Layout(xs, gaps, tail)
    ensures Tokens(Spell(xs, gaps, tail), v) == Tokenize(xs, v)
  {
    hide Next, Stod, Operator;
    if xs == [] {
      NextEnd(tail, v);
    } else {
      HeadApart(xs, gaps, tail);
      var r := Spell(xs[1..], gaps[1..], tail);
      var t := Text(xs[0]);
      assert Sound(xs[0]) && AllSpaces(gaps[0]);
      assert Layout(xs[1..], gaps[1..], tail);
      assert (gaps[0] + t + r)[|gaps[0]| + |t|..] == r;
      if xs[0].Numeral? {
        NextNumeral(gaps[0], t, r, v);
        SpellTokens(xs[1..], gaps[1..], tail, Stod(t).value);
      } else {
        NextMark(gaps[0], t, r, v);
        SpellTokens(xs[1..], gaps[1..], tail, v);
      }
    }
  }

  // ---------------------------------------------------------------- the round trip

  lemma TokenizeNumeral(t: string, rest: seq<Lexeme>, v: real)
    requires Stod(t).Some?
    ensures Tokenize([Numeral(t)] + rest, v) == [N(Stod(t).value)] + Tokenize(rest, Stod(t).value)
  {
    Tail(Numeral(t), rest);
  }

  lemma TokenizeMark(m: string, rest: seq<Lexeme>, v: real)
    ensures Tokenize([Mark(m)] + rest, v) == [TokenOf(MarkKind(m), v)] + Tokenize(rest, v)
  {
    Tail(Mark(m), rest);
  }

  /** The lexemes of f are the tokens its derivation produces. */
  lemma {:induction false} LexemesYield(k: nat, f: Formula, rest: seq<Lexeme>, v: real)
    requires Literals(f) && Ground(f)
    ensures Tokenize(Lexemes(k, f) + rest, v) == G.Yield(Concrete(k, f)) + Tokenize(rest, LastNumber(f))
    decreases f, 1
  {
    hide Stod, Tokenize;
    if Level(f) < k {
      var tail := [Mark(")")] + rest;
      Assoc4([Mark("(")], Bare(f), [Mark(")")], rest);
      TokenizeMark("(", Bare(f) + tail, v);
      BareYield(f, tail, v);
      TokenizeMark(")", rest, LastNumber(f));
      Assoc4([Sym('(')], G.Yield(ConcreteBare(f)), [Sym(')')], Tokenize(rest, LastNumber(f)));
    } else {
      BareYield(f, rest, v);
    }
  }

  lemma {:induction false} BareYield(f: Formula, rest: seq<Lexeme>, v: real)
    requires Literals(f) && Ground(f)
    ensures Tokenize(Bare(f) + rest, v) == G.Yield(ConcreteBare(f)) + Tokenize(rest, LastNumber(f))
    decreases f, 0
  {
    hide Stod, Tokenize;
    match f
    case Lit(t) => TokenizeNumeral(t, rest, v);
    case Neg(x) => PrefixYield("-", x, rest, v);
    case Not(x) => PrefixYield("!", x, rest, v);
    case Bin(op, l, r) => BinYield(op, l, r, rest, v);
    case Cond(c, a, b) => CondYield(c, a, b, rest, v);
  }

  lemma {:induction false} PrefixYield(m: string, x: Formula, rest: seq<Lexeme>, v: real)
    requires Literals(x) && Ground(x)
    ensures Tokenize([Mark(m)] + Lexemes(G.FACTOR, x) + rest, v)
         == [TokenOf(MarkKind(m), v)] + G.Yield(Concrete(G.FACTOR, x)) + Tokenize(rest, LastNumber(x))
    decreases x, 2
  {
    hide Stod, Tokenize, Lexemes;
    Assoc([Mark(m)], Lexemes(G.FACTOR, x), rest);
    TokenizeMark(m, Lexemes(G.FACTOR, x) + rest, v);
    LexemesYield(G.FACTOR, x, rest, v);
    Assoc([TokenOf(MarkKind(m), v)], G.Yield(Concrete(G.FACTOR, x)), Tokenize(rest, LastNumber(x)));
  }

  /** Two operands and the mark between them. */
  lemma JoinTokens(xl: seq<Lexeme>, m: string, xr: seq<Lexeme>, rest: seq<Lexeme>,
                   yl: seq<Token>, yr: seq<Token>, end: seq<Token>, v: real, vl: real)
    requires Tokenize(xl + ([Mark(m)] + (xr + rest)), v) == yl + Tokenize([Mark(m)] + (xr + rest), vl)
    requires Tokenize(xr + rest, vl) == yr + end
    ensures Tokenize(xl + [Mark(m)] + xr + rest, v) == yl + [TokenOf(MarkKind(m), vl)] + yr + end
  {
    hide Tokenize, MarkKind;
    Assoc4(xl, [Mark(m)], xr, rest);
    TokenizeMark(m, xr + rest, vl);
    Assoc4(yl, [TokenOf(MarkKind(m), vl)], yr, end);
  }

  lemma {:induction false} BinYield(op: G.Op, l: Formula, r: Formula, rest: seq<Lexeme>, v: real)
    requires Literals(l) && Ground(l) && Literals(r) && Ground(r)
    ensures var f := Bin(op, l, r);
            Tokenize(Bare(f) + rest, v) == G.Yield(ConcreteBare(f)) + Tokenize(rest, LastNumber(r))
    decreases Bin(op, l, r), 0, 0
  {
    hide Stod, Tokenize, Lexemes, MarkKind;
    var j, k, m := G.OpLevel(op), G.OpLevel(op) + 1, OpText(op);
    var xl, xr := Lexemes(j, l), Lexemes(k, r);
    LexemesYield(j, l, [Mark(m)] + (xr + rest), v);
    LexemesYield(k, r, rest, LastNumber(l));
    JoinTokens(xl, m, xr, rest, G.Yield(Concrete(j, l)), G.Yield(Concrete(k, r)),
               Tokenize(rest, LastNumber(r)), v, LastNumber(l));
    OpTextKind(op, LastNumber(l));
  }

  lemma OpTextKind(op: G.Op, v: real)
    ensures TokenOf(MarkKind(OpText(op)), v) == G.OpToken(op, if op == G.Ne then v else 0.0)
  {
  }

  lemma {:induction false} CondYield(c: Formula, a: Formula, b: Formula, rest: seq<Lexeme>, v: real)
    requires Literals(c) && Ground(c) && Literals(a) && Ground(a) && Literals(b) && Ground(b)
    ensures var f := Cond(c, a, b);
            Tokenize(Bare(f) + rest, v) == G.Yield(ConcreteBare(f)) + Tokenize(rest, LastNumber(b))
    decreases Cond(c, a, b), 0, 0
  {
    hide Stod, Tokenize, Lexemes, Concrete;
    var xc, xa, xb := Lexemes(1, c), Lexemes(0, a), Lexemes(0, b);
    var yc, ya, yb := G.Yield(Concrete(1, c)), G.Yield(Concrete(0, a)), G.Yield(Concrete(0, b));
    var vc, va, end := LastNumber(c), LastNumber(a), Tokenize(rest, LastNumber(b));
    LexemesYield(0, b, rest, va);
    LexemesYield(0, a, [Mark(":")] + (xb + rest), vc);
    JoinTokens(xa, ":", xb, rest, ya, yb, end, vc, va);
    var xr := xa + [Mark(":")] + xb;
    LexemesYield(1, c, [Mark("?")] + (xr + rest), v);
    JoinTokens(xc, "?", xr, rest, yc, ya + [Sym(':')] + yb, end, v, vc);
    Assoc4(xc + [Mark("?")], xa, [Mark(":")], xb);
    Assoc(xa, [Mark(":")], xb);
    Assoc4(yc + [Sym('?')], ya, [Sym(':')], yb);
    Assoc(ya, [Sym(':')], yb);
  }

  /** A printed formula is lexed into the tokens of its derivation. */
  lemma {:induction false} PrintedTokens(f: Formula, gaps: seq<string>, tail: string, v: real)
    requires Literals(f) && Ground(f) && Layout(Lexemes(0, f), gaps, tail)
    ensures Tokens(Spell(Lexemes(0, f), gaps, tail), v) == G.Yield(Concrete(0, f))
  {
    hide Tokens, Tokenize, Spell;
    var xs := Lexemes(0, f);
    LexemesPhrase(0, f);
    LexemesGround(0, f);
    SpellTokens(xs, gaps, tail, v);
    LexemesYield(0, f, [], v);
    assert xs + [] == xs;
    TokenizeNothing(LastNumber(f));
  }

  lemma TokenizeNothing(v: real)
    ensures Tokenize([], v) == []
  {
  }

  lemma {:induction false} LexemesGround(k: nat, f: Formula)
    requires Ground(f)
    ensures NoRefs(Lexemes(k, f))
    decreases f, 1
  {
    BareGround(f);
  }

  lemma {:induction false} BareGround(f: Formula)
    requires Ground(f)
    ensures NoRefs(Bare(f))
    decreases f, 0
  {
    hide Lexemes;
    match f
    case Lit(_) =>
    case Neg(x) => LexemesGround(G.FACTOR, x);
    case Not(x) => LexemesGround(G.FACTOR, x);
    case Bin(op, l, r) =>
      LexemesGround(G.OpLevel(op), l);
      LexemesGround(G.OpLevel(op) + 1, r);
    case Cond(c, a, b) =>
      LexemesGround(1, c);
      LexemesGround(0, a);
      LexemesGround(0, b);
  }

  /**
   Lexer and parser invert the printer: the derivation found in the text denotes
   the formula, the constructor does not throw, and calculate returns the eager value.
   */
  lemma {:induction false} RoundTrip(f: Formula, gaps: seq<string>, tail: string, v: real, env: Env)
    requires Literals(f) && Ground(f) && Layout(Lexemes(0, f), gaps, tail)
    ensures var ts := Tokens(Spell(Lexemes(0, f), gaps, tail), v);
            && G.Parse(G.CONDITIONAL, ts) == Some((Concrete(0, f), []))
            && Denotes(Concrete(0, f), f)
            && NoSpareParens(0, Concrete(0, f))
            && ts != [] && ts[0] != Bad
            && G.Calculated(ts) == Value(f, env)
  {
    var t := Concrete(0, f);
    G.YieldLexed(t);
    PrintedTokens(f, gaps, tail, v);
    ConcreteDerives(0, f);
    ConcreteDenotes(0, f);
    DenotesValue(t, f, env);
    G.ParseComplete(G.CONDITIONAL, t, []);
    assert G.Yield(t) + [] == G.Yield(t);
  }
}
