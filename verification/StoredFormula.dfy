/**
 Formulas over stored points: getExprValue and getCompositeValue. The text of a
 stored value, the callback that finds it, and the theorem that a printed
 template is worth the eager value of the formula under the stored numbers.
 */
module StoredFormula {
  import opened Base
  import opened Arith
  import opened Lexer
  import opened Formula
  import opened Printing
  import opened Points
  import opened Substitution
  import opened Template
  import ReplaceRange
  import Tool
  import TokenStream
  import G = Grammar

  // ---------------------------------------------------------------- text of a value

  /** transValueToDouble; a bool, like any other type it does not list, counts as 0. */
  function ToDouble(v: ValueWrap): real {
    match v
    case Integer(_, n) => n as real
    case Float(x) => x
    case Double(x) => x
    case _ => 0.0
  }

  /** ValueWrap::asUInt8 on the types transValueToString lets through. */
  function AsUInt8(v: ValueWrap): nat {
    match v
    case Integer(_, n) => n % 256
    case Boolean(b) => if b then 1 else 0
    case _ => 0
  }

  predicate SignalType(v: ValueWrap) {
    v.Boolean? || (v.Integer? && v.kind in {INT8, UINT8, INT32})
  }

  /** The decimal transValueToString writes; None where it writes nothing. */
  function ToDecimal(t: DataType, v: ValueWrap): Option<Decimal> {
    match t
    case MEASURE =>
      if v.Str? || v.Empty? then None
      else
        var x := ToDouble(v);
        Some(Decimal(x < 0.0, MagnitudeText(if x < 0.0 then -x else x)))
    case SIGNAL => if SignalType(v) then Some(Decimal(false, IntText(AsUInt8(v)))) else None
    case _ => None
  }

  /** transValueToString. */
  function ValueText(t: DataType, v: ValueWrap): string {
    match t
    case MEASURE => if v.Str? || v.Empty? then "" else FixedText(ToDouble(v))
    case SIGNAL => if SignalType(v) then IntText(AsUInt8(v)) else ""
    case _ => ""
  }

  lemma ValueTextDecimal(t: DataType, v: ValueWrap)
    requires ToDecimal(t, v).Some?
    ensures ValueText(t, v) == DecimalText(ToDecimal(t, v).value)
  {
  }

  lemma {:induction false} MagnitudeNumeral(x: real)
    requires x >= 0.0
    ensures IsNumeral(MagnitudeText(x))
  {
    hide Stod, MicroText;
    MagnitudeTextValue(x);
    MicroChars(Nearest(x * 1000000.0));
  }

  lemma MicroChars(n: nat)
    ensures MicroText(n) != "" && forall i | 0 <= i < |MicroText(n)| :: IsNumberChar(MicroText(n)[i])
  {
  }

  lemma {:induction false} IntNumeral(n: nat)
    ensures IsNumeral(IntText(n)) && Stod(IntText(n)) == Some(n as real)
  {
    StodInteger(IntText(n));
    IntTextValue(n);
  }

  lemma {:induction false} DecimalReadable(t: DataType, v: ValueWrap)
    requires ToDecimal(t, v).Some?
    ensures IsNumeral(ToDecimal(t, v).value.digits)
  {
    hide Stod, MagnitudeText, IntText;
    if t == MEASURE {
      MagnitudeNumeral(if ToDouble(v) < 0.0 then -ToDouble(v) else ToDouble(v));
    } else {
      IntNumeral(AsUInt8(v));
    }
  }

  /** Which values have a text, and the others leave nothing. */
  lemma {:induction false} WrittenIff(t: DataType, v: ValueWrap)
    ensures ToDecimal(t, v).Some? <==>
            || (t == MEASURE && !v.Str? && !v.Empty?)
            || (t == SIGNAL && (v.Boolean? || (v.Integer? && (v.kind == INT8 || v.kind == UINT8 || v.kind == INT32))))
    ensures ToDecimal(t, v).None? ==> ValueText(t, v) == ""
  {
  }

  lemma MeasureNear(v: ValueWrap)
    requires !v.Str? && !v.Empty?
    ensures ToDecimal(MEASURE, v).Some?
    ensures IsNumeral(ToDecimal(MEASURE, v).value.digits)
    ensures -0.0000005 <= DecimalValue(ToDecimal(MEASURE, v).value) - ToDouble(v) <= 0.0000005
  {
    hide Stod, MagnitudeText;
    var x := ToDouble(v);
    DecimalReadable(MEASURE, v);
    MagnitudeTextValue(if x < 0.0 then -x else x);
  }

  /**
   The number substituted for a measure: an integer of any type exactly, a float or double to six
   decimals, and 0 for a bool, which transValueToDouble does not list.
   */
  lemma {:induction false} MeasureNumber(v: ValueWrap)
    requires !v.Str? && !v.Empty?
    ensures ToDecimal(MEASURE, v).Some?
    ensures IsNumeral(ToDecimal(MEASURE, v).value.digits)
    ensures var y := DecimalValue(ToDecimal(MEASURE, v).value);
            && (v.Integer? ==> y == v.n as real)
            && (v.Float? || v.Double? ==> -0.0000005 <= y - v.x <= 0.0000005)
            && (v.Boolean? ==> y == 0.0)
  {
    hide Stod, MagnitudeText;
    MeasureNear(v);
    if v.Integer? {
      WholeTextValue(if v.n < 0 then -v.n else v.n);
    } else if v.Boolean? {
      WholeTextValue(0);
    }
  }

  /** The number substituted for a signal: the low byte of an integer, 0 or 1 for a bool. */
  lemma {:induction false} SignalNumber(v: ValueWrap) returns (byte: nat, k: int)
    requires ToDecimal(SIGNAL, v).Some?
    ensures IsNumeral(ToDecimal(SIGNAL, v).value.digits)
    ensures DecimalValue(ToDecimal(SIGNAL, v).value) == byte as real && byte < 256
    ensures v.Integer? ==> v.n == 256 * k + byte
    ensures v.Boolean? ==> byte == if v.b then 1 else 0
  {
    hide Stod, IntText;
    byte, k := AsUInt8(v), if v.Integer? then v.n / 256 else 0;
    IntNumeral(byte);
  }

  // ---------------------------------------------------------------- the callback

  /**
   The lambda getExprValue hands to replaceRangeStr. None stands for a missing
   `#` part and for the exceptions of std::stoi; a point that is not stored, or
   whose type has no text, becomes empty text.
   */
  function Resolve(values: Values, t: DataType, src: string): Option<string> {
    var parts := Tool.Split(src, '#');
    if |parts| < 2 then None
    else
      match Stoi(parts[1])
      case None => None
      case Some(id) =>
        match Lookup(values, parts[0], t, id)
        case None => Some("")
        case Some(v) => Some(ValueText(t, v))
  }

  function Resolver(values: Values, t: DataType): ReplaceRange.Callback {
    src => Resolve(values, t, src)
  }

  lemma NoMarkInValue(t: DataType, v: ValueWrap)
    ensures '<' !in ValueText(t, v)
  {
    if ToDecimal(t, v).Some? {
      DecimalReadable(t, v);
      ValueTextDecimal(t, v);
    }
  }

  /** No text of a value holds the opening mark, so the substitution ends. */
  lemma {:induction false} ResolveClean(values: Values, t: DataType)
    ensures forall src :: Resolver(values, t)(src).Some? ==> '<' !in Resolver(values, t)(src).value
  {
    hide ValueText, Stoi;
    forall src | Resolve(values, t, src).Some?
      ensures '<' !in Resolve(values, t, src).value
    {
      forall v {
        NoMarkInValue(t, v);
      }
    }
  }

  // ---------------------------------------------------------------- getExprValue

  /** What getExprValue does to its output: an exception, nothing, or new data. */
  datatype ExprResult = Threw | Unchanged | Data(value: ValueWrap)

  function Calculation(ts: seq<Token>): real {
    match G.Calculated(ts)
    case None => 0.0
    case Some(v) => v
  }

  /** Conversion of the formula's value to the data type asked for. */
  function Converted(t: DataType, v: real): ExprResult {
    match t
    case MEASURE => Data(Double(v))
    case SIGNAL => Data(Integer(UINT8, Trunc(v) % 256))
    case _ => Unchanged
  }

  function ExprValue(values: Values, t: DataType, expr: string, garbage: real): ExprResult {
    match ReplaceRange.Pass(expr, '<', '>', Resolver(values, t))
    case None => Threw
    case Some(formula) =>
      var ts := Tokens(formula, garbage);
      if ts != [] && ts[0] == Bad then Threw else Converted(t, Calculation(ts))
  }

  function CompositeFormulas(composite: map<string, seq<string>>, t: DataType): seq<string> {
    match MemberName(t)
    case None => []
    case Some(m) => if m in composite then composite[m] else []
  }

  lemma {:induction false} CompositeFormulasAre(composite: map<string, seq<string>>)
    ensures CompositeFormulas(composite, MEASURE) == if "measure" in composite then composite["measure"] else []
    ensures CompositeFormulas(composite, SIGNAL) == if "signal" in composite then composite["signal"] else []
    ensures CompositeFormulas(composite, UNKNOWN) == []
  {
  }

  // ---------------------------------------------------------------- the theorem

  /** Every point the formula refers to is stored with a type that has a text. */
  predicate Stored(values: Values, t: DataType, f: Formula) {
    match f
    case Lit(_) => true
    case Point(d, i) => Lookup(values, d, t, i).Some? && ToDecimal(t, Lookup(values, d, t, i).value).Some?
    case Neg(x) => Stored(values, t, x)
    case Not(x) => Stored(values, t, x)
    case Bin(_, l, r) => Stored(values, t, l) && Stored(values, t, r)
    case Cond(c, a, b) => Stored(values, t, c) && Stored(values, t, a) && Stored(values, t, b)
  }

  /** The text of each stored point; "0" where there is none. */
  function TextsOf(values: Values, t: DataType): Decimals {
    (d: string, i: nat) =>
      match Lookup(values, d, t, i)
      case None => Decimal(false, "0")
      case Some(v) => match ToDecimal(t, v) case None => Decimal(false, "0") case Some(x) => x
  }

  lemma {:induction false} TextsReadable(values: Values, t: DataType)
    ensures Readable(TextsOf(values, t))
  {
    hide ToDecimal, Stod;
    forall d: string, i: nat
      ensures IsNumeral(TextsOf(values, t)(d, i).digits)
    {
      ZeroNumeral();
      if Lookup(values, d, t, i).Some? && ToDecimal(t, Lookup(values, d, t, i).value).Some? {
        DecimalReadable(t, Lookup(values, d, t, i).value);
      }
    }
  }

  lemma ZeroNumeral()
    ensures IsNumeral("0")
  {
    IntNumeral(0);
  }

  /** The text that stands for a point in any store; a missing point, or one without a text, leaves nothing. */
  function TextIn(values: Values, t: DataType): Texts {
    (d: string, i: nat) =>
      match Lookup(values, d, t, i)
      case None => ""
      case Some(v) => ValueText(t, v)
  }

  /** Splitting and reading `device#id` finds what is stored for that device and point. */
  lemma {:induction false} ResolveRef(values: Values, t: DataType, d: string, i: nat)
    requires d != "" && '#' !in d && i < INT_LIMIT
    ensures Resolve(values, t, RefText(d, i)) == Some(TextIn(values, t)(d, i))
  {
    hide ValueText, Stoi, IntText;
    var parts := [d, IntText(i)];
    assert Tool.Join(parts, '#') == RefText(d, i) by {
      assert parts[1..] == [IntText(i)];
      assert d + ['#'] + IntText(i) == RefText(d, i);
    }
    Tool.SplitJoinIff(parts, '#');
    StoiText(i);
  }

  /** Of any number of parts the first is the device and the second the point, in any notation of std::stoi. */
  lemma {:induction false} ResolveParts(values: Values, t: DataType, parts: seq<string>)
    requires |parts| >= 2 && Tool.SepFree(parts, '#') && Tool.NoneEmpty(parts)
    ensures Resolve(values, t, Tool.Join(parts, '#')) ==
            match Stoi(parts[1])
            case None => None
            case Some(id) =>
              match Lookup(values, parts[0], t, id)
              case None => Some("")
              case Some(v) => Some(ValueText(t, v))
  {
    hide ValueText, Stoi, Lookup;
    Tool.SplitJoinIff(parts, '#');
  }

  lemma {:induction false} AnyResolves(values: Values, t: DataType, f: Formula)
    requires Usable(f)
    ensures ResolvesPoints(Resolver(values, t), f, TextIn(values, t))
  {
    hide TextIn, Resolve, RefText, Stod;
    match f
    case Lit(_) =>
    case Point(d, i) => ResolveRef(values, t, d, i);
    case Neg(x) => AnyResolves(values, t, x);
    case Not(x) => AnyResolves(values, t, x);
    case Bin(_, l, r) =>
      AnyResolves(values, t, l);
      AnyResolves(values, t, r);
    case Cond(c, a, b) =>
      AnyResolves(values, t, c);
      AnyResolves(values, t, a);
      AnyResolves(values, t, b);
  }

  lemma StoredText(values: Values, t: DataType, d: string, i: nat)
    requires Lookup(values, d, t, i).Some? && ToDecimal(t, Lookup(values, d, t, i).value).Some?
    ensures Written(TextsOf(values, t))(d, i) == TextIn(values, t)(d, i)
  {
    hide ToDecimal, ValueText;
    ValueTextDecimal(t, Lookup(values, d, t, i).value);
  }

  lemma {:induction false} StoredResolves(values: Values, t: DataType, f: Formula)
    requires Usable(f) && Stored(values, t, f)
    ensures ResolvesPoints(Resolver(values, t), f, Written(TextsOf(values, t)))
  {
    hide TextIn, TextsOf, Written, Resolve, RefText, ToDecimal, Stod, Lookup;
    match f
    case Lit(_) =>
    case Point(d, i) =>
      ResolveRef(values, t, d, i);
      StoredText(values, t, d, i);
    case Neg(x) => StoredResolves(values, t, x);
    case Not(x) => StoredResolves(values, t, x);
    case Bin(_, l, r) =>
      StoredResolves(values, t, l);
      StoredResolves(values, t, r);
    case Cond(c, a, b) =>
      StoredResolves(values, t, c);
      StoredResolves(values, t, a);
      StoredResolves(values, t, b);
  }

  lemma TextInNoMark(values: Values, t: DataType)
    ensures forall d, i :: '<' !in TextIn(values, t)(d, i)
  {
    hide ValueText;
    forall d: string, i: nat ensures '<' !in TextIn(values, t)(d, i) {
      forall v {
        NoMarkInValue(t, v);
      }
    }
  }

  /**
   What getExprValue makes of the text of a template in any store: each point becomes its text, a
   missing one nothing, and the rest stays as written, exactly when no `<` has a `>` behind it.
   */
  lemma {:induction false} AnyStoreText(values: Values, t: DataType, f: Formula, gaps: seq<string>, tail: string)
    requires Usable(f) && Layout(Lexemes(0, f), gaps, tail)
    ensures ReplaceRange.Pass(Spell(Lexemes(0, f), gaps, tail), '<', '>', Resolver(values, t))
         == Some(FillText(Lexemes(0, f), gaps, tail, TextIn(values, t)))
       <==> Separable(Lexemes(0, f))
  {
    hide ResolvesPoints, Resolves, AllClean, Separable, Spell, FillText, Lexemes, TextIn, Resolver, Stod;
    hide ReplaceRange.Pass;
    UsableClean(0, f);
    AnyResolves(values, t, f);
    LexemesResolve(Resolver(values, t), 0, f, TextIn(values, t));
    TextInNoMark(values, t);
    ResolveClean(values, t);
    SubstitutionIff(Lexemes(0, f), gaps, tail, TextIn(values, t), Resolver(values, t));
  }

  /**
   getExprValue on the text of a formula over stored points: its eager value in
   the environment of the stored numbers, 0 if a divisor anywhere is zero.
   */
  lemma {:induction false} StoredFormulaValue(
    values: Values, t: DataType, f: Formula, gaps: seq<string>, tail: string, garbage: real)
    requires Usable(f) && Stored(values, t, f) && Separable(Lexemes(0, f)) && Layout(Lexemes(0, f), gaps, tail)
    ensures Readable(TextsOf(values, t)) && Literals(f)
    ensures var v := Value(f, EnvOf(TextsOf(values, t)));
            && ExprValue(values, t, Spell(Lexemes(0, f), gaps, tail), garbage)
               == Converted(t, if v.None? then 0.0 else v.value)
  {
    hide TextsOf, Resolver, Lexemes, Spell, Value, EnvOf, Tokens, Written, Separable, Stored, Usable;
    TextsReadable(values, t);
    StoredResolves(values, t, f);
    LexemesResolve(Resolver(values, t), 0, f, Written(TextsOf(values, t)));
    SubstituteThenParse(f, gaps, tail, TextsOf(values, t), Resolver(values, t), garbage);
  }

  /** A measure keeps the value of the formula, a signal the low byte of its whole part; other types keep nothing. */
  lemma {:induction false} ConvertedIs(v: real) returns (byte: nat, k: int)
    ensures Converted(MEASURE, v) == Data(Double(v))
    ensures Converted(SIGNAL, v) == Data(Integer(UINT8, byte)) && byte < 256 && Trunc(v) == 256 * k + byte
    ensures forall t | t != MEASURE && t != SIGNAL :: Converted(t, v) == Unchanged
  {
    hide Trunc;
    byte, k := Trunc(v) % 256, Trunc(v) / 256;
  }

  lemma PointPlusLexemes(d: string, i: nat, a: string)
    requires IsNumeral(a)
    ensures var xs := [Ref(d, i), Mark("+"), Numeral(a)];
            && Lexemes(0, Bin(G.Add, Point(d, i), Lit(a))) == xs
            && Separable(xs) && Layout(xs, ["", "", ""], "")
  {
    hide Stod, IntText;
    var xs := [Ref(d, i), Mark("+"), Numeral(a)];
    assert Lexemes(6, Point(d, i)) == [Ref(d, i)] && Lexemes(7, Lit(a)) == [Numeral(a)];
    assert xs[1..] == [Mark("+"), Numeral(a)] && xs[1..][1..] == [Numeral(a)] && xs[1..][1..][1..] == [];
    assert Separable(xs[1..][1..]) && Separable(xs[1..]);
  }

  /** A sum of a stored integer and a number. */
  lemma {:induction false} PointPlusNumber(values: Values, d: string, i: nat, kind: IntType, n: int, a: string,
                                           garbage: real)
    requires d != "" && '#' !in d && '<' !in d && '>' !in d && i < INT_LIMIT && IsNumeral(a)
    requires Lookup(values, d, MEASURE, i) == Some(Integer(kind, n))
    ensures ExprValue(values, MEASURE, "<" + d + "#" + IntText(i) + ">" + "+" + a, garbage)
         == Data(Double(n as real + Stod(a).value))
  {
    hide Stod, IntText, Spell, ExprValue, ToDecimal, Lexemes, Separable, Layout;
    var f := Bin(G.Add, Point(d, i), Lit(a));
    PointPlusLexemes(d, i, a);
    MeasureNumber(Integer(kind, n));
    StoredFormulaValue(values, MEASURE, f, ["", "", ""], "", garbage);
    SpellThree(Ref(d, i), "+", Numeral(a));
  }

  // ---------------------------------------------------------------- where the text is another formula

  /** The value of a text that is another formula once the references are gone. */
  lemma {:induction false} PlainValue(
    values: Values, s: string, f: Formula, gaps: seq<string>, v: real, garbage: real, env: Env)
    requires Literals(f) && Ground(f) && Layout(Lexemes(0, f), gaps, "") && Value(f, env) == Some(v)
    requires ReplaceRange.Pass(s, '<', '>', Resolver(values, MEASURE)) == Some(Spell(Lexemes(0, f), gaps, ""))
    ensures ExprValue(values, MEASURE, s, garbage) == Data(Double(v))
  {
    hide ReplaceRange.Pass, Resolver, Lexemes, Spell, Value, Tokens;
    RoundTrip(f, gaps, "", garbage, env);
  }

  /** A reference in front of which and behind which there is other text. */
  lemma {:induction false} RefBetween(values: Values, before: string, d: string, i: nat, after: string)
    requires d != "" && '#' !in d && '<' !in d && '>' !in d && i < INT_LIMIT
    requires '<' !in before && '<' !in after
    ensures ReplaceRange.Pass(before + Text(Ref(d, i)) + after, '<', '>', Resolver(values, MEASURE))
         == Some(before + TextIn(values, MEASURE)(d, i) + after)
  {
    hide Resolve, IntText, TextIn, ReplaceRange.FirstRange;
    ResolveRef(values, MEASURE, d, i);
    RefRanged(before, Ref(d, i), after);
    ReplaceRange.FirstRangeHere(before, RefText(d, i), after, '<', '>');
    NoClosePass(after, Resolver(values, MEASURE));
  }

  /** A point that is not stored, between two bars, turns a bitwise template into a logical one. */
  lemma {:induction false} MissingPointChangesOperator(values: Values, a: string, b: string, d: string, i: nat,
                                                       garbage: real)
    requires d != "" && '#' !in d && '<' !in d && '>' !in d && i < INT_LIMIT
    requires Lookup(values, d, MEASURE, i).None? && IsNumeral(a) && IsNumeral(b)
    ensures ExprValue(values, MEASURE, a + "|" + Text(Ref(d, i)) + ("|" + b), garbage)
         == Data(Double(G.Truth(Stod(a).value != 0.0 || Stod(b).value != 0.0)))
  {
    hide Stod, IntText, Spell, Resolver, ReplaceRange.Pass, ExprValue, Lexemes, Value;
    var f := Bin(G.Or, Lit(a), Lit(b));
    var s := a + "|" + Text(Ref(d, i)) + ("|" + b);
    RefBetween(values, a + "|", d, i, "|" + b);
    SpellThree(Numeral(a), "||", Numeral(b));
    assert a + "|" + "" + ("|" + b) == a + "||" + b;
    OrLexemes(a, b);
    PlainValue(values, s, f, ["", "", ""], G.Truth(Stod(a).value != 0.0 || Stod(b).value != 0.0), garbage, NOWHERE);
  }

  const NOWHERE: Env := (d: string, i: nat) => 0.0

  lemma OrLexemes(a: string, b: string)
    requires IsNumeral(a) && IsNumeral(b)
    ensures var f := Bin(G.Or, Lit(a), Lit(b));
            && Literals(f) && Ground(f) && Lexemes(0, f) == [Numeral(a), Mark("||"), Numeral(b)]
            && Value(f, NOWHERE) == Some(G.Truth(Stod(a).value != 0.0 || Stod(b).value != 0.0))
  {
    hide Stod;
    assert Lexemes(1, Lit(a)) == [Numeral(a)] && Lexemes(2, Lit(b)) == [Numeral(b)];
    assert Bare(Bin(G.Or, Lit(a), Lit(b))) == [Numeral(a), Mark("||"), Numeral(b)];
  }

  /** With a point that is not stored `1-<d#i>-2` is worth 3: what is left is 1 - -2. */
  lemma {:induction false} MissingPointStillParses(values: Values, d: string, i: nat, garbage: real)
    requires d != "" && '#' !in d && '<' !in d && '>' !in d && i < INT_LIMIT
    requires Lookup(values, d, MEASURE, i).None?
    ensures ExprValue(values, MEASURE, "1-" + Text(Ref(d, i)) + "-2", garbage) == Data(Double(3.0))
  {
    hide Stod, IntText, Spell, Resolver, ReplaceRange.Pass;
    RefBetween(values, "1-", d, i, "-2");
    assert "1-" + "" + "-2" == "1--2";
    OneMinusMinusTwo(NOWHERE);
    SpellFour(["", "", "", ""]);
    var f := Bin(G.Sub, Lit("1"), Neg(Lit("2")));
    PlainValue(values, "1-" + Text(Ref(d, i)) + "-2", f, ["", "", "", ""], 3.0, garbage, NOWHERE);
  }

  lemma OneMinusMinusTwo(env: Env)
    ensures var f := Bin(G.Sub, Lit("1"), Neg(Lit("2")));
            && Literals(f) && Ground(f)
            && Value(f, env) == Some(3.0)
            && Lexemes(0, f) == [Numeral("1"), Mark("-"), Mark("-"), Numeral("2")]
  {
    hide Stod;
    StodInteger("1");
    StodInteger("2");
  }

  lemma SpellFour(gaps: seq<string>)
    requires gaps == ["", "", "", ""]
    ensures Spell([Numeral("1"), Mark("-"), Mark("-"), Numeral("2")], gaps, "") == "1--2"
  {
    SpellHead(Numeral("2"), [], "", [], "");
    SpellHead(Mark("-"), [Numeral("2")], "", [""], "");
    SpellHead(Mark("-"), [Mark("-"), Numeral("2")], "", ["", ""], "");
    SpellHead(Numeral("1"), [Mark("-"), Mark("-"), Numeral("2")], "", ["", "", ""], "");
    assert [] + [Numeral("2")] == [Numeral("2")];
    assert gaps == [""] + ["", "", ""];
  }

  /**
   Separable is needed: in `2<<d#i>` the operator opens the range, the device looked for is `<d`, and
   the comparison is worth 2, whatever the point holds.
   */
  lemma {:induction false} LessSwallowed(values: Values, d: string, i: nat, garbage: real)
    requires d != "" && '#' !in d && '>' !in d && i < INT_LIMIT && "<" + d !in values
    ensures ExprValue(values, MEASURE, "2<" + Text(Ref(d, i)), garbage) == Data(Double(2.0))
  {
    hide Stod, IntText, Spell, Resolve, ReplaceRange.FirstRange, TextIn;
    var device := "<" + d;
    ResolveRef(values, MEASURE, device, i);
    SwallowedText(values, d, i);
    assert RefText(device, i) == "<" + RefText(d, i);
    assert "2<" + Text(Ref(d, i)) == ReplaceRange.Ranged("2", RefText(device, i), "", '<', '>');
    ReplaceRange.FirstRangeHere("2", RefText(device, i), "", '<', '>');
    NoClosePass("", Resolver(values, MEASURE));
    StodInteger("2");
    SpellOne("2");
    assert "2" + "" + "" == "2";
    PlainValue(values, "2<" + Text(Ref(d, i)), Lit("2"), [""], 2.0, garbage, NOWHERE);
  }

  lemma SwallowedText(values: Values, d: string, i: nat)
    requires "<" + d !in values
    ensures TextIn(values, MEASURE)("<" + d, i) == ""
  {
  }

  /** The constructor reads the first token outside the try: a text that starts with a lone `=` throws. */
  lemma {:induction false} BadStartThrows(values: Values, t: DataType, s: string, garbage: real)
    requires '<' !in s && (s != "" ==> s[0] != '=')
    ensures ExprValue(values, t, "=" + s, garbage) == Threw
  {
    hide ReplaceRange.Pass, Resolver, Tokens;
    NoClosePass("=" + s, Resolver(values, t));
    TokenStream.OneOfTwo(s, garbage);
  }

  /** Behind a number the same character is caught, and the result is 0. */
  lemma {:induction false} BadLaterIsZero(values: Values, a: string, s: string, garbage: real)
    requires IsNumeral(a) && '<' !in s && (s != "" ==> s[0] != '=')
    ensures ExprValue(values, MEASURE, a + ("=" + s), garbage) == Data(Double(0.0))
  {
    hide ReplaceRange.Pass, Resolver, Tokens, Stod, G.Calculated;
    NumeralNoLess(a);
    NoClosePass(a + ("=" + s), Resolver(values, MEASURE));
    TokenStream.NumberTaken(a, "=" + s, garbage);
    TokenStream.OneOfTwo(s, Stod(a).value);
    assert [N(Stod(a).value)] + [Bad] == [N(Stod(a).value), Bad];
    NumberThenBad(Stod(a).value);
  }

  lemma NumeralNoLess(a: string)
    requires IsNumeral(a)
    ensures '<' !in a && forall i | 0 <= i < |a| :: a[i] in TokenStream.DIGITS || a[i] == '.'
  {
    hide Stod;
    forall i | 0 <= i < |a| ensures a[i] in TokenStream.DIGITS || a[i] == '.' {
      TokenStream.DigitsAre(a[i]);
    }
  }

  lemma {:induction false} NumberThenBad(x: real)
    ensures G.Calculated([N(x), Bad]).None?
  {
    var ts := [N(x), Bad];
    assert ts[1] == Bad;
    if G.Calculated(ts).Some? {
      G.CalculatedIff(ts, G.Calculated(ts).value);
      var t :| G.Derivation(G.CONDITIONAL, t) && G.Yield(t) == ts && G.Eval(t) == Some(G.Calculated(ts).value);
      YieldNoBad(t);
    }
  }

  lemma {:induction false} YieldNoBad(t: G.Tree)
    ensures Bad !in G.Yield(t)
  {
    match t
    case Num(_) =>
    case Paren(x) => YieldNoBad(x);
    case Neg(x) => YieldNoBad(x);
    case Not(x) => YieldNoBad(x);
    case Bin(_, _, l, r) =>
      YieldNoBad(l);
      YieldNoBad(r);
    case Cond(c, a, b) =>
      YieldNoBad(c);
      YieldNoBad(a);
      YieldNoBad(b);
  }
}
