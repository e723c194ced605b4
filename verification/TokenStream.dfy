/**
 The token stream of a text, character by character: which characters are blanks, what a number is, and
 the token of every other character.
 */
module TokenStream {
  import opened Base
  import opened Arith
  import opened Lexer
  import opened Formula
  import opened Printing
  import G = Grammar

  /** isspace in the C locale. */
  const BLANKS: string := " \t\n\U{000B}\U{000C}\r"

  const DIGITS: string := "0123456789"

  // ---------------------------------------------------------------- numbers

  /** The characters of a number, and the number each digit stands for. */
  lemma {:induction false} DigitsAre(c: char)
    ensures IsDigit(c) <==> c in DIGITS
    ensures IsDigit(c) ==> 0 <= DigitValue(c) < 10 && DIGITS[DigitValue(c)] == c
    ensures IsNumberChar(c) <==> c in DIGITS || c == '.'
  {
    assert forall i | 0 <= i < 10 :: DIGITS[i] as int == '0' as int + i;
    if IsDigit(c) {
      assert DIGITS[c as int - '0' as int] == c;
    }
  }

  lemma {:induction false} DecValueJoin(a: string, b: string)
    requires AllDigits(a) && AllDigits(b)
    ensures AllDigits(a + b) && DecValue(a + b) == DecValue(a) * Pow10(|b|) + DecValue(b)
    decreases |b|
  {
    if b == "" {
      assert a + b == a;
    } else {
      var k := |b| - 1;
      DecValueJoin(a, b[..k]);
      DecValueSnoc(a + b[..k], b[k]);
      DecValueSnoc(b[..k], b[k]);
      assert a + b == a + b[..k] + [b[k]] && b == b[..k] + [b[k]];
      TenTimes(DecValue(a), Pow10(k), DecValue(b[..k]), DigitValue(b[k]));
    }
  }

  lemma DecValueSnoc(s: string, c: char)
    requires AllDigits(s) && IsDigit(c)
    ensures AllDigits(s + [c]) && DecValue(s + [c]) == 10 * DecValue(s) + DigitValue(c)
  {
    assert (s + [c])[..|s|] == s;
  }

  lemma TenTimes(x: int, p: int, y: int, d: int)
    ensures 10 * (x * p + y) + d == x * (10 * p) + (10 * y + d)
  {
  }

  /** A digit stands for its place in the row of digits, and one more place is worth ten times as much. */
  lemma {:induction false} DecValueDigit(c: char)
    requires c in DIGITS
    ensures AllDigits([c]) && DecValue([c]) < 10 && DIGITS[DecValue([c])] == c
  {
    DigitsAre(c);
    assert [c][..0] == [];
  }

  lemma {:induction false} LeadDigitsOf(digits: string, rest: string)
    requires AllDigits(digits) && (rest != "" ==> !IsDigit(rest[0]))
    ensures LeadDigits(digits + rest) == |digits| && (digits + rest)[..|digits|] == digits
  {
    LeadDigitsIs(digits + rest, |digits|);
  }

  /** std::stod: digits in front of anything that cannot go on with them. */
  lemma {:induction false} StodWhole(whole: string, rest: string)
    requires AllDigits(whole) && (rest != "" ==> rest[0] !in DIGITS && rest[0] != '.')
    ensures Stod(whole + rest) == if whole == "" then None else Some(DecValue(whole) as real)
  {
    hide DecValue;
    if rest != "" {
      DigitsAre(rest[0]);
    }
    LeadDigitsOf(whole, rest);
  }

  /** A decimal fraction, with digits in front of the dot or behind it. */
  lemma {:induction false} StodFraction(whole: string, frac: string, rest: string)
    requires AllDigits(whole) && AllDigits(frac) && (rest != "" ==> rest[0] !in DIGITS)
    ensures Stod(whole + ("." + (frac + rest))) ==
            if |whole| + |frac| == 0 then None
            else Some(DecValue(whole) as real + DecValue(frac) as real / Pow10(|frac|) as real)
  {
    if rest != "" {
      DigitsAre(rest[0]);
    }
    var t, r := whole + ("." + (frac + rest)), frac + rest;
    LeadDigitsOf(frac, rest);
    LeadDigitsOf(whole, "." + r);
    assert t[|whole| + 1..] == r && t[|whole|] == '.';
    StodDot(t, r, whole, frac);
  }

  lemma StodDot(t: string, r: string, whole: string, frac: string)
    requires AllDigits(whole) && AllDigits(frac)
    requires LeadDigits(t) == |whole| < |t| && t[|whole|] == '.' && t[..|whole|] == whole && t[|whole| + 1..] == r
    requires LeadDigits(r) == |frac| && r[..|frac|] == frac
    ensures Stod(t) == if |whole| + |frac| == 0 then None
                       else Some(DecValue(whole) as real + DecValue(frac) as real / Pow10(|frac|) as real)
  {
    hide DecValue, Pow10, LeadDigits, AllDigits;
  }

  /** A numeral is made of digits and dots, and has a digit in front or right after a leading dot. */
  lemma {:induction false} NumeralIff(t: string)
    ensures IsNumeral(t) <==>
            && (forall i | 0 <= i < |t| :: t[i] in DIGITS || t[i] == '.')
            && (|| (|t| > 0 && t[0] in DIGITS)
                || (|t| > 1 && t[0] == '.' && t[1] in DIGITS))
  {
    forall c {
      DigitsAre(c);
    }
    if t != "" {
      DigitRun(t);
      DigitRun(t[1..]);
    }
  }

  lemma DigitRun(s: string)
    ensures LeadDigits(s) == 0 <==> s == "" || !IsDigit(s[0])
  {
  }

  lemma {:induction false} BlanksAre(c: char)
    ensures IsSpace(c) <==> c in BLANKS
  {
  }

  lemma {:induction false} SpacesOf(gap: string, rest: string)
    requires (forall i | 0 <= i < |gap| :: gap[i] in BLANKS) && (rest != "" ==> rest[0] !in BLANKS)
    ensures Spaces(gap + rest) == |gap| && (gap + rest)[|gap|..] == rest
  {
    forall i | 0 <= i < |gap| ensures IsSpace(gap[i]) {
      BlanksAre(gap[i]);
    }
    if rest != "" {
      BlanksAre(rest[0]);
    }
    SpacesGap(gap, rest);
  }

  /** std::stoi: blanks, a sign, digits and anything behind them; the limits are those of a 32-bit int. */
  lemma {:induction false} StoiReads(gap: string, sign: string, digits: string, rest: string)
    requires (forall i | 0 <= i < |gap| :: gap[i] in BLANKS) && sign in {"", "+", "-"}
    requires AllDigits(digits) && digits != "" && (rest != "" ==> rest[0] !in DIGITS)
    ensures var v := if sign == "-" then 0 - DecValue(digits) else DecValue(digits);
            Stoi(gap + (sign + (digits + rest))) == if -2147483648 <= v <= 2147483647 then Some(v) else None
  {
    hide DecValue, LeadDigits, Spaces;
    var u := digits + rest;
    var t := sign + u;
    SignedHead(sign, digits, rest);
    SpacesOf(gap, t);
    if rest != "" {
      DigitsAre(rest[0]);
    }
    LeadDigitsOf(digits, rest);
  }

  lemma SignedHead(sign: string, digits: string, rest: string)
    requires sign in {"", "+", "-"} && AllDigits(digits) && digits != ""
    ensures var t := sign + (digits + rest);
            && t[0] !in BLANKS
            && (sign == "" ==> t == digits + rest && t[0] != '-' && t[0] != '+')
            && (sign != "" ==> t[0] == sign[0] && t[1..] == digits + rest)
  {
    hide DecValue, LeadDigits, Spaces;
    assert (digits + rest)[0] == digits[0];
  }

  // ---------------------------------------------------------------- tokens

  /** Each of the six blanks is skipped. */
  lemma {:induction false} BlankSkipped(c: char, s: string, v: real)
    requires c in BLANKS
    ensures Tokens([c] + s, v) == Tokens(s, v)
  {
    hide Stod, Operator;
    BlanksAre(c);
    var t := [c] + s;
    assert t[1..] == s && Spaces(t) == 1 + Spaces(s) && t[Spaces(t)..] == s[Spaces(s)..];
    if Next(s, v).Lexed? {
      assert t[Next(t, v).used..] == s[Next(s, v).used..];
    }
  }

  lemma {:induction false} NothingLeft(v: real)
    ensures Tokens("", v) == []
  {
  }

  /** The longest run of digits and dots is one token, or an exception. */
  lemma {:induction false} NumberTaken(t: string, rest: string, v: real)
    requires t != "" && forall i | 0 <= i < |t| :: t[i] in DIGITS || t[i] == '.'
    requires rest != "" ==> rest[0] !in DIGITS && rest[0] != '.'
    ensures Tokens(t + rest, v) ==
            match Stod(t) case None => [Bad] case Some(x) => [N(x)] + Tokens(rest, x)
  {
    hide Stod;
    forall c {
      DigitsAre(c);
    }
    BlanksAre(t[0]);
    var s := t + rest;
    assert s[0] == t[0] && Spaces(s) == 0 && s[0..] == s;
    NumberRunText(t, rest);
    assert s[..|t|] == t && s[|t|..] == rest;
  }

  /** A character that is no blank and starts no number is taken as Operator says. */
  lemma OperatorTaken(s: string, v: real)
    requires s != "" && s[0] !in BLANKS && s[0] !in DIGITS && s[0] != '.'
    ensures var (kind, n) := Operator(s);
            && n <= |s|
            && Tokens(s, v) ==
               (if kind == '=' then [Bad] else if kind == '\0' then [] else [TokenOf(kind, v)] + Tokens(s[n..], v))
  {
    hide Stod;
    DigitsAre(s[0]);
    BlanksAre(s[0]);
    assert Spaces(s) == 0 && s[0..] == s;
  }

  /** The six operators of two characters; `!=` is a number token with the number read last. */
  lemma {:induction false} TwoCharacters(s: string, v: real)
    ensures Tokens("&&" + s, v) == [Sym('&')] + Tokens(s, v)
    ensures Tokens("||" + s, v) == [Sym('|')] + Tokens(s, v)
    ensures Tokens("<=" + s, v) == [Sym('l')] + Tokens(s, v)
    ensures Tokens(">=" + s, v) == [Sym('g')] + Tokens(s, v)
    ensures Tokens("==" + s, v) == [Sym('e')] + Tokens(s, v)
    ensures Tokens("!=" + s, v) == [N(v)] + Tokens(s, v)
  {
    hide Tokens;
    forall m | m in {"&&", "||", "<=", ">=", "==", "!="}
      ensures Tokens(m + s, v) == [TokenOf(Operator(m).0, v)] + Tokens(s, v)
    {
      OperatorTaken(m + s, v);
      assert (m + s)[2..] == s && (m + s)[0] == m[0] && (m + s)[1] == m[1];
    }
  }

  lemma OperatorAlone(m: char, s: string, v: real)
    requires m in "&|<>!=" && (s != "" ==> s[0] != (if m == '&' then '&' else if m == '|' then '|' else '='))
    ensures var kind := Operator([m] + s).0;
            && Operator([m] + s).1 == 1
            && Tokens([m] + s, v) == if kind == '=' then [Bad] else [TokenOf(kind, v)] + Tokens(s, v)
  {
    hide Tokens;
    OperatorTaken([m] + s, v);
    assert ([m] + s)[0] == m && ([m] + s)[1..] == s;
  }

  /** Their first characters alone; a lone `=` is an exception. */
  lemma {:induction false} OneOfTwo(s: string, v: real)
    ensures (s != "" ==> s[0] != '&') ==> Tokens("&" + s, v) == [Sym('a')] + Tokens(s, v)
    ensures (s != "" ==> s[0] != '|') ==> Tokens("|" + s, v) == [Sym('o')] + Tokens(s, v)
    ensures (s != "" ==> s[0] != '=') ==>
              && Tokens("<" + s, v) == [Sym('<')] + Tokens(s, v)
              && Tokens(">" + s, v) == [Sym('>')] + Tokens(s, v)
              && Tokens("!" + s, v) == [Sym('!')] + Tokens(s, v)
              && Tokens("=" + s, v) == [Bad]
  {
    hide Tokens;
    forall m | m in "&|<>!=" && (s != "" ==> s[0] != (if m == '&' then '&' else if m == '|' then '|' else '='))
      ensures var kind := Operator([m] + s).0;
              Tokens([m] + s, v) == if kind == '=' then [Bad] else [TokenOf(kind, v)] + Tokens(s, v)
    {
      OperatorAlone(m, s, v);
    }
  }

  /**
   Any other character is a token by itself. So the letters a, o, l, g, e stand for the operators
   whose token characters they are, and n for the number read last.
   */
  lemma {:induction false} OtherCharacter(c: char, s: string, v: real)
    requires c !in BLANKS && c !in DIGITS && c !in ".&|<>!=" && c != '\0'
    ensures Tokens([c] + s, v) == [if c == 'n' then N(v) else Sym(c)] + Tokens(s, v)
  {
    OperatorTaken([c] + s, v);
    assert ([c] + s)[1..] == s;
  }

  /** A NUL ends the formula. */
  lemma {:induction false} NulEnds(s: string, v: real)
    ensures Tokens(['\0'] + s, v) == []
  {
    OperatorTaken(['\0'] + s, v);
  }
}
