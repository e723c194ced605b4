/**
 What replaceRangeStr does to the text of a template, whatever the callback makes of its references:
 exactly when no `<` of an operator has a `>` behind it, each reference is replaced and nothing else.
 */
module Substitution {
  import opened Base
  import opened Arith
  import opened Formula
  import opened Printing
  import opened ReplaceRange
  import Tool

  /** The text that replaces each reference. */
  type Texts = (string, nat) -> string

  /** What stands between `<` and `>`. */
  function RefText(d: string, i: nat): string {
    d + "#" + IntText(i)
  }

  /** The text of lexemes with the references replaced. */
  function FillText(xs: seq<Lexeme>, gaps: seq<string>, tail: string, texts: Texts): string
    requires |gaps| == |xs|
  {
    if xs == [] then tail
    else
      gaps[0] + (if xs[0].Ref? then texts(xs[0].device, xs[0].id) else Text(xs[0])) +
      FillText(xs[1..], gaps[1..], tail, texts)
  }

  predicate Clean(x: Lexeme) {
    Sound(x) && (x.Ref? ==> '<' !in x.device && '>' !in x.device)
  }

  /** Marks and numerals as the printer writes them, device names without the marks of a range. */
  predicate AllClean(xs: seq<Lexeme>) {
    forall i | 0 <= i < |xs| :: Clean(xs[i])
  }

  /** Does the text close a range? */
  predicate HasCloser(x: Lexeme) {
    '>' in Text(x)
  }

  /** An operator whose text would open a range. */
  predicate Opener(x: Lexeme) {
    x.Mark? && '<' in x.text
  }

  predicate NoCloser(xs: seq<Lexeme>) {
    forall i | 0 <= i < |xs| :: !HasCloser(xs[i])
  }

  /** No `<` or `<=` has a `>` behind it. */
  predicate Separable(xs: seq<Lexeme>) {
    xs == [] || ((Opener(xs[0]) ==> NoCloser(xs[1..])) && Separable(xs[1..]))
  }

  /** The callback resolves the references of xs to the texts. */
  ghost predicate Resolves(f: Callback, xs: seq<Lexeme>, texts: Texts) {
    forall i | 0 <= i < |xs| && xs[i].Ref? ::
      f(RefText(xs[i].device, xs[i].id)) == Some(texts(xs[i].device, xs[i].id))
  }

  lemma MarkShape(m: string)
    requires m in MARKS && '<' in m
    ensures m == "<" || m == "<="
  {
  }

  lemma {:induction false} NoClosePass(s: string, f: Callback)
    requires '<' !in s || '>' !in s
    ensures Pass(s, '<', '>', f) == Some(s)
  {
    Tool.IndexOfFirst(s, '<');
    if Tool.IndexOf(s, '<').Some? {
      Tool.IndexOfFirst(s[Tool.IndexOf(s, '<').value + 1..], '>');
    }
  }

  lemma RefRanged(gap: string, x: Lexeme, rest: string)
    requires x.Ref?
    ensures gap + Text(x) + rest == Ranged(gap, RefText(x.device, x.id), rest, '<', '>')
  {
  }

  /** A text without a closing mark holds no reference and is left as it is. */
  lemma {:induction false} SpellNoClose(xs: seq<Lexeme>, gaps: seq<string>, tail: string, texts: Texts)
    requires Layout(xs, gaps, tail) && NoCloser(xs)
    ensures '>' !in Spell(xs, gaps, tail)
    ensures FillText(xs, gaps, tail, texts) == Spell(xs, gaps, tail)
  {
    hide IntText;
    if xs == [] {
    } else {
      assert AllSpaces(gaps[0]) && !HasCloser(xs[0]);
      SpellNoClose(xs[1..], gaps[1..], tail, texts);
    }
  }

  /** The substitution pass replaces each reference, and nothing else. */
  lemma {:induction false} SubstituteText(xs: seq<Lexeme>, gaps: seq<string>, tail: string, texts: Texts, f: Callback)
    requires Layout(xs, gaps, tail) && AllClean(xs) && Separable(xs) && Resolves(f, xs, texts)
    ensures Pass(Spell(xs, gaps, tail), '<', '>', f) == Some(FillText(xs, gaps, tail, texts))
  {
    hide FirstRange, Pass, IntText, NoCloser, Stod;
    if xs == [] {
      NoClosePass(tail, f);
    } else {
      var x, gap := xs[0], gaps[0];
      var ys, hs := xs[1..], gaps[1..];
      assert AllSpaces(gap) && Clean(x);
      if Opener(x) {
        MarkShape(x.text);
        SpellNoClose(ys, hs, tail, texts);
        NoClosePass(Spell(xs, gaps, tail), f);
      } else {
        SubstituteText(ys, hs, tail, texts, f);
        if x.Ref? {
          SubstituteRef(x, gap, Spell(ys, hs, tail), texts, f);
        } else {
          PassPrefix(gap + Text(x), Spell(ys, hs, tail), '<', '>', f);
        }
      }
    }
  }

  lemma SubstituteRef(x: Lexeme, gap: string, rest: string, texts: Texts, f: Callback)
    requires x.Ref? && '>' !in x.device && AllSpaces(gap)
    requires f(RefText(x.device, x.id)) == Some(texts(x.device, x.id))
    ensures Pass(gap + Text(x) + rest, '<', '>', f)
         == Prepend(gap + texts(x.device, x.id), Pass(rest, '<', '>', f))
  {
    hide FirstRange;
    RefRanged(gap, x, rest);
    FirstRangeHere(gap, RefText(x.device, x.id), rest, '<', '>');
  }

  // ---------------------------------------------------------------- and when an operator is swallowed

  /** What follows the last c. */
  function AfterLast(s: string, c: char): (r: string)
    ensures |r| <= |s|
  {
    if s == "" then ""
    else if c in s[1..] then AfterLast(s[1..], c)
    else if s[0] == c then s[1..]
    else s
  }

  lemma {:induction false} AfterLastConcat(a: string, b: string, c: char)
    ensures AfterLast(a + b, c) == if c in b then AfterLast(b, c) else AfterLast(a, c) + b
  {
    if a == "" {
      assert a + b == b;
      if b != "" && c !in b {
        assert c !in b[1..];
      }
    } else {
      assert (a + b)[1..] == a[1..] + b;
      AfterLastConcat(a[1..], b, c);
      assert c in a[1..] + b <==> c in a[1..] || c in b;
    }
  }

  /** A pass leaves the opening marks behind the last closing mark, and no others. */
  lemma {:induction false} PassCount(s: string, f: Callback)
    requires forall x :: f(x).Some? ==> '<' !in f(x).value
    requires Pass(s, '<', '>', f).Some?
    ensures Count(Pass(s, '<', '>', f).value, '<') == Count(AfterLast(s, '>'), '<')
    decreases |s|
  {
    hide Count, AfterLast;
    match FirstRange(s, '<', '>')
    case None =>
      NoRangeCount(s);
    case Some((a, src, c)) =>
      hide FirstRange;
      FirstRangeSplits(s, '<', '>');
      PassCount(c, f);
      var d := f(src).value;
      CountConcat(a + d, Pass(c, '<', '>', f).value, '<');
      CountAbsent(a + d, '<');
      RangedAfterLast(a, src, c);
  }

  lemma RangedAfterLast(a: string, src: string, c: string)
    ensures AfterLast(Ranged(a, src, c, '<', '>'), '>') == AfterLast(c, '>')
  {
    var head := a + ['<'] + src;
    assert Ranged(a, src, c, '<', '>') == head + (['>'] + c);
    AfterLastConcat(head, ['>'] + c, '>');
    assert (['>'] + c)[0] == '>' && (['>'] + c)[1..] == c;
    if '>' !in c {
      AfterLastAbsent(c);
    }
  }

  lemma {:induction false} AfterLastAbsent(s: string)
    requires '>' !in s
    ensures AfterLast(s, '>') == s
  {
  }

  lemma {:induction false} NoRangeCount(s: string)
    requires FirstRange(s, '<', '>').None?
    ensures Count(s, '<') == Count(AfterLast(s, '>'), '<')
  {
    hide Count, AfterLast, Tool.IndexOf;
    Tool.IndexOfFirst(s, '<');
    match Tool.IndexOf(s, '<')
    case None =>
      CountAbsent(s, '<');
      AfterLastPart(s);
      CountAbsent(AfterLast(s, '>'), '<');
    case Some(i) =>
      var rest := s[i + 1..];
      Tool.IndexOfFirst(rest, '>');
      CutAt(s, i);
      Assoc(s[..i], ['<'], rest);
      OpenEnd(s[..i], ['<'] + rest);
  }

  lemma OpenEnd(a: string, b: string)
    requires '<' !in a && '>' !in b
    ensures Count(AfterLast(a + b, '>'), '<') == Count(a + b, '<')
  {
    hide Count, AfterLast;
    AfterLastConcat(a, b, '>');
    AfterLastPart(a);
    CountConcat(a, b, '<');
    CountConcat(AfterLast(a, '>'), b, '<');
    CountAbsent(a, '<');
    CountAbsent(AfterLast(a, '>'), '<');
  }

  lemma {:induction false} AfterLastPart(s: string)
    ensures forall x :: x in AfterLast(s, '>') ==> x in s
  {
    if s != "" && '>' in s[1..] {
      AfterLastPart(s[1..]);
    }
  }

  /** The opening marks of operators. */
  function Openers(xs: seq<Lexeme>): nat {
    if xs == [] then 0 else (if Opener(xs[0]) then 1 else 0) + Openers(xs[1..])
  }

  /** Replaced by texts without an opening mark, the template keeps those of its operators. */
  lemma {:induction false} FillCount(xs: seq<Lexeme>, gaps: seq<string>, tail: string, texts: Texts)
    requires Layout(xs, gaps, tail) && AllClean(xs) && forall d, i :: '<' !in texts(d, i)
    ensures Count(FillText(xs, gaps, tail, texts), '<') == Openers(xs)
  {
    hide Count, Stod;
    if xs == [] {
      CountAbsent(tail, '<');
    } else {
      var x, rest := xs[0], FillText(xs[1..], gaps[1..], tail, texts);
      assert Clean(x) && AllSpaces(gaps[0]);
      FillCount(xs[1..], gaps[1..], tail, texts);
      var t := if x.Ref? then texts(x.device, x.id) else Text(x);
      CountConcat(gaps[0] + t, rest, '<');
      if Opener(x) {
        OpenerCount(gaps[0], x);
      } else if x.Ref? {
        CountAbsent(gaps[0] + t, '<');
      } else {
        CountAbsent(gaps[0] + t, '<');
      }
    }
  }

  lemma OpenerCount(gap: string, x: Lexeme)
    requires AllSpaces(gap) && Clean(x) && Opener(x)
    ensures Count(gap + Text(x), '<') == 1 && '>' !in gap + Text(x)
  {
    MarkShape(x.text);
    CountConcat(gap, x.text, '<');
    CountAbsent(gap, '<');
    assert "<="[1..] == "=";
  }

  lemma {:induction false} NoCloserSpell(xs: seq<Lexeme>, gaps: seq<string>, tail: string)
    requires Layout(xs, gaps, tail)
    ensures NoCloser(xs) <==> '>' !in Spell(xs, gaps, tail)
  {
    hide IntText;
    if xs == [] {
    } else {
      assert AllSpaces(gaps[0]);
      NoCloserSpell(xs[1..], gaps[1..], tail);
      assert NoCloser(xs) <==> !HasCloser(xs[0]) && NoCloser(xs[1..]);
    }
  }

  /** Behind the last closing mark of the text stand at most the operators' marks, and fewer unless separable. */
  lemma {:induction false} SpellCount(xs: seq<Lexeme>, gaps: seq<string>, tail: string)
    requires Layout(xs, gaps, tail) && AllClean(xs)
    ensures Count(AfterLast(Spell(xs, gaps, tail), '>'), '<') <= Openers(xs)
    ensures !Separable(xs) ==> Count(AfterLast(Spell(xs, gaps, tail), '>'), '<') < Openers(xs)
  {
    hide Count, AfterLast, Stod, Text, NoCloser;
    if xs == [] {
      AfterLastPart(tail);
      CountAbsent(AfterLast(tail, '>'), '<');
    } else {
      var head, rest := gaps[0] + Text(xs[0]), Spell(xs[1..], gaps[1..], tail);
      assert Clean(xs[0]) && AllSpaces(gaps[0]);
      SpellCount(xs[1..], gaps[1..], tail);
      NoCloserSpell(xs[1..], gaps[1..], tail);
      AfterLastConcat(head, rest, '>');
      if '>' !in rest {
        NoCloserSeparable(xs[1..]);
        AfterLastAbsent(rest);
        HeadCount(gaps[0], xs[0]);
        CountConcat(AfterLast(head, '>'), rest, '<');
      }
    }
  }

  lemma {:induction false} NoCloserSeparable(xs: seq<Lexeme>)
    requires NoCloser(xs)
    ensures Separable(xs)
  {
    if xs != [] {
      NoCloserSeparable(xs[1..]);
    }
  }

  lemma HeadCount(gap: string, x: Lexeme)
    requires AllSpaces(gap) && Clean(x)
    ensures Count(AfterLast(gap + Text(x), '>'), '<') <= if Opener(x) then 1 else 0
  {
    hide Count, AfterLast, Stod, IntText;
    if Opener(x) {
      OpenerCount(gap, x);
      AfterLastAbsent(gap + Text(x));
    } else if x.Ref? {
      var body := gap + ("<" + x.device + "#" + IntText(x.id));
      assert gap + Text(x) == body + ">";
      AfterLastConcat(body, ">", '>');
      LastAlone();
      CountAbsent("", '<');
    } else {
      AfterLastPart(gap + Text(x));
      CountAbsent(AfterLast(gap + Text(x), '>'), '<');
    }
  }

  lemma LastAlone()
    ensures AfterLast(">", '>') == ""
  {
  }

  /**
   The pass replaces the references and nothing else exactly when no `<` of an operator has a `>`
   behind it; otherwise it swallows the operator.
   */
  lemma {:induction false} SubstitutionIff(xs: seq<Lexeme>, gaps: seq<string>, tail: string, texts: Texts, f: Callback)
    requires Layout(xs, gaps, tail) && AllClean(xs) && Resolves(f, xs, texts)
    requires (forall d, i :: '<' !in texts(d, i)) && forall x :: f(x).Some? ==> '<' !in f(x).value
    ensures Pass(Spell(xs, gaps, tail), '<', '>', f) == Some(FillText(xs, gaps, tail, texts)) <==> Separable(xs)
  {
    hide Pass, FillText, Spell, Count, AfterLast;
    var s := Spell(xs, gaps, tail);
    if Separable(xs) {
      SubstituteText(xs, gaps, tail, texts, f);
    } else if Pass(s, '<', '>', f).Some? {
      PassCount(s, f);
      SpellCount(xs, gaps, tail);
      FillCount(xs, gaps, tail, texts);
    }
  }
}
