/**
 replaceRangeStr of ExpParser.cpp: every range first..end is replaced by what a
 callback makes of the text between, the search starting over each time.
 The callback may throw, which is the result None.
 */
module ReplaceRange {
  import opened Base
  import opened Tool

  type Callback = string -> Option<string>

  /** The first range of s: what comes before it, what it encloses, what comes after. */
  function FirstRange(s: string, first: char, end: char): (r: Option<(string, string, string)>)
    ensures r.Some? ==> |r.value.2| < |s|
  {
    match IndexOf(s, first)
    case None => None
    case Some(i) =>
      var t := s[i + 1..];
      match IndexOf(t, end)
      case None => None
      case Some(j) => Some((s[..i], t[..j], t[j + 1..]))
  }

  /** One left-to-right pass; the reference the restarting loop is compared with. */
  function Pass(s: string, first: char, end: char, f: Callback): Option<string>
    decreases |s|
  {
    match FirstRange(s, first, end)
    case None => Some(s)
    case Some((before, src, after)) =>
      match f(src)
      case None => None
      case Some(d) => Prepend(before + d, Pass(after, first, end, f))
  }

  function Prepend(p: string, r: Option<string>): Option<string> {
    match r
    case None => None
    case Some(s) => Some(p + s)
  }

  function Count(s: string, c: char): nat {
    if s == [] then 0 else (if s[0] == c then 1 else 0) + Count(s[1..], c)
  }

  lemma {:induction false} CountConcat(a: string, b: string, c: char)
    ensures Count(a + b, c) == Count(a, c) + Count(b, c)
  {
    if a == [] {
      assert a + b == b;
    } else {
      assert (a + b)[1..] == a[1..] + b;
      CountConcat(a[1..], b, c);
    }
  }

  lemma {:induction false} CountAbsent(s: string, c: char)
    requires c !in s
    ensures Count(s, c) == 0
  {
    if s != [] {
      CountAbsent(s[1..], c);
    }
  }

  /** The text of a range between what comes before and after it. */
  function Ranged(a: string, src: string, c: string, first: char, end: char): string {
    a + [first] + (src + [end] + c)
  }

  lemma {:induction false} FirstRangeHere(a: string, src: string, c: string, first: char, end: char)
    requires first !in a && end !in src
    ensures FirstRange(Ranged(a, src, c, first, end), first, end) == Some((a, src, c))
  {
    var t := src + [end] + c;
    var s := Ranged(a, src, c, first, end);
    IndexOfHere(a, t, first);
    IndexOfHere(src, c, end);
    assert s[|a| + 1..] == t && s[..|a|] == a;
    assert t[|src| + 1..] == c && t[..|src|] == src;
  }

  lemma {:induction false} FirstRangeSplits(s: string, first: char, end: char)
    requires FirstRange(s, first, end).Some?
    ensures var (a, src, c) := FirstRange(s, first, end).value;
            first !in a && end !in src && s == Ranged(a, src, c, first, end)
  {
    IndexOfFirst(s, first);
    var i := IndexOf(s, first).value;
    var t := s[i + 1..];
    IndexOfFirst(t, end);
    var j := IndexOf(t, end).value;
    CutAt(t, j);
    CutAt(s, i);
  }

  lemma {:induction false} FirstRangePrefix(p: string, s: string, first: char, end: char)
    requires first !in p
    ensures FirstRange(p + s, first, end)
         == match FirstRange(s, first, end) case None => None case Some((a, src, c)) => Some((p + a, src, c))
  {
    hide IndexOf;
    IndexOfPrefix(p, s, first);
    if IndexOf(s, first).Some? {
      var i := IndexOf(s, first).value;
      assert (p + s)[|p| + i + 1..] == s[i + 1..];
      assert (p + s)[..|p| + i] == p + s[..i];
    }
  }

  /** Text before the first opening mark is copied. */
  lemma {:induction false} PassPrefix(p: string, s: string, first: char, end: char, f: Callback)
    requires first !in p
    ensures Pass(p + s, first, end, f) == Prepend(p, Pass(s, first, end, f))
  {
    hide FirstRange;
    FirstRangePrefix(p, s, first, end);
    match FirstRange(s, first, end)
    case None =>
    case Some((a, src, c)) =>
      if f(src).Some? {
        var d, r := f(src).value, Pass(c, first, end, f);
        if r.Some? {
          assert p + (a + d + r.value) == p + a + d + r.value;
        }
      }
  }

  /** One replacement, after which the loop starts over, does not change the result. */
  lemma {:induction false} PassStep(a: string, src: string, c: string, d: string, first: char, end: char, f: Callback)
    requires first !in a && end !in src && first !in d && f(src) == Some(d)
    ensures Pass(a + d + c, first, end, f) == Pass(Ranged(a, src, c, first, end), first, end, f)
    ensures Count(a + d + c, first) < Count(Ranged(a, src, c, first, end), first)
  {
    FirstRangeHere(a, src, c, first, end);
    PassPrefix(a + d, c, first, end, f);
    CountConcat(a + d, c, first);
    CountAbsent(a + d, first);
    CountConcat(a + [first], src + [end] + c, first);
    CountConcat(a, [first], first);
    CountConcat(src + [end], c, first);
  }

  /** What is left holds no range any more: a second pass changes nothing. */
  lemma {:induction false} PassIdempotent(s: string, first: char, end: char, f: Callback)
    requires forall x :: f(x).Some? ==> first !in f(x).value
    requires Pass(s, first, end, f).Some?
    ensures var r := Pass(s, first, end, f).value; Pass(r, first, end, f) == Some(r)
    decreases |s|
  {
    match FirstRange(s, first, end)
    case None =>
    case Some((a, src, c)) =>
      FirstRangeSplits(s, first, end);
      PassIdempotent(c, first, end, f);
      PassPrefix(a + f(src).value, Pass(c, first, end, f).value, first, end, f);
  }

  /** The two searches of the loop, and the text they cut out. */
  lemma {:induction false} SearchesFirstRange(s: string, first: char, end: char)
    requires first != end
    ensures var pos1 := Find(s, first, 0);
            if pos1.None? || Find(s, end, pos1.value).None? then FirstRange(s, first, end).None?
            else
              var pos2 := Find(s, end, pos1.value);
              && pos1.value < pos2.value
              && FirstRange(s, first, end)
                 == Some((s[..pos1.value], s[pos1.value + 1..pos2.value], s[pos2.value + 1..]))
  {
    hide IndexOf;
    assert s[0..] == s;
    if IndexOf(s, first).Some? {
      var i := IndexOf(s, first).value;
      var t := s[i + 1..];
      assert s[i..] == [first] + t;
      IndexOfPrefix([first], t, end);
      if IndexOf(t, end).Some? {
        var j := IndexOf(t, end).value;
        assert t[..j] == s[i + 1..i + 1 + j] && t[j + 1..] == s[i + 1 + j + 1..];
      }
    }
  }

  /** A callback that writes a range back reproduces the text, and the original loop goes on for ever. */
  lemma {:induction false} ReplacementReproduces(s: string, first: char, end: char, f: Callback)
    requires FirstRange(s, first, end).Some?
    requires forall src :: f(src) == Some([first] + src + [end])
    ensures var (before, src, after) := FirstRange(s, first, end).value;
            before + f(src).value + after == s
  {
    hide FirstRange;
    FirstRangeSplits(s, first, end);
    var (before, src, after) := FirstRange(s, first, end).value;
    assert f(src) == Some([first] + src + [end]);
  }

  /** The callback must not produce the opening mark: the C++ loop could run forever. */
  method ReplaceRangeStr(first: char, end: char, f: Callback, str: string) returns (r: Option<string>)
    requires first != end && forall x :: f(x).Some? ==> first !in f(x).value
    ensures r == Pass(str, first, end, f)
  {
    hide Count, Find, FirstRange;
    var cur := str;
    while true
      invariant Pass(cur, first, end, f) == Pass(str, first, end, f)
      decreases Count(cur, first)
    {
      SearchesFirstRange(cur, first, end);
      var pos1 := Find(cur, first, 0);
      if pos1.None? {
        break;
      }
      var pos2 := Find(cur, end, pos1.value);
      if pos2.None? {
        break;
      }
      var src := cur[pos1.value + 1..pos2.value];
      var dst := f(src);
      if dst.None? {
        return None;
      }
      FirstRangeSplits(cur, first, end);
      PassStep(cur[..pos1.value], src, cur[pos2.value + 1..], dst.value, first, end, f);
      cur := cur[..pos1.value] + dst.value + cur[pos2.value + 1..];
    }
    r := Some(cur);
  }
}
