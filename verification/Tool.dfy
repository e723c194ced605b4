/** splitStr of Tool.cpp, for the one-character separators it is called with. */
module Tool {
  import opened Base

  /** Position of the first c in s: std::string::find(c). */
  function IndexOf(s: string, c: char): (r: Option<nat>)
    ensures r.Some? ==> r.value < |s| && s[r.value] == c
  {
    if s == [] then None
    else if s[0] == c then Some(0)
    else
      match IndexOf(s[1..], c)
      case None => None
      case Some(i) => Some(i + 1)
  }

  /** std::string::find(c, from). */
  function Find(s: string, c: char, from: nat): (r: Option<nat>)
    requires from <= |s|
    ensures r.Some? ==> from <= r.value < |s|
  {
    match IndexOf(s[from..], c)
    case None => None
    case Some(i) => Some(from + i)
  }

  /** IndexOf finds the first occurrence, if there is one. */
  lemma {:induction false} IndexOfFirst(s: string, c: char)
    ensures IndexOf(s, c).None? <==> c !in s
    ensures IndexOf(s, c).Some? ==> c !in s[..IndexOf(s, c).value]
  {
    if s != [] {
      IndexOfFirst(s[1..], c);
      if s[0] != c && IndexOf(s[1..], c).Some? {
        var i := IndexOf(s[1..], c).value;
        assert s[..i + 1] == [s[0]] + s[1..][..i];
      }
    }
  }

  lemma {:induction false} IndexOfPrefix(p: string, s: string, c: char)
    requires c !in p
    ensures IndexOf(p + s, c) == match IndexOf(s, c) case None => None case Some(i) => Some(|p| + i)
  {
    if p == [] {
      assert p + s == s;
    } else {
      assert (p + s)[1..] == p[1..] + s;
      IndexOfPrefix(p[1..], s, c);
    }
  }

  lemma {:induction false} IndexOfHere(p: string, rest: string, c: char)
    requires c !in p
    ensures IndexOf(p + [c] + rest, c) == Some(|p|)
  {
    Assoc(p, [c], rest);
    IndexOfPrefix(p, [c] + rest, c);
  }

  // ---------------------------------------------------------------- fields

  /** The separator-free fields of s, empty ones included. */
  function Fields(s: string, sep: char): (r: seq<string>)
    ensures |r| > 0
  {
    if s == [] then [""]
    else
      var r := Fields(s[1..], sep);
      if s[0] == sep then [""] + r else [[s[0]] + r[0]] + r[1..]
  }

  function Join(parts: seq<string>, sep: char): string {
    if parts == [] then ""
    else if |parts| == 1 then parts[0]
    else parts[0] + [sep] + Join(parts[1..], sep)
  }

  predicate SepFree(parts: seq<string>, sep: char) {
    forall i | 0 <= i < |parts| :: sep !in parts[i]
  }

  predicate NoneEmpty(parts: seq<string>) {
    forall i | 0 <= i < |parts| :: parts[i] != ""
  }

  /** Fields splits s: joining gives s back and no field holds the separator. */
  lemma {:induction false} FieldsJoin(s: string, sep: char)
    ensures Join(Fields(s, sep), sep) == s && SepFree(Fields(s, sep), sep)
  {
    if s != [] {
      FieldsJoin(s[1..], sep);
      var r := Fields(s[1..], sep);
      if s[0] == sep {
        assert Fields(s, sep)[1..] == r;
      } else {
        assert Fields(s, sep)[1..] == r[1..];
      }
    }
  }

  /** ... and Fields is the only such splitting. */
  lemma {:induction false} JoinFields(parts: seq<string>, sep: char)
    requires |parts| > 0 && SepFree(parts, sep)
    ensures Fields(Join(parts, sep), sep) == parts
  {
    if |parts| == 1 {
      FieldsWhole(parts[0], sep);
    } else {
      JoinFields(parts[1..], sep);
      FieldsHead(parts[0], Join(parts[1..], sep), sep);
    }
  }

  lemma {:induction false} FieldsWhole(s: string, sep: char)
    requires sep !in s
    ensures Fields(s, sep) == [s]
  {
    if s != [] {
      FieldsWhole(s[1..], sep);
      assert s == [s[0]] + s[1..];
    }
  }

  lemma {:induction false} FieldsHead(p: string, rest: string, sep: char)
    requires sep !in p
    ensures Fields(p + [sep] + rest, sep) == [p] + Fields(rest, sep)
  {
    var s := p + [sep] + rest;
    if p == [] {
      assert s[1..] == rest;
    } else {
      assert s[1..] == p[1..] + [sep] + rest;
      FieldsHead(p[1..], rest, sep);
      assert p == [p[0]] + p[1..];
    }
  }

  function DropEmpty(parts: seq<string>): (r: seq<string>)
    ensures NoneEmpty(r) && |r| <= |parts|
  {
    if parts == [] then []
    else if parts[0] == "" then DropEmpty(parts[1..])
    else [parts[0]] + DropEmpty(parts[1..])
  }

  lemma {:induction false} DropEmptyIs(parts: seq<string>)
    ensures DropEmpty(parts) == parts <==> NoneEmpty(parts)
  {
    if parts != [] {
      DropEmptyIs(parts[1..]);
      assert parts == [parts[0]] + parts[1..];
      assert NoneEmpty(parts) <==> parts[0] != "" && NoneEmpty(parts[1..]);
    }
  }

  /** What splitStr appends: the non-empty fields, or nothing when sep does not occur. */
  function Split(s: string, sep: char): seq<string> {
    if sep in s then DropEmpty(Fields(s, sep)) else []
  }

  /**
   splitStr inverts joining exactly for two or more non-empty parts: a single
   part has no separator to be found, and empty parts are dropped.
   */
  lemma {:induction false} SplitJoinIff(parts: seq<string>, sep: char)
    requires |parts| > 0 && SepFree(parts, sep)
    ensures Split(Join(parts, sep), sep) == parts <==> |parts| >= 2 && NoneEmpty(parts)
  {
    JoinFields(parts, sep);
    DropEmptyIs(parts);
    if |parts| >= 2 {
      assert Join(parts, sep)[|parts[0]|] == sep;
    }
  }

  /** One turn of splitStr's loop: the field before the next separator. */
  lemma {:induction false} FieldsStep(s: string, sep: char, i: nat)
    requires IndexOf(s, sep) == Some(i)
    ensures Fields(s, sep) == [s[..i]] + Fields(s[i + 1..], sep)
    ensures DropEmpty(Fields(s, sep)) == DropEmpty([s[..i]]) + DropEmpty(Fields(s[i + 1..], sep))
  {
    IndexOfFirst(s, sep);
    assert s == s[..i] + [sep] + s[i + 1..];
    FieldsHead(s[..i], s[i + 1..], sep);
    Tail(s[..i], Fields(s[i + 1..], sep));
  }

  lemma DropEmptyOne(p: string)
    ensures DropEmpty([p]) == if p == "" then [] else [p]
  {
  }

  method SplitStr(symbol: char, str: string, result: seq<string>) returns (r: seq<string>)
    ensures r == result + Split(str, symbol)
  {
    hide Fields, DropEmpty, IndexOf;
    r := result;
    var pos := 0;
    var pos1 := Find(str, symbol, 0);
    var bFind := false;
    assert str[0..] == str;
    IndexOfFirst(str, symbol);
    while pos1.Some?
      invariant pos <= |str| && pos1 == Find(str, symbol, pos)
      invariant bFind ==> symbol in str
      invariant !bFind ==> pos == 0 && r == result
      invariant result + DropEmpty(Fields(str, symbol)) == r + DropEmpty(Fields(str[pos..], symbol))
      decreases |str| - pos
    {
      ghost var left := str[pos..];
      var tmp := str[pos..pos1.value];
      FieldsStep(left, symbol, pos1.value - pos);
      assert left[..pos1.value - pos] == tmp && left[pos1.value - pos + 1..] == str[pos1.value + 1..];
      Assoc(r, DropEmpty([tmp]), DropEmpty(Fields(str[pos1.value + 1..], symbol)));
      DropEmptyOne(tmp);
      if tmp != "" {
        r := r + [tmp];
      }
      pos := pos1.value + 1;
      pos1 := Find(str, symbol, pos);
      bFind := true;
    }
    if !bFind {
      return;
    }
    IndexOfFirst(str[pos..], symbol);
    FieldsWhole(str[pos..], symbol);
    var tmp := str[pos..];
    DropEmptyOne(tmp);
    if tmp != "" {
      r := r + [tmp];
    }
  }
}
