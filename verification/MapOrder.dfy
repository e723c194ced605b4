/** The order in which a std::map with string keys is walked. */
module MapOrder {
  /** operator<= on std::string: compare character by character, a prefix comes first. */
  predicate Le(a: string, b: string) {
    a == "" || (b != "" && (a[0] < b[0] || (a[0] == b[0] && Le(a[1..], b[1..]))))
  }

  /** The first character in which they differ decides; if there is none, the length does. */
  lemma {:induction false} LeIff(a: string, b: string, i: nat)
    requires i <= |a| && i <= |b| && a[..i] == b[..i]
    requires i == |a| || i == |b| || a[i] != b[i]
    ensures Le(a, b) <==> i == |a| || (i < |b| && a[i] < b[i])
  {
    if i > 0 {
      assert a[0] == a[..i][0] && b[0] == b[..i][0];
      assert a[1..][..i - 1] == a[..i][1..] && b[1..][..i - 1] == b[..i][1..];
      LeIff(a[1..], b[1..], i - 1);
    }
  }

  lemma LeTotal(a: string, b: string)
    ensures Le(a, b) || Le(b, a)
  {
  }

  lemma LeTransitive(a: string, b: string, c: string)
    requires Le(a, b) && Le(b, c)
    ensures Le(a, c)
  {
  }

  lemma LeAntisymmetric(a: string, b: string)
    requires Le(a, b) && Le(b, a)
    ensures a == b
  {
    if a != "" {
      LeAntisymmetric(a[1..], b[1..]);
      assert a == [a[0]] + a[1..] && b == [b[0]] + b[1..];
    }
  }

  predicate IsLeast(k: string, keys: set<string>) {
    k in keys && forall j | j in keys :: Le(k, j)
  }

  lemma LeastExists(keys: set<string>)
    requires keys != {}
    ensures exists k :: IsLeast(k, keys)
  {
    var x :| x in keys;
    LeTotal(x, x);
    if keys == {x} {
      assert IsLeast(x, keys);
    } else {
      var rest := keys - {x};
      assert keys == rest + {x};
      LeastExists(rest);
      var y :| IsLeast(y, rest);
      if Le(x, y) {
        forall j | j in keys ensures Le(x, j) {
          if j != x { LeTransitive(x, y, j); }
        }
        assert IsLeast(x, keys);
      } else {
        LeTotal(x, y);
        assert IsLeast(y, keys);
      }
    }
  }

  lemma LeastUnique(keys: set<string>)
    ensures forall j, k | IsLeast(j, keys) && IsLeast(k, keys) :: j == k
  {
    forall j, k | IsLeast(j, keys) && IsLeast(k, keys) ensures j == k {
      LeAntisymmetric(j, k);
    }
  }

  function Least(keys: set<string>): (k: string)
    requires keys != {}
    ensures IsLeast(k, keys)
  {
    LeastExists(keys);
    LeastUnique(keys);
    var k :| k in keys && IsLeast(k, keys);
    k
  }

  function Ascending(keys: set<string>): seq<string> {
    if keys == {} then []
    else
      var k := Least(keys);
      [k] + Ascending(keys - {k})
  }

  predicate NoDuplicates(s: seq<string>) {
    forall i, j | 0 <= i < j < |s| :: s[i] != s[j]
  }

  /** The walk visits every key once, smallest first. */
  lemma {:induction false} AscendingWalk(keys: set<string>)
    ensures var s := Ascending(keys);
            && NoDuplicates(s)
            && (forall k :: k in s <==> k in keys)
            && (forall i, j | 0 <= i < j < |s| :: Le(s[i], s[j]))
  {
    if keys != {} {
      var k := Least(keys);
      AscendingWalk(keys - {k});
      var rest := Ascending(keys - {k});
      assert Ascending(keys) == [k] + rest;
      forall j | j in ([k] + rest) ensures j in keys {}
      forall j | j in keys ensures j in [k] + rest {}
    }
  }
}
