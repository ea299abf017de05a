/** Python's ordering of `str` values (code point by code point, a proper
    prefix first) and the sorted listings built on it: `sorted(...)` over
    the queue's file names and the descending sort of run directories. */
module Order {

  /** `a <= b` for Python strings. */
  predicate LessEq(a: string, b: string)
    decreases |a|
  {
    |a| == 0 || (|b| > 0 && (a[0] < b[0] || (a[0] == b[0] && LessEq(a[1..], b[1..]))))
  }

  /** `a < b` for Python strings. */
  predicate Less(a: string, b: string) {
    LessEq(a, b) && a != b
  }

  lemma {:induction false} LessEqReflexive(a: string)
    ensures LessEq(a, a)
    decreases |a|
  {
    if |a| > 0 {
      LessEqReflexive(a[1..]);
    }
  }

  lemma {:induction false} LessEqTotal(a: string, b: string)
    ensures LessEq(a, b) || LessEq(b, a)
    decreases |a|
  {
    if |a| > 0 && |b| > 0 && a[0] == b[0] {
      LessEqTotal(a[1..], b[1..]);
    }
  }

  lemma {:induction false} LessEqAntisymmetric(a: string, b: string)
    requires LessEq(a, b) && LessEq(b, a)
    ensures a == b
    decreases |a|
  {
    if |a| > 0 {
      LessEqAntisymmetric(a[1..], b[1..]);
      assert a == [a[0]] + a[1..] && b == [b[0]] + b[1..];
    }
  }

  lemma {:induction false} LessEqTransitive(a: string, b: string, c: string)
    requires LessEq(a, b) && LessEq(b, c)
    ensures LessEq(a, c)
    decreases |a|
  {
    if |a| > 0 && a[0] == b[0] && b[0] == c[0] {
      LessEqTransitive(a[1..], b[1..], c[1..]);
    }
  }

  /** Two strings that agree up to position `i` and differ there are
      ordered by their characters at `i`. */
  lemma {:induction false} LessAtFirstDifference(a: string, b: string, i: nat)
    requires i < |a| && i < |b| && a[..i] == b[..i] && a[i] < b[i]
    ensures Less(a, b)
    decreases i
  {
    if i > 0 {
      assert a[0] == a[..i][0] == b[..i][0] == b[0];
      assert a[1..][..i - 1] == a[..i][1..] == b[..i][1..] == b[1..][..i - 1];
      LessAtFirstDifference(a[1..], b[1..], i - 1);
    }
  }

  /** The strict order is asymmetric. */
  lemma LessAsymmetric(a: string, b: string)
    requires Less(a, b)
    ensures !LessEq(b, a)
  {
    if LessEq(b, a) {
      LessEqAntisymmetric(a, b);
    }
  }

  /** `s` is in strictly increasing order. */
  predicate Ascending(s: seq<string>) {
    forall i, j :: 0 <= i < j < |s| ==> Less(s[i], s[j])
  }

  /** `s` is in strictly decreasing order. */
  predicate Descending(s: seq<string>) {
    forall i, j :: 0 <= i < j < |s| ==> Less(s[j], s[i])
  }

  /** A strictly increasing listing holds no element twice. */
  lemma AscendingDistinct(s: seq<string>)
    requires Ascending(s)
    ensures forall i, j :: 0 <= i < j < |s| ==> s[i] != s[j]
  {
  }

  /** The first element of a strictly decreasing listing is its largest. */
  lemma HeadIsLargest(s: seq<string>, x: string)
    requires Descending(s) && x in s
    ensures x == s[0] || Less(x, s[0])
  {
    var i :| 0 <= i < |s| && s[i] == x;
  }

  /** A set has only one strictly decreasing listing. */
  lemma {:induction false} DescendingUnique(a: seq<string>, b: seq<string>)
    requires Descending(a) && Descending(b)
    requires forall x :: x in a <==> x in b
    ensures a == b
    decreases |a|
  {
    if |b| > 0 {
      assert b[0] in a;
    }
    if |a| > 0 {
      assert a[0] in b;
      HeadIsLargest(b, a[0]);
      HeadIsLargest(a, b[0]);
      if a[0] != b[0] {
        LessAsymmetric(a[0], b[0]);
      }
      assert a[0] == b[0];
      forall x | x in a[1..]
        ensures x in b[1..]
      {
        var k :| 1 <= k < |a| && a[k] == x;
        assert Less(a[k], a[0]);
        assert x in b && x != b[0];
      }
      forall x | x in b[1..]
        ensures x in a[1..]
      {
        var k :| 1 <= k < |b| && b[k] == x;
        assert Less(b[k], b[0]);
        assert x in a && x != a[0];
      }
      DescendingUnique(a[1..], b[1..]);
      assert a == [a[0]] + a[1..] && b == [b[0]] + b[1..];
    }
  }

  predicate IsLeast(m: string, s: set<string>) {
    m in s && forall x :: x in s ==> LessEq(m, x)
  }

  lemma {:induction false} LeastExists(s: set<string>)
    requires s != {}
    ensures exists m :: IsLeast(m, s)
    decreases s
  {
    var x :| x in s;
    if s - {x} == {} {
      assert s == {x};
      LessEqReflexive(x);
      assert IsLeast(x, s);
    } else {
      LeastExists(s - {x});
      var m :| IsLeast(m, s - {x});
      LessEqTotal(m, x);
      if LessEq(m, x) {
        assert IsLeast(m, s);
      } else {
        forall y | y in s ensures LessEq(x, y) {
          if y != x {
            LessEqTransitive(x, m, y);
          } else {
            LessEqReflexive(x);
          }
        }
        assert IsLeast(x, s);
      }
    }
  }

  lemma LeastUnique(s: set<string>)
    ensures forall m, n :: IsLeast(m, s) && IsLeast(n, s) ==> m == n
  {
    forall m, n | IsLeast(m, s) && IsLeast(n, s) ensures m == n {
      LessEqAntisymmetric(m, n);
    }
  }

  /** `sorted(s)`: the elements of `s`, each once, in increasing order. */
  function SortedSet(s: set<string>): (r: seq<string>)
    ensures Ascending(r)
    ensures forall x :: x in r <==> x in s
    ensures |r| == |s|
    decreases s
  {
    if s == {} then []
    else
      LeastExists(s);
      LeastUnique(s);
      var m :| IsLeast(m, s);
      var rest := SortedSet(s - {m});
      assert s == (s - {m}) + {m};
      [m] + rest
  }

  function Reverse(s: seq<string>): (r: seq<string>)
    ensures |r| == |s|
    ensures forall i :: 0 <= i < |s| ==> r[i] == s[|s| - 1 - i]
  {
    seq(|s|, i requires 0 <= i < |s| => s[|s| - 1 - i])
  }

  /** `sorted(s, reverse=True)`: the elements of `s`, each once, in
      decreasing order. */
  function SortedSetDescending(s: set<string>): (r: seq<string>)
    ensures Descending(r)
    ensures forall x :: x in r <==> x in s
    ensures |r| == |s|
  {
    var up := SortedSet(s);
    var r := Reverse(up);
    assert forall x :: x in r <==> x in up by {
      forall x | x in up ensures x in r {
        var i :| 0 <= i < |up| && up[i] == x;
        assert r[|up| - 1 - i] == x;
      }
    }
    r
  }
}
