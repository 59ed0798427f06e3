/** Value wrappers and the JavaScript string operations the agent relies on. */
module Util {

  datatype Option<+T> = None | Some(value: T)

  /** The value a JavaScript call returned, or the message of the error it threw. */
  datatype Result<+T> = Success(value: T) | Failure(error: string)

  function Min(a: int, b: int): int
  {
    if a <= b then a else b
  }

  /** `s.slice(0, n)`: the first `n` characters of `s`, or all of `s` when it is shorter. */
  function Take(s: string, n: nat): (r: string)
    ensures |r| == Min(n, |s|)
    ensures forall i :: 0 <= i < |r| ==> r[i] == s[i]
  {
    if |s| <= n then s else s[..n]
  }

  /** `s.startsWith(p)` */
  predicate StartsWith(s: string, p: string)
  {
    |p| <= |s| && s[..|p|] == p
  }

  /** `s.endsWith(x)` */
  predicate EndsWith(s: string, x: string)
  {
    |x| <= |s| && s[|s| - |x|..] == x
  }

  /** `s.includes(sub)`: `sub` occurs somewhere in `s`. */
  predicate Contains(s: string, sub: string)
    decreases |s|
  {
    StartsWith(s, sub) || (|s| > 0 && Contains(s[1..], sub))
  }

  /** `a < b` on JavaScript strings: lexicographic order on characters, a proper prefix first. */
  predicate LexLess(a: string, b: string)
    decreases |a|
  {
    |b| > 0 && (|a| == 0 || a[0] < b[0] || (a[0] == b[0] && LexLess(a[1..], b[1..])))
  }

  /** `sub` starts at position `i` of `s`. */
  predicate OccursAt(s: string, sub: string, i: nat)
  {
    i + |sub| <= |s| && s[i..i + |sub|] == sub
  }

  /** An occurrence of `sub` at position `i` of `s` is seen by `Contains`. */
  lemma {:induction false} ContainsAt(s: string, sub: string, i: nat)
    requires OccursAt(s, sub, i)
    ensures Contains(s, sub)
    decreases i
  {
    if i == 0 {
      assert s[..|sub|] == sub;
    } else {
      assert s[1..][i - 1..i - 1 + |sub|] == s[i..i + |sub|];
      ContainsAt(s[1..], sub, i - 1);
    }
  }

  /** Every occurrence `Contains` sees sits at some position of `s`. */
  lemma {:induction false} ContainsWitness(s: string, sub: string) returns (i: nat)
    requires Contains(s, sub)
    ensures OccursAt(s, sub, i)
    decreases |s|
  {
    if StartsWith(s, sub) {
      i := 0;
    } else {
      var j := ContainsWitness(s[1..], sub);
      assert s[1..][j..j + |sub|] == s[j + 1..j + 1 + |sub|];
      i := j + 1;
    }
  }

  /** No string is below itself. */
  lemma {:induction false} LexLessIrreflexive(a: string)
    ensures !LexLess(a, a)
    decreases |a|
  {
    if |a| > 0 {
      LexLessIrreflexive(a[1..]);
    }
  }

  /** Two concatenations whose first parts have equal lengths compare by their first parts,
      and by their second parts when the first parts are equal. */
  lemma {:induction false} LexLessConcat(x: string, y: string, x': string, y': string)
    requires |x| == |x'|
    ensures LexLess(x + y, x' + y') <==> LexLess(x, x') || (x == x' && LexLess(y, y'))
    ensures x + y == x' + y' <==> x == x' && y == y'
    decreases |x|
  {
    if |x| == 0 {
      assert x == x' == [];
      assert x + y == y && x' + y' == y';
    } else {
      assert (x + y)[0] == x[0] && (x' + y')[0] == x'[0];
      assert (x + y)[1..] == x[1..] + y && (x' + y')[1..] == x'[1..] + y';
      LexLessConcat(x[1..], y, x'[1..], y');
      if x[0] == x'[0] {
        assert x == x' <==> x[1..] == x'[1..] by {
          if x[1..] == x'[1..] {
            assert x == [x[0]] + x[1..] && x' == [x'[0]] + x'[1..];
          }
        }
        assert x + y == x' + y' <==> (x + y)[1..] == (x' + y')[1..] by {
          if (x + y)[1..] == (x' + y')[1..] {
            assert x + y == [x[0]] + (x + y)[1..] && x' + y' == [x'[0]] + (x' + y')[1..];
          }
        }
      } else {
        assert (x + y)[0] != (x' + y')[0];
        assert x != x';
      }
    }
  }

  /** Removing a matching element from two sequences with the same elements leaves sequences
      with the same elements. */
  lemma MultisetRemove<T>(a: seq<T>, b: seq<T>, j: nat)
    requires multiset(a) == multiset(b) && |a| > 0 && j < |b| && b[j] == a[0]
    ensures multiset(a[1..]) == multiset(b[..j] + b[j + 1..])
  {
    var x, front, back := a[0], b[..j], b[j + 1..];
    assert a == [x] + a[1..];
    assert b == front + ([x] + back);
    forall y ensures multiset(a[1..])[y] == multiset(front + back)[y] {
      assert multiset(a)[y] == multiset(b)[y];
    }
  }
}
