/** Python's `<` on tuples of ints and strings, as the interpreter gates use it
    (`sys.version_info < tuple(min_ver)`). */
module PyTuple {
  import opened Seqs
  import opened Json

  /** The elements that occur in version tuples: ints (and bools), strs, and
      any other value a configuration can hold (`None`, a list, a dict),
      which never compares with an int or a str. */
  datatype PyVal = Int(i: int) | Str(s: string) | Other(value: Json)

  /** `sys.version_info`: `(major, minor, micro, releaselevel, serial)`. */
  datatype VersionInfo = VersionInfo(major: nat, minor: nat, micro: nat, releaseLevel: string, serial: nat)
  {
    function AsTuple(): (t: seq<PyVal>)
      ensures |t| == 5 && t[0] == Int(major) && t[1] == Int(minor) && t[3].Str?
    {
      [Int(major), Int(minor), Int(micro), Str(releaseLevel), Int(serial)]
    }
  }

  /** `a < b` on strings: code points, left to right; a proper prefix is smaller. */
  predicate StrLess(a: string, b: string)
  {
    if a == [] then b != []
    else if b == [] then false
    else if a[0] != b[0] then a[0] < b[0]
    else StrLess(a[1..], b[1..])
  }

  /** `x < y` on two elements: `None` is the TypeError of a pair of
      different kinds. Two `Other` values never meet in a comparison with
      `sys.version_info`, which holds none. */
  function ValLess(x: PyVal, y: PyVal): Option<bool>
  {
    match (x, y)
    case (Int(m), Int(n)) => Some(m < n)
    case (Str(m), Str(n)) => Some(StrLess(m, n))
    case _ => None
  }

  /** `a < b` on tuples, as CPython computes it: skip the equal leading
      elements; if one tuple runs out, the shorter one is smaller; otherwise
      the first differing pair decides. */
  function TupleLess(a: seq<PyVal>, b: seq<PyVal>): Option<bool>
  {
    if a == [] || b == [] then Some(|a| < |b|)
    else if a[0] == b[0] then TupleLess(a[1..], b[1..])
    else ValLess(a[0], b[0])
  }

  /** Length of the common prefix of `a` and `b`. */
  function CommonPrefix(a: seq<PyVal>, b: seq<PyVal>): (k: nat)
    ensures k <= |a| && k <= |b|
    ensures a[..k] == b[..k]
    ensures k < |a| && k < |b| ==> a[k] != b[k]
  {
    if a == [] || b == [] || a[0] != b[0] then 0
    else
      var k := CommonPrefix(a[1..], b[1..]);
      assert a[..k + 1] == [a[0]] + a[1..][..k];
      assert b[..k + 1] == [b[0]] + b[1..][..k];
      k + 1
  }

  /** The comparison is decided at the end of the common prefix: by the lengths
      when one tuple is a prefix of the other, by the first differing elements
      otherwise. */
  lemma {:induction false} TupleLessAtFirstDifference(a: seq<PyVal>, b: seq<PyVal>)
    ensures var k := CommonPrefix(a, b);
      TupleLess(a, b) == if k == |a| || k == |b| then Some(|a| < |b|) else ValLess(a[k], b[k])
  {
    if a != [] && b != [] && a[0] == b[0] {
      TupleLessAtFirstDifference(a[1..], b[1..]);
    }
  }

  /** Lexicographic order on integer sequences, as an existence statement. */
  predicate LexLess(a: seq<int>, b: seq<int>)
  {
    exists k: nat :: k <= |a| && k <= |b| && a[..k] == b[..k] &&
      ((k == |a| && k < |b|) || (k < |a| && k < |b| && a[k] < b[k]))
  }

  function Ints(a: seq<int>): (t: seq<PyVal>)
    ensures |t| == |a| && forall i :: 0 <= i < |a| ==> t[i] == Int(a[i])
  {
    seq(|a|, i requires 0 <= i < |a| => Int(a[i]))
  }

  /** On all-integer tuples the comparison never raises and is the
      lexicographic order. */
  lemma IntTupleLess(a: seq<int>, b: seq<int>)
    ensures TupleLess(Ints(a), Ints(b)) == Some(LexLess(a, b))
  {
    var x, y := Ints(a), Ints(b);
    TupleLessAtFirstDifference(x, y);
    var k := CommonPrefix(x, y);
    assert a[..k] == b[..k] by {
      forall i | 0 <= i < k ensures a[i] == b[i] {
        assert x[..k][i] == y[..k][i];
      }
    }
    if LexLess(a, b) {
      var j: nat :| j <= |a| && j <= |b| && a[..j] == b[..j] &&
        ((j == |a| && j < |b|) || (j < |a| && j < |b| && a[j] < b[j]));
      LexWitnessIsPrefix(a, b, j, k);
    }
  }

  /** A witness of the lexicographic order sits at the end of the common
      prefix. */
  lemma LexWitnessIsPrefix(a: seq<int>, b: seq<int>, j: nat, k: nat)
    requires j <= |a| && j <= |b| && a[..j] == b[..j]
    requires (j == |a| && j < |b|) || (j < |a| && j < |b| && a[j] < b[j])
    requires k <= |a| && k <= |b| && a[..k] == b[..k]
    requires k < |a| && k < |b| ==> a[k] != b[k]
    ensures j == k
  {
  }

  /** No tuple is smaller than itself. */
  lemma {:induction false} TupleLessIrreflexive(a: seq<PyVal>)
    ensures TupleLess(a, a) == Some(false)
  {
    if a != [] {
      TupleLessIrreflexive(a[1..]);
    }
  }

  /** A proper prefix is smaller, whatever the remaining elements are. */
  lemma {:induction false} ProperPrefixLess(a: seq<PyVal>, rest: seq<PyVal>)
    requires rest != []
    ensures TupleLess(a, a + rest) == Some(true)
  {
    if a != [] {
      assert (a + rest)[1..] == a[1..] + rest;
      ProperPrefixLess(a[1..], rest);
    }
  }

  /** The comparison raises exactly when the first differing pair is not two
      ints or two strs. */
  lemma RaisesIff(a: seq<PyVal>, b: seq<PyVal>)
    ensures var k := CommonPrefix(a, b);
      TupleLess(a, b).None? <==> k < |a| && k < |b| && !(a[k].Int? && b[k].Int?) && !(a[k].Str? && b[k].Str?)
  {
    TupleLessAtFirstDifference(a, b);
  }

  /** Elements past the length of the right-hand tuple never matter. */
  lemma {:induction false} TupleLessTruncate(x: seq<PyVal>, y: seq<PyVal>, b: seq<PyVal>)
    requires |b| <= |x|
    ensures TupleLess(x + y, b) == TupleLess(x, b)
  {
    if b != [] && x[0] == b[0] {
      assert (x + y)[1..] == x[1..] + y;
      TupleLessTruncate(x[1..], y, b[1..]);
    }
  }

  /** `sys.version_info < tuple(min_ver)` for a minimum of at most three
      integers (`(3, 7)`, `[3, 8, 1]`): never raises, and is the lexicographic
      order on `(major, minor, micro)`. */
  lemma VersionBelow(version: VersionInfo, minimum: seq<int>)
    requires |minimum| <= 3
    ensures TupleLess(version.AsTuple(), Ints(minimum)) ==
      Some(LexLess([version.major, version.minor, version.micro], minimum))
  {
    var x := Ints([version.major, version.minor, version.micro]);
    assert version.AsTuple() == x + [Str(version.releaseLevel), Int(version.serial)];
    TupleLessTruncate(x, [Str(version.releaseLevel), Int(version.serial)], Ints(minimum));
    IntTupleLess([version.major, version.minor, version.micro], minimum);
  }
}
