/**
 The two `std::string` operations the stock sketch relies on: the relational
 operators (`a.first > b.first` in the sort comparator) and `substr` (the day
 of the month under each candle). Dafny's `<` on `seq<char>` means "proper
 prefix", so the lexicographic order is defined here on its own.
 */
module CppString {
  import opened Wrappers

  /** `a < b` for `std::string`: the first differing character decides; a
      proper prefix is smaller than the longer string. */
  predicate Less(a: string, b: string)
    decreases |a|
  {
    if |b| == 0 then false
    else if |a| == 0 then true
    else if a[0] != b[0] then a[0] < b[0]
    else Less(a[1..], b[1..])
  }

  /** `a <= b` for `std::string`. */
  predicate LessOrEqual(a: string, b: string) {
    a == b || Less(a, b)
  }

  lemma {:induction false} LessIrreflexive(a: string)
    ensures !Less(a, a)
  {
    if |a| > 0 {
      LessIrreflexive(a[1..]);
    }
  }

  lemma {:induction false} LessAsymmetric(a: string, b: string)
    requires Less(a, b)
    ensures !Less(b, a)
  {
    if |a| > 0 && a[0] == b[0] {
      LessAsymmetric(a[1..], b[1..]);
    }
  }

  lemma {:induction false} LessTransitive(a: string, b: string, c: string)
    requires Less(a, b) && Less(b, c)
    ensures Less(a, c)
  {
    if |a| > 0 && a[0] == b[0] && b[0] == c[0] {
      LessTransitive(a[1..], b[1..], c[1..]);
    }
  }

  /** Two different strings are always ordered one way or the other. */
  lemma {:induction false} LessTotal(a: string, b: string)
    requires a != b
    ensures Less(a, b) || Less(b, a)
  {
    if |a| > 0 && |b| > 0 && a[0] == b[0] {
      assert a == [a[0]] + a[1..] && b == [b[0]] + b[1..];
      LessTotal(a[1..], b[1..]);
    }
  }

  /** Not-less is the same as greater-or-equal: the order is total. */
  lemma NotLessIsGreaterOrEqual(a: string, b: string)
    ensures !Less(a, b) <==> LessOrEqual(b, a)
  {
    if a != b && !Less(a, b) {
      LessTotal(a, b);
    }
    if Less(b, a) {
      LessAsymmetric(b, a);
    }
    if a == b {
      LessIrreflexive(a);
    }
  }

  lemma LessOrEqualTransitive(a: string, b: string, c: string)
    requires LessOrEqual(a, b) && LessOrEqual(b, c)
    ensures LessOrEqual(a, c)
  {
    if a != b && b != c {
      LessTransitive(a, b, c);
    }
  }

  /** Between two strings whose first parts have the same length, the first
      parts decide, and the rest decides only when the first parts are equal. */
  lemma {:induction false} LessConcat(u: string, v: string, x: string, y: string)
    requires |u| == |v|
    ensures Less(u + x, v + y) <==> Less(u, v) || (u == v && Less(x, y))
  {
    if |u| == 0 {
      assert u + x == x && v + y == y;
    } else {
      assert (u + x)[1..] == u[1..] + x && (v + y)[1..] == v[1..] + y;
      assert u == [u[0]] + u[1..] && v == [v[0]] + v[1..];
      LessConcat(u[1..], v[1..], x, y);
    }
  }

  /** A common first character does not affect the order. */
  lemma LessSkipsCommonHead(c: char, x: string, y: string)
    ensures Less([c] + x, [c] + y) <==> Less(x, y)
  {
    assert ([c] + x)[1..] == x && ([c] + y)[1..] == y;
  }

  /** `s.substr(pos, count)`: `None` stands for the `std::out_of_range`
      exception thrown when `pos` is past the end; otherwise at most `count`
      characters starting at `pos`. */
  function Substr(s: string, pos: nat, count: nat): (r: Option<string>)
    ensures r.Some? <==> pos <= |s|
    ensures r.Some? ==> |r.value| == (if pos + count <= |s| then count else |s| - pos)
    ensures r.Some? ==> forall k :: 0 <= k < |r.value| ==> r.value[k] == s[pos + k]
  {
    if pos > |s| then None
    else if pos + count <= |s| then Some(s[pos..pos + count])
    else Some(s[pos..])
  }
}
