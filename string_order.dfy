/** The order `Array.prototype.sort()` uses for strings when no comparator is
    given (character by character, a proper prefix first), and the
    "distinct values, sorted" idiom `Array.from(new Set(xs)).sort()`. */
module StringOrder {

  /** `a` sorts strictly before `b`. */
  predicate Less(a: string, b: string)
    decreases |a|
  {
    if a == [] then b != []
    else if b == [] then false
    else if a[0] == b[0] then Less(a[1..], b[1..])
    else a[0] < b[0]
  }

  lemma {:induction false} LessIrreflexive(a: string)
    ensures !Less(a, a)
  {
    if a != [] {
      LessIrreflexive(a[1..]);
    }
  }

  lemma {:induction false} LessTransitive(a: string, b: string, c: string)
    requires Less(a, b) && Less(b, c)
    ensures Less(a, c)
  {
    if a != [] && b != [] && c != [] && a[0] == b[0] && b[0] == c[0] {
      LessTransitive(a[1..], b[1..], c[1..]);
    }
  }

  lemma {:induction false} LessTotal(a: string, b: string)
    ensures a == b || Less(a, b) || Less(b, a)
  {
    if a != [] && b != [] && a[0] == b[0] {
      LessTotal(a[1..], b[1..]);
      if a[1..] == b[1..] {
        assert a == [a[0]] + a[1..] && b == [b[0]] + b[1..];
      }
    }
  }

  /** Every element sorts strictly before every later one. */
  ghost predicate StrictlySorted(s: seq<string>)
  {
    forall i, j :: 0 <= i < j < |s| ==> Less(s[i], s[j])
  }

  /** Adds `x` to a sorted list of distinct strings at its place, unless it is
      already there. */
  function Insert(s: seq<string>, x: string): (r: seq<string>)
    ensures forall y :: y in r <==> y in s || y == x
  {
    if s == [] then [x]
    else if x == s[0] then s
    else if Less(x, s[0]) then [x] + s
    else [s[0]] + Insert(s[1..], x)
  }

  lemma {:induction false} InsertSorted(s: seq<string>, x: string)
    requires StrictlySorted(s)
    ensures StrictlySorted(Insert(s, x))
  {
    if s != [] && x != s[0] {
      if Less(x, s[0]) {
        var r := [x] + s;
        forall i, j | 0 <= i < j < |r| ensures Less(r[i], r[j]) {
          if i == 0 && j > 1 {
            LessTransitive(x, s[0], s[j - 1]);
          }
        }
      } else {
        LessTotal(x, s[0]);
        var tail := Insert(s[1..], x);
        InsertSorted(s[1..], x);
        var r := [s[0]] + tail;
        forall i, j | 0 <= i < j < |r| ensures Less(r[i], r[j]) {
          if i == 0 {
            assert r[j] in tail;
          }
        }
      }
    }
  }

  /** `Array.from(new Set(values)).sort()`. */
  function SortDistinct(values: seq<string>): (r: seq<string>)
    ensures forall y :: y in r <==> y in values
  {
    if values == [] then [] else Insert(SortDistinct(values[1..]), values[0])
  }

  /** The list is strictly sorted, so it has no duplicates, and it holds
      exactly the values given. */
  lemma {:induction false} SortDistinctSpec(values: seq<string>)
    ensures StrictlySorted(SortDistinct(values))
    ensures forall i, j :: 0 <= i < j < |SortDistinct(values)| ==> SortDistinct(values)[i] != SortDistinct(values)[j]
    ensures forall y :: y in SortDistinct(values) <==> y in values
  {
    if values != [] {
      SortDistinctSpec(values[1..]);
      InsertSorted(SortDistinct(values[1..]), values[0]);
    }
    var r := SortDistinct(values);
    forall i, j | 0 <= i < j < |r| ensures r[i] != r[j] {
      LessIrreflexive(r[i]);
    }
  }
}
