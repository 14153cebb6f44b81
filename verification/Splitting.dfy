/** Splitting at a separator, as the standard library does it. */
module Splitting {

  /** The pieces between separators: one more piece than there are separators. */
  function Split<T(==)>(s: seq<T>, sep: T): (parts: seq<seq<T>>)
    ensures |parts| >= 1
  {
    SplitFrom(s, sep, [])
  }

  function SplitFrom<T(==)>(s: seq<T>, sep: T, piece: seq<T>): (parts: seq<seq<T>>)
    ensures |parts| >= 1
  {
    if s == [] then [piece]
    else if s[0] == sep then [piece] + SplitFrom(s[1..], sep, [])
    else SplitFrom(s[1..], sep, piece + [s[0]])
  }

  function Join<T>(parts: seq<seq<T>>, sep: T): seq<T>
    requires |parts| >= 1
  {
    if |parts| == 1 then parts[0] else parts[0] + [sep] + Join(parts[1..], sep)
  }

  lemma JoinOne<T>(part: seq<T>, sep: T)
    ensures Join([part], sep) == part
  {
  }

  lemma {:induction false} SplitFromHead<T>(a: seq<T>, sep: T, b: seq<T>, piece: seq<T>)
    requires sep !in a
    ensures SplitFrom(a + [sep] + b, sep, piece) == [piece + a] + SplitFrom(b, sep, [])
  {
    var s := a + [sep] + b;
    if a == [] {
      assert s[1..] == b && piece + a == piece;
    } else {
      assert s[1..] == a[1..] + [sep] + b && piece + a == piece + [a[0]] + a[1..];
      SplitFromHead(a[1..], sep, b, piece + [a[0]]);
    }
  }

  lemma {:induction false} SplitFromWhole<T>(a: seq<T>, sep: T, piece: seq<T>)
    ensures sep !in a ==> SplitFrom(a, sep, piece) == [piece + a]
    ensures sep in a ==> |SplitFrom(a, sep, piece)| >= 2
  {
    if a == [] {
      assert piece + a == piece;
    } else if a[0] != sep {
      assert piece + a == piece + [a[0]] + a[1..];
      SplitFromWhole(a[1..], sep, piece + [a[0]]);
    }
  }

  /** Splitting undoes joining pieces that do not contain the separator. */
  lemma {:induction false} SplitOfJoin<T>(parts: seq<seq<T>>, sep: T)
    requires |parts| >= 1 && forall i :: 0 <= i < |parts| ==> sep !in parts[i]
    ensures Split(Join(parts, sep), sep) == parts
  {
    assert [] + parts[0] == parts[0];
    if |parts| == 1 {
      SplitFromWhole(parts[0], sep, []);
    } else {
      SplitOfJoin(parts[1..], sep);
      SplitFromHead(parts[0], sep, Join(parts[1..], sep), []);
      assert [parts[0]] + parts[1..] == parts;
    }
  }
}
