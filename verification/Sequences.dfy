/** Duplicate-free sequences of note numbers, and the questions the allocator asks about them. */
module Sequences {
  import opened Midi

  datatype Option<+T> = None | Some(value: T)

  lemma Joined<T>(x: seq<T>, a: seq<T>, b: seq<T>)
    ensures x + a + b == x + (a + b)
  {
  }

  lemma Appended<T>(x: seq<T>, a: seq<T>, b: seq<T>, c: seq<T>)
    ensures x + a + b + c == x + (a + b + c)
  {
  }

  lemma FirstAndRest<T>(s: seq<T>)
    requires s != []
    ensures forall n :: n in s <==> n == s[0] || n in s[1..]
    ensures |s| > 1 ==> s[1..][|s| - 2] == s[|s| - 1]
  {
  }

  ghost predicate Distinct<T>(s: seq<T>) {
    forall i, j :: 0 <= i < j < |s| ==> s[i] != s[j]
  }

  /** `s` with its first `x` taken out. */
  function Without<T(==)>(s: seq<T>, x: T): (r: seq<T>)
    ensures x !in s ==> r == s
    ensures |r| == if x in s then |s| - 1 else |s|
  {
    if s == [] then []
    else if s[0] == x then s[1..]
    else [s[0]] + Without(s[1..], x)
  }

  lemma {:induction false} WithoutAt<T>(s: seq<T>, k: nat)
    requires Distinct(s) && k < |s|
    ensures Without(s, s[k]) == s[..k] + s[k + 1..]
  {
    if k > 0 {
      WithoutAt(s[1..], k - 1);
      assert s[1..][..k - 1] == s[1..k];
      assert s[1..][k..] == s[k + 1..];
      assert [s[0]] + s[1..k] == s[..k];
    }
  }

  lemma WithoutMembers<T>(s: seq<T>, x: T)
    ensures forall y :: y in Without(s, x) ==> y in s
    ensures forall y :: y in s && y != x ==> y in Without(s, x)
  {
    if s != [] {
      WithoutMembers(s[1..], x);
      assert s == [s[0]] + s[1..];
    }
  }

  lemma WithoutDistinct<T>(s: seq<T>, x: T)
    requires Distinct(s)
    ensures Distinct(Without(s, x))
    ensures x !in Without(s, x)
    ensures forall y :: y in Without(s, x) <==> y in s && y != x
  {
    if x in s {
      var k :| 0 <= k < |s| && s[k] == x;
      WithoutAt(s, k);
    }
  }

  /** The notes on one side of the anchor, in the order of `s`; the anchor itself counts as above. */
  function Side(s: seq<Byte>, anchor: int, above: bool): (r: seq<Byte>)
    ensures forall n :: n in r <==> n in s && (n >= anchor <==> above)
  {
    if s == [] then []
    else if s[0] >= anchor <==> above then [s[0]] + Side(s[1..], anchor, above)
    else Side(s[1..], anchor, above)
  }

  lemma SideLength(s: seq<Byte>, anchor: int, above: bool)
    ensures |Side(s, anchor, above)| <= |s|
  {
  }

  lemma SideDistinct(s: seq<Byte>, anchor: int, above: bool)
    requires Distinct(s)
    ensures Distinct(Side(s, anchor, above))
  {
    if s != [] {
      SideDistinct(s[1..], anchor, above);
      assert s[0] !in s[1..];
      assert s[0] !in Side(s[1..], anchor, above);
    }
  }

  lemma {:induction false} SideWithout(s: seq<Byte>, anchor: int, above: bool, x: Byte)
    ensures Side(Without(s, x), anchor, above) == Without(Side(s, anchor, above), x)
  {
    if s != [] && s[0] != x {
      SideWithout(s[1..], anchor, above, x);
      assert Without(s, x)[1..] == Without(s[1..], x);
    } else if s != [] && !(x >= anchor <==> above) {
      assert x !in Side(s, anchor, above);
    }
  }

  /** The least element, or INVALID_NOTE when there is none. */
  function Lowest(s: seq<Byte>): (r: Byte)
    ensures s == [] ==> r == INVALID_NOTE
    ensures s != [] ==> r in s
    ensures forall n :: n in s ==> r <= n
  {
    if s == [] then INVALID_NOTE
    else
      assert s == [s[0]] + s[1..];
      var rest := Lowest(s[1..]);
      if s[1..] == [] || s[0] < rest then s[0] else rest
  }

  /** The greatest element, or INVALID_NOTE when there is none. */
  function Highest(s: seq<Byte>): (r: Byte)
    ensures s == [] ==> r == INVALID_NOTE
    ensures s != [] ==> r in s
    ensures s != [] ==> forall n :: n in s ==> n <= r
  {
    if s == [] then INVALID_NOTE
    else if s[1..] == [] then s[0]
    else
      assert s == [s[0]] + s[1..];
      var rest := Highest(s[1..]);
      if s[0] > rest then s[0] else rest
  }

  function Extreme(kind: nat, s: seq<Byte>): (r: Option<Byte>)
    ensures r.Some? ==> r.value in s
  {
    if s == [] then None
    else if kind == 0 then Some(Lowest(s))
    else if kind == 1 then Some(Highest(s))
    else if kind == 2 then Some(s[|s| - 1])
    else Some(s[0])
  }

  lemma ExtremesAre(s: seq<Byte>, low: Byte, high: Byte)
    requires low in s && high in s
    requires forall j :: 0 <= j < |s| ==> low <= s[j] <= high
    ensures low == Lowest(s) && high == Highest(s)
  {
  }

  /** Distinct numbers below `limit` are at most `limit` many. */
  lemma {:induction false} DistinctBounded(s: seq<Byte>, limit: nat)
    requires Distinct(s)
    requires forall n :: n in s ==> n < limit
    ensures |s| <= limit
    decreases limit
  {
    if s != [] {
      assert s[0] in s;
      var top := limit - 1;
      if top < 256 {
        WithoutDistinct<Byte>(s, top);
        DistinctBounded(Without<Byte>(s, top), top);
      } else {
        DistinctBounded(s, top);
      }
    }
  }
}
