/** src/math.cpp: linear interpolation in tables of curves that map [0, 1] to itself. */
module Distortion {
  import opened Midi

  const TABLE_SIZE := 2048
  const TABLE_MAX_INDEX := 2047

  type CurveTable = t: seq<Ratio> | |t| == TABLE_SIZE witness seq<Ratio>(TABLE_SIZE, _ => 0.0)

  const FLAT_TABLE: CurveTable := seq<Ratio>(TABLE_SIZE, _ => 0.0)

  /** The four tables, indexed by the distortion type. */
  type Curves = c: seq<CurveTable> | |c| == 4 witness [FLAT_TABLE, FLAT_TABLE, FLAT_TABLE, FLAT_TABLE]

  ghost predicate Sorted(t: seq<Ratio>) {
    forall i, j :: 0 <= i <= j < |t| ==> t[i] <= t[j]
  }

  function Combine(weight: real, a: real, b: real): real {
    weight * (a - b) + b
  }

  lemma Product(a: real, b: real)
    requires 0.0 <= a && 0.0 <= b
    ensures 0.0 <= a * b
  {
  }

  lemma CombineBetween(w: Ratio, a: real, b: real)
    ensures a <= b ==> a <= Combine(w, a, b) <= b
    ensures b <= a ==> b <= Combine(w, a, b) <= a
  {
    if a <= b {
      Product(w, b - a);
      Product(1.0 - w, b - a);
    } else {
      Product(w, a - b);
      Product(1.0 - w, a - b);
    }
  }

  /** Interpolation is monotone in both ends, and in the weight towards the larger end. */
  lemma CombineMonotone(v: Ratio, w: Ratio, a: real, b: real, c: real, d: real)
    requires a <= c && b <= d
    ensures Combine(w, a, b) <= Combine(w, c, d)
    ensures v <= w && b <= a ==> Combine(v, a, b) <= Combine(w, a, b)
  {
    Product(w, c - a);
    Product(1.0 - w, d - b);
    if v <= w && b <= a {
      Product(w - v, a - b);
    }
  }

  function Lookup(table: seq<Ratio>, maxIndex: nat, index: real): Ratio
    requires |table| == maxIndex + 1 && 0.0 <= index
  {
    var before := index.Floor;
    if before >= maxIndex then table[maxIndex]
    else
      CombineBetween(index - before as real, table[before + 1], table[before]);
      Combine(index - before as real, table[before + 1], table[before])
  }

  lemma LookupMonotone(table: seq<Ratio>, maxIndex: nat, i: real, j: real)
    requires |table| == maxIndex + 1 && Sorted(table) && 0.0 <= i <= j
    ensures Lookup(table, maxIndex, i) <= Lookup(table, maxIndex, j)
  {
    var k, m := i.Floor, j.Floor;
    if k < maxIndex {
      CombineBetween(i - k as real, table[k + 1], table[k]);
      if m < maxIndex {
        CombineBetween(j - m as real, table[m + 1], table[m]);
        if k == m {
          CombineMonotone(i - k as real, j - m as real, table[k + 1], table[k], table[k + 1], table[k]);
        }
      }
    }
  }

  function Distort(level: Ratio, number: Ratio, table: CurveTable): Ratio {
    if level < 0.0001 then number
    else
      var looked := Lookup(table, TABLE_MAX_INDEX, number * TABLE_MAX_INDEX as real);
      CombineBetween(level, looked, number);
      Combine(level, looked, number)
  }

  lemma DistortMonotone(level: Ratio, x: Ratio, y: Ratio, table: CurveTable)
    requires x <= y && Sorted(table)
    ensures Distort(level, x, table) <= Distort(level, y, table)
  {
    if level >= 0.0001 {
      var s := TABLE_MAX_INDEX as real;
      LookupMonotone(table, TABLE_MAX_INDEX, x * s, y * s);
      CombineMonotone(level, level, Lookup(table, TABLE_MAX_INDEX, x * s), x,
                      Lookup(table, TABLE_MAX_INDEX, y * s), y);
    }
  }

  /** At full level the output is the curve: its entry at a grid point, and on a straight line in between. */
  lemma FullLevelIsCurve(i: nat, w: Ratio, table: CurveTable)
    requires i < TABLE_MAX_INDEX
    ensures 0.0 <= (i as real + w) / 2047.0 <= 1.0
    ensures Distort(1.0, (i as real + w) / 2047.0, table) == (1.0 - w) * table[i] + w * table[i + 1]
  {
    hide Lookup;
    var x := (i as real + w) / 2047.0;
    assert x * TABLE_MAX_INDEX as real == i as real + w;
    LookupBetween(table, i, w);
  }

  lemma WeightedMean(w: real, a: real, b: real)
    ensures Combine(w, a, b) == (1.0 - w) * b + w * a
  {
  }

  lemma LookupBetween(table: CurveTable, i: nat, w: Ratio)
    requires i < TABLE_MAX_INDEX
    ensures Lookup(table, TABLE_MAX_INDEX, i as real + w) == (1.0 - w) * table[i] + w * table[i + 1]
  {
    if w < 1.0 {
      assert (i as real + w).Floor == i && i as real + w - i as real == w;
      WeightedMean(w, table[i + 1], table[i]);
    } else {
      assert (i as real + w).Floor == i + 1 && i as real + w - (i + 1) as real == 0.0;
    }
  }

  lemma FullLevelAtGrid(i: nat, table: CurveTable)
    requires i < TABLE_SIZE
    ensures 0.0 <= i as real / 2047.0 <= 1.0 && Distort(1.0, i as real / 2047.0, table) == table[i]
  {
    if i < TABLE_MAX_INDEX {
      FullLevelIsCurve(i, 0.0, table);
    } else {
      FullLevelIsCurve(i - 1, 1.0, table);
    }
  }

  /** From 0.0001 on, the level says how far the output is from the input on the way to the curve. */
  lemma LevelBlends(level: Ratio, x: Ratio, table: CurveTable)
    ensures Distort(level, x, table) - x == if level >= 0.0001 then level * (Distort(1.0, x, table) - x) else 0.0
  {
  }

  // The two polynomial curves.

  function DistSmoothSharp(x: real): real {
    x * x * x * x * x
  }

  /** Horner's scheme, as written in the original. */
  function DistSharpSharp(x: real): real {
    ((((((((((1024.0 * x - 5632.0) * x + 14080.0) * x - 21120.0) * x + 21120.0) * x - 14784.0)
    * x + 7392.0) * x - 2640.0) * x + 660.0) * x - 110.0) * x + 11.0) * x
  }

  function Power(x: real, n: nat): real {
    if n == 0 then 1.0 else x * Power(x, n - 1)
  }

  /** The scheme computes an odd power, shifted and scaled into the unit square. */
  lemma SharpSharpIsOddPower(x: real)
    ensures DistSharpSharp(x) == (Power(2.0 * x - 1.0, 11) + 1.0) / 2.0
  {
    var u := 2.0 * x - 1.0;
    assert DistSharpSharp(x) == (u * u * u * u * u * u * u * u * u * u * u + 1.0) / 2.0;
    EleventhPower(u);
  }

  lemma PowerStep(u: real, n: nat)
    ensures Power(u, 0) == 1.0 && Power(u, n + 1) == u * Power(u, n)
    ensures Power(u, n + 2) == u * (u * Power(u, n))
  {
  }

  lemma EleventhPower(u: real)
    ensures Power(u, 11) == u * u * u * u * u * u * u * u * u * u * u
  {
    PowerStep(u, 0);
    PowerStep(u, 2);
    assert Power(u, 4) == u * u * u * u;
    PowerStep(u, 4);
    assert Power(u, 6) == u * u * u * u * u * u;
    PowerStep(u, 6);
    assert Power(u, 8) == u * u * u * u * u * u * u * u;
    PowerStep(u, 8);
    assert Power(u, 10) == u * u * u * u * u * u * u * u * u * u;
    PowerStep(u, 10);
  }

  lemma FifthPower(u: real)
    ensures Power(u, 5) == DistSmoothSharp(u)
  {
    PowerStep(u, 0);
    PowerStep(u, 2);
    PowerStep(u, 4);
  }

  lemma {:induction false} PowerMonotone(x: real, y: real, n: nat)
    requires 0.0 <= x <= y
    ensures 0.0 <= Power(x, n) <= Power(y, n)
    ensures y <= 1.0 ==> Power(y, n) <= 1.0
  {
    if n > 0 {
      PowerMonotone(x, y, n - 1);
      var p, q := Power(x, n - 1), Power(y, n - 1);
      Product(x, p);
      Product(y - x, q);
      Product(x, q - p);
      if y <= 1.0 {
        Product(1.0 - y, q);
      }
    }
  }

  lemma {:induction false} PowerOfNegated(x: real, n: nat)
    ensures Power(-x, n) == if n % 2 == 0 then Power(x, n) else -Power(x, n)
  {
    if n > 0 {
      PowerOfNegated(x, n - 1);
    }
  }

  lemma OddPowerMonotone(x: real, y: real, n: nat)
    requires -1.0 <= x <= y <= 1.0 && n % 2 == 1
    ensures -1.0 <= Power(x, n) <= Power(y, n) <= 1.0
  {
    PowerOfNegated(x, n);
    PowerOfNegated(y, n);
    if y < 0.0 {
      PowerMonotone(-y, -x, n);
    } else if x < 0.0 {
      PowerMonotone(0.0, -x, n);
      PowerMonotone(0.0, y, n);
    } else {
      PowerMonotone(x, y, n);
    }
  }

  lemma SharpSharpMonotone(x: Ratio, y: Ratio)
    requires x <= y
    ensures 0.0 <= DistSharpSharp(x) <= DistSharpSharp(y) <= 1.0
  {
    SharpSharpIsOddPower(x);
    SharpSharpIsOddPower(y);
    OddPowerMonotone(2.0 * x - 1.0, 2.0 * y - 1.0, 11);
  }

  /** How many pairs `n` things make. */
  function Pairs(n: nat): nat {
    if n == 0 then 0 else Pairs(n - 1) + n - 1
  }

  /** `p` is one minus `a` times `y`, up to `b` times the square of `y`. */
  ghost predicate Near(y: real, p: real, a: real, b: real) {
    1.0 - a * y <= p <= 1.0 - a * y + b * (y * y)
  }

  /** Powers near one, to first and to second order. */
  lemma {:induction false} PowerNearOne(y: Ratio, n: nat)
    ensures Near(y, Power(1.0 - y, n), n as real, Pairs(n) as real)
  {
    hide Near, Power;
    if n > 0 {
      var p := Power(1.0 - y, n - 1);
      PowerNearOne(y, n - 1);
      PowerNext(1.0 - y, n);
      NearStep(y, p, Power(1.0 - y, n), n as real - 1.0, Pairs(n - 1) as real);
      assert n as real - 1.0 == (n - 1) as real && Pairs(n - 1) as real + (n as real - 1.0) == Pairs(n) as real;
    } else {
      NearNothing(y);
    }
  }

  lemma NearNothing(y: Ratio)
    ensures Near(y, Power(1.0 - y, 0), 0.0, 0.0)
  {
  }

  lemma PowerNext(u: real, n: nat)
    requires n > 0
    ensures Power(u, n) == u * Power(u, n - 1)
  {
  }

  lemma NearStep(y: Ratio, p: real, q: real, a: real, b: real)
    requires 0.0 <= a && 0.0 <= b && Near(y, p, a, b) && q == (1.0 - y) * p
    ensures Near(y, q, a + 1.0, b + a)
  {
    var square := y * y;
    Product(y, y);
    Product(y, square);
    Product(a, square);
    Product(b, y * square);
    Product(1.0 - y, p - (1.0 - a * y));
    Product(1.0 - y, 1.0 - a * y + b * square - p);
    LowerStep(y, p, a);
    UpperStep(y, p, a, b);
  }

  lemma LowerStep(y: real, p: real, a: real)
    ensures (1.0 - y) * (p - (1.0 - a * y)) == (1.0 - y) * p - (1.0 - (a + 1.0) * y + a * (y * y))
  {
  }

  lemma UpperStep(y: real, p: real, a: real, b: real)
    ensures (1.0 - y) * (1.0 - a * y + b * (y * y) - p)
         == 1.0 - (a + 1.0) * y + (b + a) * (y * y) - b * (y * (y * y)) - (1.0 - y) * p
  {
  }

  /** At 0, and by symmetry at 1, the slope is 11: the curve lies between its tangent and a parabola below it. */
  lemma SharpSharpSlope(x: Ratio)
    ensures x <= 0.5 ==> 11.0 * x - 110.0 * (x * x) <= DistSharpSharp(x) <= 11.0 * x
    ensures DistSharpSharp(1.0 - x) == 1.0 - DistSharpSharp(x)
  {
    hide DistSharpSharp, Power;
    SharpSharpSymmetric(x);
    if x <= 0.5 {
      SharpSharpIsOddPower(x);
      PowerOfNegated(1.0 - 2.0 * x, 11);
      assert 2.0 * x - 1.0 == -(1.0 - 2.0 * x);
      PowerNearOne(2.0 * x, 11);
      ElevenMakePairs();
    }
  }

  lemma ElevenMakePairs()
    ensures Pairs(11) == 55
  {
    assert Pairs(4) == 6;
    assert Pairs(8) == 28;
  }

  lemma SharpSharpSymmetric(x: real)
    ensures DistSharpSharp(1.0 - x) == 1.0 - DistSharpSharp(x)
  {
    hide DistSharpSharp, Power;
    SharpSharpIsOddPower(x);
    SharpSharpIsOddPower(1.0 - x);
    assert 2.0 * (1.0 - x) - 1.0 == -(2.0 * x - 1.0);
    PowerOfNegated(2.0 * x - 1.0, 11);
  }

  lemma SmoothSharpMonotone(x: Ratio, y: Ratio)
    requires x <= y
    ensures 0.0 <= DistSmoothSharp(x) <= DistSmoothSharp(y) <= 1.0
  {
    PowerMonotone(x, y, 5);
    FifthPower(x);
    FifthPower(y);
  }

  /** src/math.cpp:37-63 for the two polynomial curves: the tables the interpolation needs. */
  method InitPolynomialTables() returns (smoothSharp: CurveTable, sharpSharp: CurveTable)
    ensures Sorted(smoothSharp) && Sorted(sharpSharp)
    ensures smoothSharp[0] == 0.0 && smoothSharp[TABLE_MAX_INDEX] == 1.0
    ensures sharpSharp[0] == 0.0 && sharpSharp[TABLE_MAX_INDEX] == 1.0
    ensures forall i :: 0 <= i < TABLE_SIZE ==> smoothSharp[i] == Power(i as real / 2047.0, 5)
    ensures forall i :: 0 <= i < TABLE_SIZE ==>
      sharpSharp[i] == (Power(2.0 * (i as real / 2047.0) - 1.0, 11) + 1.0) / 2.0
  {
    var first: seq<Ratio>, second: seq<Ratio> := [], [];
    for i := 0 to TABLE_SIZE
      invariant |first| == |second| == i
      invariant forall j :: 0 <= j < i ==> first[j] == DistSmoothSharp(j as real / 2047.0)
      invariant forall j :: 0 <= j < i ==> second[j] == DistSharpSharp(j as real / 2047.0)
      invariant Sorted(first) && Sorted(second)
    {
      var x := i as real / 2047.0;
      SmoothSharpMonotone(x, x);
      SharpSharpMonotone(x, x);
      forall j | 0 <= j < i
        ensures first[j] <= DistSmoothSharp(x) && second[j] <= DistSharpSharp(x)
      {
        SmoothSharpMonotone(j as real / 2047.0, x);
        SharpSharpMonotone(j as real / 2047.0, x);
      }
      first := first + [DistSmoothSharp(x)];
      second := second + [DistSharpSharp(x)];
    }
    forall i | 0 <= i < TABLE_SIZE
      ensures first[i] == Power(i as real / 2047.0, 5)
      ensures second[i] == (Power(2.0 * (i as real / 2047.0) - 1.0, 11) + 1.0) / 2.0
    {
      FifthPower(i as real / 2047.0);
      SharpSharpIsOddPower(i as real / 2047.0);
    }
    smoothSharp, sharpSharp := first, second;
  }
}
