/**
 * The pure part of the matrix engine: the cartesian product of the declared
 * axes (`DefaultAxes.combinations`) and the exclusion filter applied to it
 * (`DefaultMatrix.include` and `containsMap`).
 */
module AxisCombinations {

  /** One value chosen for each axis, keyed by axis name. */
  type Combination = map<string, string>

  /** A declared axis: its name and its values in declaration order. */
  datatype Axis = Axis(name: string, values: seq<string>)

  ghost predicate DistinctNames(axes: seq<Axis>) {
    forall i, j :: 0 <= i < j < |axes| ==> axes[i].name != axes[j].name
  }

  function Names(axes: seq<Axis>): set<string> {
    set i | 0 <= i < |axes| :: axes[i].name
  }

  /** `m` gives every axis, and only those, one of that axis's values. */
  ghost predicate Assigns(m: Combination, axes: seq<Axis>) {
    && m.Keys == Names(axes)
    && forall j :: 0 <= j < |axes| ==> axes[j].name in m && m[axes[j].name] in axes[j].values
  }

  /** The product of the axis sizes. */
  function Product(axes: seq<Axis>): nat {
    if axes == [] then 1 else Product(axes[..|axes| - 1]) * |axes[|axes| - 1].values|
  }

  // ---------------------------------------------------------------------------
  // The fold of `combinations()`

  /** `axis.value.map { value -> map + (axis.key to value) }` */
  function Extend(m: Combination, a: Axis): seq<Combination> {
    seq(|a.values|, j requires 0 <= j < |a.values| => m[a.name := a.values[j]])
  }

  /** `acc.flatMap { map -> Extend(map, axis) }` */
  function FlatMap(acc: seq<Combination>, a: Axis): seq<Combination> {
    if acc == [] then [] else Extend(acc[0], a) + FlatMap(acc[1..], a)
  }

  /**
   * The left fold over the axes in declaration order, starting from the list
   * holding one empty map; written with the last axis outermost, which is the
   * same fold unrolled from its final step.
   */
  function Fold(axes: seq<Axis>): seq<Combination> {
    if axes == [] then [map[]] else FlatMap(Fold(axes[..|axes| - 1]), axes[|axes| - 1])
  }

  /**
   * `DefaultAxes.combinations()`: no axes give no combinations (not a single
   * empty one); otherwise the fold, one entry per choice of values.
   */
  function Combinations(axes: seq<Axis>): (r: seq<Combination>)
    ensures |r| == if axes == [] then 0 else Product(axes)
  {
    if axes == [] then [] else FoldLength(axes); Fold(axes)
  }

  // ---------------------------------------------------------------------------
  // Arithmetic used to locate an entry of the product

  lemma DivUnique(x: int, d: int, q: int, r: int)
    requires d > 0 && 0 <= r < d && x == q * d + r
    ensures x / d == q && x % d == r
  {
    var q', r' := x / d, x % d;
    assert (q - q') * d == r' - r;
    if q > q' {
      assert (q - q') * d >= d by { MulAtLeast(q - q', d); }
    } else if q < q' {
      assert (q' - q) * d >= d by { MulAtLeast(q' - q, d); }
    }
  }

  lemma MulAtLeast(k: int, d: int)
    requires k >= 1 && d > 0
    ensures k * d >= d
  {
  }

  /** Dividing by `a` and then by `b` is dividing by `b * a`. */
  lemma DivDiv(x: nat, a: nat, b: nat)
    requires a > 0 && b > 0
    ensures x / (b * a) == (x / a) / b
  {
    var q, r := x / a, x % a;
    var q2, r2 := q / b, q % b;
    assert x == q * a + r;
    assert q == q2 * b + r2;
    assert x == q2 * (b * a) + (r2 * a + r);
    assert r2 * a <= (b - 1) * a by { MulMonotone(r2, b - 1, a); }
    DivUnique(x, b * a, q2, r2 * a + r);
  }

  lemma MulMonotone(x: nat, y: nat, a: nat)
    requires x <= y
    ensures x * a <= y * a
  {
  }

  lemma DivBelow(x: nat, a: nat, b: nat)
    requires a > 0 && x < b * a
    ensures x / a < b
  {
    var q := x / a;
    assert q * a <= x;
    if q >= b {
      MulMonotone(b, q, a);
    }
  }

  // ---------------------------------------------------------------------------
  // Shape of the fold

  lemma {:induction false} FlatMapLength(acc: seq<Combination>, a: Axis)
    ensures |FlatMap(acc, a)| == |acc| * |a.values|
  {
    if acc != [] {
      FlatMapLength(acc[1..], a);
      assert |acc| * |a.values| == |a.values| + (|acc| - 1) * |a.values|;
    }
  }

  /** Entry `i * n + j` of the flat map extends entry `i` with value `j`. */
  lemma {:induction false} FlatMapAt(acc: seq<Combination>, a: Axis, i: nat, j: nat)
    requires i < |acc| && j < |a.values|
    ensures |FlatMap(acc, a)| == |acc| * |a.values|
    ensures i * |a.values| + j < |FlatMap(acc, a)|
    ensures FlatMap(acc, a)[i * |a.values| + j] == acc[i][a.name := a.values[j]]
  {
    var n := |a.values|;
    FlatMapLength(acc, a);
    MulMonotone(i + 1, |acc|, n);
    if i > 0 {
      FlatMapAt(acc[1..], a, i - 1, j);
      assert i * n + j == n + ((i - 1) * n + j);
    }
  }

  lemma {:induction false} FoldLength(axes: seq<Axis>)
    ensures |Fold(axes)| == Product(axes)
  {
    if axes != [] {
      var init, last := axes[..|axes| - 1], axes[|axes| - 1];
      FoldLength(init);
      FlatMapLength(Fold(init), last);
    }
  }

  lemma ProductPositive(axes: seq<Axis>, j: nat)
    requires Product(axes) > 0 && j <= |axes|
    ensures Product(axes[j..]) > 0
    ensures j < |axes| ==> |axes[j].values| > 0
    decreases |axes|
  {
    if axes != [] {
      var init, last := axes[..|axes| - 1], axes[|axes| - 1];
      if j < |axes| {
        assert axes[j..][..|axes[j..]| - 1] == init[j..];
        ProductPositive(init, j);
      }
    }
  }

  /**
   * Splits an index of `Fold(axes)` into the index `q` of the entry of the
   * fold over the earlier axes and the index `r` of the last axis's value.
   */
  lemma FoldStep(axes: seq<Axis>, i: nat) returns (q: nat, r: nat)
    requires axes != [] && i < Product(axes)
    ensures |Fold(axes)| == Product(axes)
    ensures |Fold(axes[..|axes| - 1])| == Product(axes[..|axes| - 1])
    ensures q < Product(axes[..|axes| - 1]) && r < |axes[|axes| - 1].values|
    ensures q == i / |axes[|axes| - 1].values| && r == i % |axes[|axes| - 1].values|
    ensures Fold(axes)[i] == Fold(axes[..|axes| - 1])[q][axes[|axes| - 1].name := axes[|axes| - 1].values[r]]
  {
    var init, last := axes[..|axes| - 1], axes[|axes| - 1];
    FoldLength(axes);
    FoldLength(init);
    q, r := SplitIndex(i, |last.values|, Product(init));
    FlatMapAt(Fold(init), last, q, r);
  }

  lemma SplitIndex(i: nat, n: nat, p: nat) returns (q: nat, r: nat)
    requires i < p * n
    ensures n > 0 && q < p && r < n
    ensures i == q * n + r && q == i / n && r == i % n
  {
    assert n > 0;
    q, r := i / n, i % n;
    DivBelow(i, n, p);
  }

  /** The converse of FoldStep: where an extended entry sits in the fold. */
  lemma FoldIndex(axes: seq<Axis>, q: nat, r: nat) returns (k: nat)
    requires axes != []
    requires q < |Fold(axes[..|axes| - 1])| && r < |axes[|axes| - 1].values|
    ensures k < |Fold(axes)|
    ensures Fold(axes)[k] == Fold(axes[..|axes| - 1])[q][axes[|axes| - 1].name := axes[|axes| - 1].values[r]]
  {
    var init, last := axes[..|axes| - 1], axes[|axes| - 1];
    FlatMapAt(Fold(init), last, q, r);
    k := q * |last.values| + r;
  }

  /** Every entry of the fold has exactly the declared axis names as keys. */
  lemma {:induction false} FoldKeys(axes: seq<Axis>, i: nat)
    requires i < Product(axes)
    ensures |Fold(axes)| == Product(axes)
    ensures Fold(axes)[i].Keys == Names(axes)
  {
    FoldLength(axes);
    if axes != [] {
      var init, last := axes[..|axes| - 1], axes[|axes| - 1];
      var q, r := FoldStep(axes, i);
      FoldKeys(init, q);
      NamesSplit(axes);
    }
  }

  lemma NamesSplit(axes: seq<Axis>)
    requires axes != []
    ensures Names(axes) == Names(axes[..|axes| - 1]) + {axes[|axes| - 1].name}
  {
    var init := axes[..|axes| - 1];
    forall k | 0 <= k < |axes| ensures axes[k].name in Names(init) + {axes[|axes| - 1].name} {
      if k < |init| { assert axes[k].name == init[k].name; }
    }
    forall k | 0 <= k < |init| ensures init[k].name in Names(axes) {
      assert init[k].name == axes[k].name;
    }
  }

  /**
   * Entry `i` of the fold gives axis `j` the value whose index is digit `j`
   * of `i` written in the mixed radix of the axis sizes: the first axis
   * varies slowest and the last fastest.
   */
  lemma {:induction false} FoldAt(axes: seq<Axis>, i: nat, j: nat)
    requires DistinctNames(axes)
    requires i < Product(axes) && j < |axes|
    ensures |Fold(axes)| == Product(axes)
    ensures |axes[j].values| > 0 && Product(axes[j + 1..]) > 0
    ensures axes[j].name in Fold(axes)[i]
    ensures Fold(axes)[i][axes[j].name] == axes[j].values[(i / Product(axes[j + 1..])) % |axes[j].values|]
    decreases |axes|, 1
  {
    ProductPositive(axes, j);
    ProductPositive(axes, j + 1);
    FoldLength(axes);
    if j == |axes| - 1 {
      var q, r := FoldStep(axes, i);
      assert axes[j + 1..] == [];
    } else {
      FoldAtEarlier(axes, i, j);
    }
  }

  /** FoldAt for an axis before the last: the digit comes from the fold over the earlier axes. */
  lemma {:induction false} FoldAtEarlier(axes: seq<Axis>, i: nat, j: nat)
    requires DistinctNames(axes)
    requires i < Product(axes) && j < |axes| - 1
    requires |Fold(axes)| == Product(axes)
    requires |axes[j].values| > 0 && Product(axes[j + 1..]) > 0
    ensures axes[j].name in Fold(axes)[i]
    ensures Fold(axes)[i][axes[j].name] == axes[j].values[(i / Product(axes[j + 1..])) % |axes[j].values|]
    decreases |axes|, 0
  {
    var init, last := axes[..|axes| - 1], axes[|axes| - 1];
    var n := |last.values|;
    var q, r := FoldStep(axes, i);
    var name, values := axes[j].name, axes[j].values;
    assert init[j] == axes[j];
    var p' := Product(init[j + 1..]);
    FoldAt(init, q, j);
    assert name in Fold(axes)[i] && Fold(axes)[i][name] == Fold(init)[q][name] by {
      assert name != last.name;
    }
    var d := (q / p') % |values|;
    assert Fold(init)[q][name] == values[d];
    assert (i / Product(axes[j + 1..])) % |values| == d by {
      assert Product(axes[j + 1..]) == p' * n by { ProductTail(axes, j); }
      assert i / (p' * n) == q / p' by { DivDiv(i, n, p'); }
    }
  }

  lemma ProductTail(axes: seq<Axis>, j: nat)
    requires j + 1 < |axes|
    ensures Product(axes[j + 1..]) == Product(axes[..|axes| - 1][j + 1..]) * |axes[|axes| - 1].values|
  {
    var tail := axes[j + 1..];
    assert tail[..|tail| - 1] == axes[..|axes| - 1][j + 1..];
  }

  /** Dropping the last axis from an assignment assigns the earlier axes. */
  lemma AssignsInit(axes: seq<Axis>, m: Combination)
    requires axes != [] && DistinctNames(axes) && Assigns(m, axes)
    ensures Assigns(m - {axes[|axes| - 1].name}, axes[..|axes| - 1])
  {
    var init, last := axes[..|axes| - 1], axes[|axes| - 1];
    var rest := m - {last.name};
    NamesSplit(axes);
    forall k | 0 <= k < |init| ensures init[k].name != last.name {
      assert init[k] == axes[k];
    }
    forall k | 0 <= k < |init|
      ensures init[k].name in rest && rest[init[k].name] in init[k].values
    {
      assert init[k] == axes[k];
    }
  }

  /** Every assignment of declared values to the declared axes is in the fold. */
  lemma {:induction false} FoldComplete(axes: seq<Axis>, m: Combination)
    requires DistinctNames(axes) && Assigns(m, axes)
    ensures m in Fold(axes)
  {
    if axes == [] {
      assert m == map[];
    } else {
      var init, last := axes[..|axes| - 1], axes[|axes| - 1];
      var rest := m - {last.name};
      AssignsInit(axes, m);
      FoldComplete(init, rest);
      assert last.name in m && m[last.name] in last.values;
      assert m == rest[last.name := m[last.name]];
      FoldExtend(axes, rest, m[last.name]);
    }
  }

  /** Extending an entry of the fold over the earlier axes with a value of the last axis gives an entry. */
  lemma FoldExtend(axes: seq<Axis>, rest: Combination, v: string)
    requires axes != [] && rest in Fold(axes[..|axes| - 1]) && v in axes[|axes| - 1].values
    ensures rest[axes[|axes| - 1].name := v] in Fold(axes)
  {
    var init, last := axes[..|axes| - 1], axes[|axes| - 1];
    var q :| 0 <= q < |Fold(init)| && Fold(init)[q] == rest;
    var r :| 0 <= r < |last.values| && last.values[r] == v;
    var k := FoldIndex(axes, q, r);
  }

  // ---------------------------------------------------------------------------
  // The properties of `combinations()`

  /**
   * A map is a combination exactly when at least one axis is declared and
   * the map assigns each declared axis, and nothing else, one of its values.
   */
  lemma CombinationsMembership(axes: seq<Axis>, m: Combination)
    requires DistinctNames(axes)
    ensures m in Combinations(axes) <==> axes != [] && Assigns(m, axes)
  {
    if axes != [] {
      if m in Combinations(axes) {
        var i :| 0 <= i < |Fold(axes)| && Fold(axes)[i] == m;
        FoldKeys(axes, i);
        forall j | 0 <= j < |axes|
          ensures axes[j].name in m && m[axes[j].name] in axes[j].values
        {
          FoldAt(axes, i, j);
        }
      }
      if Assigns(m, axes) {
        FoldComplete(axes, m);
      }
    }
  }

  /**
   * Combination `i` gives axis `j` the value at digit `j` of `i` in the
   * mixed radix of the axis sizes: combinations are in lexicographic order of
   * value positions, with the first declared axis varying slowest.
   */
  lemma CombinationAt(axes: seq<Axis>, i: nat, j: nat)
    requires DistinctNames(axes)
    requires i < |Combinations(axes)| && j < |axes|
    ensures |axes[j].values| > 0 && Product(axes[j + 1..]) > 0
    ensures Combinations(axes)[i].Keys == Names(axes)
    ensures Combinations(axes)[i][axes[j].name]
         == axes[j].values[(i / Product(axes[j + 1..])) % |axes[j].values|]
  {
    FoldKeys(axes, i);
    FoldAt(axes, i, j);
  }

  // ---------------------------------------------------------------------------
  // Exclusions

  /** `combination.containsMap(exclusion)`: the exclusion is a sub-map. */
  predicate ContainsMap(combination: Combination, exclusion: Combination): (r: bool)
    ensures exclusion == map[] ==> r
    ensures r ==> exclusion.Keys <= combination.Keys
    ensures exclusion == combination ==> r
  {
    forall k :: k in exclusion ==> k in combination && combination[k] == exclusion[k]
  }

  /** `include(combination)`: no registered exclusion is a sub-map of it. */
  predicate Include(combination: Combination, excludes: seq<Combination>): (r: bool)
    ensures excludes == [] ==> r
    ensures map[] in excludes ==> !r
    ensures combination in excludes ==> !r
  {
    !exists e :: e in excludes && ContainsMap(combination, e)
  }

  /** `combinations.filter { include(it) }` */
  function Surviving(combinations: seq<Combination>, excludes: seq<Combination>): (r: seq<Combination>)
    ensures |r| <= |combinations|
    ensures forall k :: 0 <= k < |r| ==> Include(r[k], excludes)
  {
    if combinations == [] then []
    else (if Include(combinations[0], excludes) then [combinations[0]] else [])
         + Surviving(combinations[1..], excludes)
  }

  /** The positions of the surviving combinations in the unfiltered list. */
  function Kept(combinations: seq<Combination>, excludes: seq<Combination>): seq<nat> {
    if combinations == [] then []
    else (if Include(combinations[0], excludes) then [0] else [])
         + Shift(Kept(combinations[1..], excludes))
  }

  function Shift(s: seq<nat>): (r: seq<nat>)
    ensures |r| == |s| && forall k :: 0 <= k < |s| ==> r[k] == s[k] + 1
  {
    seq(|s|, k requires 0 <= k < |s| => s[k] + 1)
  }

  /** A combination survives exactly when it is generated and not excluded. */
  lemma {:induction false} SurvivingMembership(combinations: seq<Combination>, excludes: seq<Combination>, c: Combination)
    ensures c in Surviving(combinations, excludes) <==> c in combinations && Include(c, excludes)
  {
    if combinations != [] {
      SurvivingMembership(combinations[1..], excludes, c);
      assert combinations == [combinations[0]] + combinations[1..];
    }
  }

  /**
   * Filtering keeps order: the survivors are the combinations at strictly
   * increasing positions of the unfiltered list, and a position is kept
   * exactly when its combination is not excluded.
   */
  lemma SurvivingInOrder(combinations: seq<Combination>, excludes: seq<Combination>)
    ensures |Kept(combinations, excludes)| == |Surviving(combinations, excludes)|
    ensures forall k :: 0 <= k < |Kept(combinations, excludes)| ==>
              Kept(combinations, excludes)[k] < |combinations|
              && Surviving(combinations, excludes)[k] == combinations[Kept(combinations, excludes)[k]]
    ensures forall k, l :: 0 <= k < l < |Kept(combinations, excludes)| ==>
              Kept(combinations, excludes)[k] < Kept(combinations, excludes)[l]
    ensures forall i :: 0 <= i < |combinations| ==>
              (i in Kept(combinations, excludes) <==> Include(combinations[i], excludes))
  {
    KeptSelects(combinations, excludes);
    KeptIncreasing(combinations, excludes);
    KeptExactly(combinations, excludes);
  }

  lemma {:induction false} KeptSelects(combinations: seq<Combination>, excludes: seq<Combination>)
    ensures |Kept(combinations, excludes)| == |Surviving(combinations, excludes)|
    ensures forall k :: 0 <= k < |Kept(combinations, excludes)| ==>
              Kept(combinations, excludes)[k] < |combinations|
              && Surviving(combinations, excludes)[k] == combinations[Kept(combinations, excludes)[k]]
  {
    if combinations != [] {
      KeptSelects(combinations[1..], excludes);
    }
  }

  lemma {:induction false} KeptIncreasing(combinations: seq<Combination>, excludes: seq<Combination>)
    ensures forall k :: 0 <= k < |Kept(combinations, excludes)| ==> Kept(combinations, excludes)[k] < |combinations|
    ensures forall k, l :: 0 <= k < l < |Kept(combinations, excludes)| ==>
              Kept(combinations, excludes)[k] < Kept(combinations, excludes)[l]
  {
    if combinations != [] {
      KeptIncreasing(combinations[1..], excludes);
    }
  }

  lemma KeptExactly(combinations: seq<Combination>, excludes: seq<Combination>)
    ensures forall i :: 0 <= i < |combinations| ==>
              (i in Kept(combinations, excludes) <==> Include(combinations[i], excludes))
  {
    forall i | 0 <= i < |combinations|
      ensures i in Kept(combinations, excludes) <==> Include(combinations[i], excludes)
    {
      KeptMember(combinations, excludes, i);
    }
  }

  lemma {:induction false} KeptMember(combinations: seq<Combination>, excludes: seq<Combination>, i: nat)
    requires i < |combinations|
    ensures i in Kept(combinations, excludes) <==> Include(combinations[i], excludes)
  {
    var tail := combinations[1..];
    var kt := Kept(tail, excludes);
    var head: seq<nat> := if Include(combinations[0], excludes) then [0] else [];
    assert Kept(combinations, excludes) == head + Shift(kt);
    if i == 0 {
      assert 0 !in Shift(kt);
    } else {
      KeptMember(tail, excludes, i - 1);
      assert combinations[i] == tail[i - 1];
      assert i - 1 in kt <==> i in Shift(kt) by {
        if i - 1 in kt {
          var k :| 0 <= k < |kt| && kt[k] == i - 1;
          assert Shift(kt)[k] == i;
        }
      }
    }
  }

  /** With no exclusions registered, every combination survives. */
  lemma {:induction false} SurvivingWithoutExcludes(combinations: seq<Combination>)
    ensures Surviving(combinations, []) == combinations
  {
    if combinations != [] {
      SurvivingWithoutExcludes(combinations[1..]);
    }
  }

  /** An exclusion with no pairs is a sub-map of everything: nothing survives. */
  lemma {:induction false} EmptyExclusionRemovesAll(combinations: seq<Combination>, excludes: seq<Combination>)
    requires map[] in excludes
    ensures Surviving(combinations, excludes) == []
  {
    if combinations != [] {
      assert ContainsMap(combinations[0], map[]);
      EmptyExclusionRemovesAll(combinations[1..], excludes);
    }
  }

  /**
   * Axes an exclusion does not name act as wildcards: a combination that
   * agrees with the exclusion on the axes it names is removed, whatever
   * values it has for the other axes.
   */
  lemma ExclusionIsWildcard(combinations: seq<Combination>, excludes: seq<Combination>, e: Combination, c: Combination)
    requires e in excludes
    requires forall k :: k in e ==> k in c && c[k] == e[k]
    ensures c !in Surviving(combinations, excludes)
  {
    SurvivingMembership(combinations, excludes, c);
    assert ContainsMap(c, e);
  }

  /**
   * Only the set of exclusions matters: the order and repetition of their
   * declarations do not change which combinations survive.
   */
  lemma {:induction false} SurvivingOrderIndependent(combinations: seq<Combination>, e1: seq<Combination>, e2: seq<Combination>)
    requires forall e :: e in e1 <==> e in e2
    ensures Surviving(combinations, e1) == Surviving(combinations, e2)
  {
    if combinations != [] {
      var c := combinations[0];
      SurvivingOrderIndependent(combinations[1..], e1, e2);
    }
  }
}
