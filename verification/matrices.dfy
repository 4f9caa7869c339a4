/**
 * The matrix engine of a stage: axes declared once, exclusions validated
 * against them as they are declared, and a single matrix build step that
 * appends one build per surviving combination to the stage.
 */
module Matrices {
  import opened Host
  import opened AxisCombinations
  import opened Pipelines

  /** One `name to value` pair of an exclusion. */
  type Pair = (string, string)

  const OnlyOneAxes := "only one axes configuration can be defined"
  const OnlyOneBuild := "only one matrix build configuration can be defined"

  // ---------------------------------------------------------------------------
  // Declaring axes: a linked map where the first declaration of a name wins

  /** `putIfAbsent` on the insertion-ordered map of axes. */
  function Put(entries: seq<Axis>, a: Axis): (r: seq<Axis>)
    ensures |entries| <= |r| <= |entries| + 1 && r[..|entries|] == entries
    ensures a.name in Names(entries) <==> r == entries
    ensures a.name !in Names(entries) ==> r[|r| - 1] == a
  {
    if a.name in Names(entries) then entries
    else
      assert (entries + [a])[..|entries|] == entries;
      entries + [a]
  }

  /** The axes after the declarations `decls`, made in order. */
  function DeclareAll(entries: seq<Axis>, decls: seq<Axis>): (r: seq<Axis>)
    ensures |entries| <= |r| <= |entries| + |decls|
    ensures r[..|entries|] == entries
  {
    if decls == [] then entries
    else
      var before := DeclareAll(entries, decls[..|decls| - 1]);
      var r := Put(before, decls[|decls| - 1]);
      assert r[..|entries|] == before[..|before|][..|entries|];
      r
  }

  lemma DeclareAllStep(entries: seq<Axis>, decls: seq<Axis>, k: nat)
    requires k < |decls|
    ensures DeclareAll(entries, decls[..k + 1]) == Put(DeclareAll(entries, decls[..k]), Axis(decls[k].name, decls[k].values))
  {
    assert decls[..k + 1][..k] == decls[..k];
  }

  /**
   * Declarations never disturb what is declared already: the earlier axes
   * keep their values and positions, the names are those of both lists, and
   * the names stay distinct.
   */
  lemma {:induction false} DeclareAllExtends(entries: seq<Axis>, decls: seq<Axis>)
    requires DistinctNames(entries)
    ensures |DeclareAll(entries, decls)| >= |entries|
    ensures DeclareAll(entries, decls)[..|entries|] == entries
    ensures Names(DeclareAll(entries, decls)) == Names(entries) + Names(decls)
    ensures DistinctNames(DeclareAll(entries, decls))
  {
    if decls != [] {
      var init, last := decls[..|decls| - 1], decls[|decls| - 1];
      var before := DeclareAll(entries, init);
      DeclareAllExtends(entries, init);
      NamesSplit(decls);
      if last.name !in Names(before) {
        NamesSplit(before + [last]);
        assert (before + [last])[..|before|] == before;
        forall i | 0 <= i < |before| ensures before[i].name != last.name {
          assert before[i].name in Names(before);
        }
      }
    }
  }

  /**
   * Declaring a name a second time changes nothing: its first value list and
   * its position stay as they were.
   */
  lemma RedeclarationIgnored(entries: seq<Axis>, decls: seq<Axis>, a: Axis)
    requires DistinctNames(entries)
    requires a.name in Names(entries) + Names(decls)
    ensures DeclareAll(entries, decls + [a]) == DeclareAll(entries, decls)
  {
    assert (decls + [a])[..|decls|] == decls;
    DeclareAllExtends(entries, decls);
  }

  /** The first declaration of each name is the one the axes keep. */
  lemma {:induction false} FirstDeclarationKept(entries: seq<Axis>, decls: seq<Axis>, k: nat)
    requires DistinctNames(entries)
    requires k < |decls| && decls[k].name !in Names(entries)
    requires forall l :: 0 <= l < k ==> decls[l].name != decls[k].name
    ensures decls[k] in DeclareAll(entries, decls)
  {
    var init, last := decls[..|decls| - 1], decls[|decls| - 1];
    DeclareAllExtends(entries, init);
    if k < |decls| - 1 {
      FirstDeclarationKept(entries, init, k);
    } else {
      assert last.name !in Names(init) by {
        forall l | 0 <= l < |init| ensures init[l].name != last.name {
          assert init[l] == decls[l];
        }
      }
    }
  }

  // ---------------------------------------------------------------------------
  // Exclusions

  predicate ValidPair(p: Pair, values: map<string, seq<string>>) {
    p.0 in values && p.1 in values[p.0]
  }

  /** The exception `exclude` throws for a pair that is not valid. */
  function PairError(p: Pair, values: map<string, seq<string>>): Error {
    if p.0 !in values then IllegalArgument("Invalid name: " + p.0)
    else IllegalArgument("Invalid value: " + p.1)
  }

  /**
   * The validation loop of `exclude`: passes when every pair names a declared
   * axis and one of its values, and otherwise fails with the error of a pair
   * that does not (the first one, as `FirstInvalid` shows).
   */
  function Validate(pairs: seq<Pair>, values: map<string, seq<string>>): (r: Outcome)
    ensures r.Pass? <==> forall k :: 0 <= k < |pairs| ==> ValidPair(pairs[k], values)
  {
    if pairs == [] then Pass
    else if !ValidPair(pairs[0], values) then Fail(PairError(pairs[0], values))
    else Validate(pairs[1..], values)
  }

  /**
   * A failed validation fails on the first invalid pair: every pair before
   * it is valid, and the error names its axis ("Invalid name") or its value
   * ("Invalid value").
   */
  lemma {:induction false} FirstInvalid(pairs: seq<Pair>, values: map<string, seq<string>>) returns (k: nat)
    requires Validate(pairs, values).Fail?
    ensures k < |pairs| && !ValidPair(pairs[k], values)
    ensures forall l :: 0 <= l < k ==> ValidPair(pairs[l], values)
    ensures Validate(pairs, values).error == PairError(pairs[k], values)
  {
    if !ValidPair(pairs[0], values) {
      k := 0;
    } else {
      var j := FirstInvalid(pairs[1..], values);
      k := j + 1;
      assert pairs[k] == pairs[1..][j];
      forall l | 0 <= l < k ensures ValidPair(pairs[l], values) {
        if l > 0 { assert pairs[l] == pairs[1..][l - 1]; }
      }
    }
  }

  /** `pairs.toMap()`: the pairs entered in order, so a later pair for a name overrides an earlier one. */
  function ToMap(pairs: seq<Pair>): (m: Combination)
    ensures pairs == [] ==> m == map[]
    ensures pairs != [] ==> pairs[|pairs| - 1].0 in m && m[pairs[|pairs| - 1].0] == pairs[|pairs| - 1].1
  {
    if pairs == [] then map[] else ToMap(pairs[..|pairs| - 1])[pairs[|pairs| - 1].0 := pairs[|pairs| - 1].1]
  }

  /** The keys of `pairs.toMap()` are the names of the pairs. */
  lemma {:induction false} ToMapKeys(pairs: seq<Pair>)
    ensures ToMap(pairs).Keys == set k | 0 <= k < |pairs| :: pairs[k].0
  {
    if pairs != [] {
      var init, last := pairs[..|pairs| - 1], pairs[|pairs| - 1];
      ToMapKeys(init);
      forall k | 0 <= k < |init| ensures init[k].0 == pairs[k].0 { }
    }
  }

  /** The last pair for a name gives that name's value in `pairs.toMap()`. */
  lemma {:induction false} ToMapLastWins(pairs: seq<Pair>, k: nat)
    requires k < |pairs|
    requires forall l :: k < l < |pairs| ==> pairs[l].0 != pairs[k].0
    ensures pairs[k].0 in ToMap(pairs) && ToMap(pairs)[pairs[k].0] == pairs[k].1
  {
    var init := pairs[..|pairs| - 1];
    if k < |init| {
      assert init[k] == pairs[k];
      forall l | k < l < |init| ensures init[l].0 != init[k].0 {
        assert init[l] == pairs[l];
      }
      ToMapLastWins(init, k);
    }
  }

  /** A validated exclusion only mentions declared axes and their values. */
  lemma {:induction false} ValidExclusion(pairs: seq<Pair>, values: map<string, seq<string>>)
    requires Validate(pairs, values).Pass?
    ensures forall name :: name in ToMap(pairs) ==> name in values && ToMap(pairs)[name] in values[name]
  {
    if pairs != [] {
      var init := pairs[..|pairs| - 1];
      assert Validate(init, values).Pass? by {
        forall k | 0 <= k < |init| ensures ValidPair(init[k], values) {
          assert init[k] == pairs[k];
        }
      }
      ValidExclusion(init, values);
      assert ValidPair(pairs[|pairs| - 1], values);
    }
  }

  /**
   * The position of the first exclusion among `exclusions` that fails
   * validation, or their number when all of them pass.
   */
  function FirstRejected(exclusions: seq<seq<Pair>>, values: map<string, seq<string>>): (k: nat)
    ensures k <= |exclusions|
    ensures forall l :: 0 <= l < k ==> Validate(exclusions[l], values).Pass?
    ensures k < |exclusions| ==> Validate(exclusions[k], values).Fail?
  {
    if exclusions == [] then 0
    else if Validate(exclusions[0], values).Fail? then 0
    else 1 + FirstRejected(exclusions[1..], values)
  }

  function ToMaps(exclusions: seq<seq<Pair>>): seq<Combination> {
    seq(|exclusions|, k requires 0 <= k < |exclusions| => ToMap(exclusions[k]))
  }

  /** The first rejected exclusion is the one after a run of accepted ones that fails, if any. */
  lemma {:induction false} FirstRejectedAt(exclusions: seq<seq<Pair>>, values: map<string, seq<string>>, k: nat)
    requires k <= |exclusions|
    requires forall l :: 0 <= l < k ==> Validate(exclusions[l], values).Pass?
    requires k < |exclusions| ==> Validate(exclusions[k], values).Fail?
    ensures FirstRejected(exclusions, values) == k
  {
    if k > 0 {
      assert Validate(exclusions[0], values).Pass?;
      forall l | 0 <= l < k - 1 ensures Validate(exclusions[1..][l], values).Pass? {
        assert exclusions[1..][l] == exclusions[l + 1];
      }
      FirstRejectedAt(exclusions[1..], values, k - 1);
    }
  }

  lemma ToMapsAppend(exclusions: seq<seq<Pair>>, k: nat)
    requires k < |exclusions|
    ensures ToMaps(exclusions[..k + 1]) == ToMaps(exclusions[..k]) + [ToMap(exclusions[k])]
  {
  }

  // ---------------------------------------------------------------------------
  // Matrix builds

  /**
   * The build a matrix creates for one combination: a build carrying the
   * combination, given the stage's default settings, configured by the
   * build closure, and given the id the host derives from its final name.
   * The closure cannot change the combination, a read-only property.
   */
  function MatrixBuild(c: Combination, defaults: BuildType, init: BuildInit, toId: string -> string): (b: BuildType)
    ensures b.axes == c && b.id == toId(b.name)
  {
    var configured := init(CopyTo(defaults, NewBuild().(axes := c))).(axes := c);
    configured.(id := toId(configured.name))
  }

  function MatrixBuilds(cs: seq<Combination>, defaults: BuildType, init: BuildInit, toId: string -> string): seq<BuildType> {
    seq(|cs|, k requires 0 <= k < |cs| => MatrixBuild(cs[k], defaults, init, toId))
  }

  lemma MatrixBuildsAppend(cs: seq<Combination>, k: nat, defaults: BuildType, init: BuildInit, toId: string -> string)
    requires k < |cs|
    ensures MatrixBuilds(cs[..k + 1], defaults, init, toId)
         == MatrixBuilds(cs[..k], defaults, init, toId) + [MatrixBuild(cs[k], defaults, init, toId)]
  {
  }

  /**
   * Every build a matrix build step appends carries a combination that
   * assigns each declared axis one of its values and matches no exclusion.
   */
  lemma MatrixBuildsSound(axes: seq<Axis>, excludes: seq<Combination>, defaults: BuildType,
                          init: BuildInit, toId: string -> string, k: nat)
    requires DistinctNames(axes)
    requires k < |Surviving(Combinations(axes), excludes)|
    ensures Assigns(MatrixBuilds(Surviving(Combinations(axes), excludes), defaults, init, toId)[k].axes, axes)
    ensures Include(MatrixBuilds(Surviving(Combinations(axes), excludes), defaults, init, toId)[k].axes, excludes)
  {
    var kept := Surviving(Combinations(axes), excludes);
    var c := kept[k];
    assert MatrixBuilds(kept, defaults, init, toId)[k].axes == c;
    SurvivingMembership(Combinations(axes), excludes, c);
    CombinationsMembership(axes, c);
  }

  /**
   * Every combination that assigns each declared axis one of its values and
   * matches no exclusion gets a build, provided at least one axis is
   * declared.
   */
  lemma MatrixBuildsComplete(axes: seq<Axis>, excludes: seq<Combination>, defaults: BuildType,
                             init: BuildInit, toId: string -> string, c: Combination)
    requires DistinctNames(axes)
    requires axes != [] && Assigns(c, axes) && Include(c, excludes)
    ensures exists k :: 0 <= k < |Surviving(Combinations(axes), excludes)| &&
              MatrixBuilds(Surviving(Combinations(axes), excludes), defaults, init, toId)[k].axes == c
  {
    var combos := Combinations(axes);
    var kept := Surviving(combos, excludes);
    CombinationsMembership(axes, c);
    SurvivingMembership(combos, excludes, c);
    var k :| 0 <= k < |kept| && kept[k] == c;
    assert MatrixBuilds(kept, defaults, init, toId)[k].axes == c;
  }

  // ---------------------------------------------------------------------------
  // The classes

  /** `DefaultAxes`: the axes in declaration order. */
  class Axes {
    var names: seq<string>
    var values: map<string, seq<string>>

    ghost predicate Valid()
      reads this
    {
      && (forall i, j :: 0 <= i < j < |names| ==> names[i] != names[j])
      && (forall n :: n in values <==> n in names)
    }

    constructor ()
      ensures Valid() && names == [] && values == map[]
    {
      names, values := [], map[];
    }

    /** The declared axes, in declaration order. */
    function Entries(): (entries: seq<Axis>)
      reads this
      requires Valid()
      ensures |entries| == |names| && DistinctNames(entries)
      ensures forall k :: 0 <= k < |names| ==> entries[k] == Axis(names[k], values[names[k]])
    {
      seq(|names|, k reads this requires 0 <= k < |names| && Valid() => Axis(names[k], values[names[k]]))
    }

    /** `name(values...)`: declares an axis unless the name is declared already. */
    method Declare(name: string, vals: seq<string>)
      requires Valid()
      modifies this
      ensures Valid()
      ensures Entries() == Put(old(Entries()), Axis(name, vals))
      ensures name in old(values) ==> names == old(names) && values == old(values)
    {
      ghost var before := Entries();
      assert name in Names(before) <==> name in values by {
        if name in names {
          var k :| 0 <= k < |names| && names[k] == name;
          assert before[k].name == name;
        }
      }
      if name !in values {
        names := names + [name];
        values := values[name := vals];
      }
    }
  }

  /** `DefaultExcludes`: the validated exclusions, in declaration order. */
  class Excludes {
    const axes: Axes
    var excludes: seq<Combination>

    constructor (axes: Axes)
      ensures this.axes == axes && excludes == []
    {
      this.axes := axes;
      excludes := [];
    }

    /**
     * `exclude(pairs...)`: checks the pairs in order against the declared
     * axes and, when all pass, appends them as one exclusion.
     */
    method Exclude(pairs: seq<Pair>) returns (r: Outcome)
      modifies this
      ensures r == Validate(pairs, axes.values)
      ensures excludes == if r.Pass? then old(excludes) + [ToMap(pairs)] else old(excludes)
    {
      var k := 0;
      while k < |pairs|
        invariant 0 <= k <= |pairs|
        invariant Validate(pairs, axes.values) == Validate(pairs[k..], axes.values)
        invariant excludes == old(excludes)
      {
        var (name, value) := pairs[k];
        assert pairs[k..][1..] == pairs[k + 1..];
        if name !in axes.values {
          return Fail(IllegalArgument("Invalid name: " + name));
        }
        if value !in axes.values[name] {
          return Fail(IllegalArgument("Invalid value: " + value));
        }
        k := k + 1;
      }
      excludes := excludes + [ToMap(pairs)];
      r := Pass;
    }
  }

  /** `DefaultMatrix`: the matrix of one stage. */
  class Matrix {
    const stage: Stage
    const axes: Axes
    const excludes: Excludes
    var axesDefined: bool
    var buildDefined: bool

    ghost predicate Valid()
      reads this, axes, excludes
    {
      excludes.axes == axes && axes.Valid()
    }

    constructor (stage: Stage)
      ensures Valid() && this.stage == stage && fresh(axes) && fresh(excludes)
      ensures axes.names == [] && excludes.excludes == []
      ensures !axesDefined && !buildDefined
    {
      this.stage := stage;
      var a := new Axes();
      axes := a;
      excludes := new Excludes(a);
      axesDefined, buildDefined := false, false;
    }

    /**
     * `axes { ... }`: allowed once; runs the declarations of the closure in
     * order. A second call throws and declares nothing.
     */
    method DefineAxes(decls: seq<Axis>) returns (r: Outcome)
      requires Valid()
      modifies this, axes
      ensures Valid() && axesDefined && buildDefined == old(buildDefined)
      ensures r == if old(axesDefined) then Fail(IllegalState(OnlyOneAxes)) else Pass
      ensures axes.Entries() == if old(axesDefined) then old(axes.Entries()) else DeclareAll(old(axes.Entries()), decls)
    {
      if axesDefined {
        return Fail(IllegalState(OnlyOneAxes));
      }
      axesDefined := true;
      var k := 0;
      while k < |decls|
        invariant 0 <= k <= |decls|
        invariant axes.Valid()
        invariant axes.Entries() == DeclareAll(old(axes.Entries()), decls[..k])
        modifies axes
      {
        axes.Declare(decls[k].name, decls[k].values);
        DeclareAllStep(old(axes.Entries()), decls, k);
        k := k + 1;
      }
      assert decls[..k] == decls;
      r := Pass;
    }

    /**
     * `excludes { ... }`: runs the closure's `exclude` calls in order; the
     * first one that fails throws, after the ones before it were added.
     */
    method DefineExcludes(exclusions: seq<seq<Pair>>) returns (r: Outcome)
      requires Valid()
      modifies excludes
      ensures Valid()
      ensures var k := FirstRejected(exclusions, axes.values);
        && excludes.excludes == old(excludes.excludes) + ToMaps(exclusions[..k])
        && r == if k == |exclusions| then Pass else Validate(exclusions[k], axes.values)
    {
      var k := 0;
      while k < |exclusions|
        invariant 0 <= k <= |exclusions|
        invariant forall l :: 0 <= l < k ==> Validate(exclusions[l], axes.values).Pass?
        invariant excludes.excludes == old(excludes.excludes) + ToMaps(exclusions[..k])
      {
        r := excludes.Exclude(exclusions[k]);
        if r.Fail? {
          FirstRejectedAt(exclusions, axes.values, k);
          return;
        }
        ToMapsAppend(exclusions, k);
        k := k + 1;
      }
      FirstRejectedAt(exclusions, axes.values, k);
      assert exclusions[..k] == exclusions;
      r := Pass;
    }

    /**
     * `build { ... }`: allowed once; appends to the stage one build per
     * surviving combination, in combination order, after the builds already
     * there. A second call throws and appends nothing.
     */
    method Build(init: BuildInit, toId: string -> string) returns (r: Outcome)
      requires Valid()
      modifies this, stage
      ensures Valid() && buildDefined && axesDefined == old(axesDefined)
      ensures r == if old(buildDefined) then Fail(IllegalState(OnlyOneBuild)) else Pass
      ensures stage.defaults == old(stage.defaults)
      ensures stage.buildTypes == old(stage.buildTypes)
        + if old(buildDefined) then []
          else MatrixBuilds(Surviving(Combinations(axes.Entries()), excludes.excludes), old(stage.defaults), init, toId)
    {
      if buildDefined {
        return Fail(IllegalState(OnlyOneBuild));
      }
      buildDefined := true;
      var kept := Surviving(Combinations(axes.Entries()), excludes.excludes);
      var k := 0;
      while k < |kept|
        invariant 0 <= k <= |kept|
        invariant stage.defaults == old(stage.defaults)
        invariant stage.buildTypes == old(stage.buildTypes) + MatrixBuilds(kept[..k], old(stage.defaults), init, toId)
        modifies stage
      {
        var b := MatrixBuild(kept[k], stage.defaults, init, toId);
        stage.buildTypes := stage.buildTypes + [b];
        MatrixBuildsAppend(kept, k, old(stage.defaults), init, toId);
        k := k + 1;
      }
      assert kept[..k] == kept;
      r := Pass;
    }
  }
}
