/**
 * The batch step of the split mode (the `onDraw` callback of `drawAndSplit`):
 * every selected feature is passed through when the cutting line misses it, and
 * otherwise replaced by its cut, tagged with its id and added to the feature store.
 */
module SplitMode {
  import opened Options
  import opened Sequences
  import opened GeoJson
  import opened Cut

  /** The host's feature store; it records each feature given to `api.add`, in call order. */
  class FeatureStore {
    var added: seq<Feature>

    constructor ()
      ensures added == []
    {
      added := [];
    }

    /** `api.add(feature)`. */
    method Add(feature: Feature)
      modifies this
      ensures added == old(added) + [feature]
    {
      added := added + [feature];
    }
  }

  /** Why processing one feature threw. */
  datatype Failure =
    | Threw(error: CutError)   // `polygonCut` threw
    | NullResult               // the cut returned `null`, so setting its `id` throws a TypeError

  /** What happened to one feature. */
  datatype Step =
    | Unchanged(feature: Feature)   // disjoint from the line: pushed as it is
    | Replaced(feature: Feature)    // cut: the result, carrying the feature's id, pushed and added
    | Failed(failure: Failure)      // the callback throws here

  /** How the callback ends: with the features it fires in its update, or with an exception. */
  datatype DrawResult = Completed(newPolygons: seq<Feature>) | Aborted(failure: Failure)

  /** Keeps a present feature, drops `null` and `undefined`. */
  function KeepPresent(o: Option<Feature>): Option<Feature> {
    o
  }

  /** `featuresToSplit.filter(Boolean)`. */
  function Present(featuresToSplit: seq<Option<Feature>>): seq<Feature> {
    FilterMap(KeepPresent, featuresToSplit)
  }

  /**
   * `filter(Boolean)` keeps every present feature, in order: the one at index `i` lands after
   * as many features as are present before it; nothing else is kept.
   */
  lemma PresentKeepsOrder(featuresToSplit: seq<Option<Feature>>)
    ensures forall i :: 0 <= i < |featuresToSplit| && featuresToSplit[i].Some? ==>
              CountSome(KeepPresent, featuresToSplit[..i]) < |Present(featuresToSplit)| &&
              Present(featuresToSplit)[CountSome(KeepPresent, featuresToSplit[..i])] == featuresToSplit[i].value
    ensures |Present(featuresToSplit)| == CountSome(KeepPresent, featuresToSplit)
    ensures forall j :: 0 <= j < |Present(featuresToSplit)| ==> Some(Present(featuresToSplit)[j]) in featuresToSplit
  {
    forall i | 0 <= i < |featuresToSplit| && featuresToSplit[i].Some?
      ensures CountSome(KeepPresent, featuresToSplit[..i]) < |Present(featuresToSplit)|
      ensures Present(featuresToSplit)[CountSome(KeepPresent, featuresToSplit[..i])] == featuresToSplit[i].value
    {
      FilterMapAt(KeepPresent, featuresToSplit, i);
    }
    forall j | 0 <= j < |Present(featuresToSplit)|
      ensures Some(Present(featuresToSplit)[j]) in featuresToSplit
    {
      FilterMapFrom(KeepPresent, featuresToSplit, j);
    }
  }

  /** One iteration of the loop, as a value (its properties are `SplitFeatureCases`). */
  function SplitFeature(k: Kernel, el: Feature, cuttingLine: Geometry, lineWidth: real, lineWidthUnit: string): Step
    requires IsLineString(cuttingLine)
  {
    if k.booleanDisjoint(el.geometry, cuttingLine) then Unchanged(el)
    else if lineWidth == 0.0 then
      match PolygonCut(k, el.geometry, cuttingLine)
      case Ok(polycut) => Replaced(polycut.(id := el.id))
      case Err(e) => Failed(Threw(e))
    else
      match SpacingCut(k, el.geometry, cuttingLine, Some(lineWidth), Some(lineWidthUnit))
      case Some(polycut) => Replaced(polycut.(id := el.id))
      case None => Failed(NullResult)
  }

  /**
   * One feature: kept as it is exactly when the line is disjoint from it; otherwise cut
   * with `polygonCut` when the width is zero, and with `polygonCutWithSpacing` otherwise,
   * the cut carrying the feature's id. It throws with zero width exactly when the feature
   * is neither a Polygon nor a MultiPolygon, and with a non-zero width exactly when the kerf
   * cut is `null`.
   */
  lemma SplitFeatureCases(k: Kernel, el: Feature, cuttingLine: Geometry, lineWidth: real, lineWidthUnit: string)
    requires IsLineString(cuttingLine)
    ensures var s := SplitFeature(k, el, cuttingLine, lineWidth, lineWidthUnit);
            && (s.Unchanged? <==> k.booleanDisjoint(el.geometry, cuttingLine))
            && (s.Unchanged? ==> s.feature == el)
            && (s.Replaced? ==> s.feature.id == el.id)
            && (!k.booleanDisjoint(el.geometry, cuttingLine) && lineWidth == 0.0 ==>
                  && (s.Failed? <==> el.geometry.kind != Str("Polygon") && el.geometry.kind != Str("MultiPolygon"))
                  && (s.Replaced? ==> s.feature == PolygonCut(k, el.geometry, cuttingLine).value.(id := el.id)))
            && (!k.booleanDisjoint(el.geometry, cuttingLine) && lineWidth != 0.0 ==>
                  && (s.Failed? <==> SpacingCut(k, el.geometry, cuttingLine, Some(lineWidth), Some(lineWidthUnit)).None?)
                  && (s.Replaced? ==>
                        s.feature == SpacingCut(k, el.geometry, cuttingLine, Some(lineWidth), Some(lineWidthUnit)).value.(id := el.id)))
  {
  }

  /** `split` gives for `el` the step `SplitFeature` gives. */
  ghost predicate SplitsAs(split: Feature -> Step, el: Feature, k: Kernel, cuttingLine: Geometry, lineWidth: real, lineWidthUnit: string)
    requires IsLineString(cuttingLine)
  {
    split(el) == SplitFeature(k, el, cuttingLine, lineWidth, lineWidthUnit)
  }

  /** `split` gives, for every feature, the step `SplitFeature` gives. */
  ghost predicate ComputesSplit(split: Feature -> Step, k: Kernel, cuttingLine: Geometry, lineWidth: real, lineWidthUnit: string)
    requires IsLineString(cuttingLine)
  {
    forall el :: SplitsAs(split, el, k, cuttingLine, lineWidth, lineWidthUnit)
  }

  /** The callback body as a function of the feature, for fixed kernel, line, width and unit. */
  function SplitOf(k: Kernel, cuttingLine: Geometry, lineWidth: real, lineWidthUnit: string): Feature -> Step
    requires IsLineString(cuttingLine)
  {
    el => SplitFeature(k, el, cuttingLine, lineWidth, lineWidthUnit)
  }

  /** The step every feature would take, in order (`split` mapped over `els`). */
  function Steps(split: Feature -> Step, els: seq<Feature>): (steps: seq<Step>)
    ensures |steps| == |els|
  {
    if els == [] then [] else [split(els[0])] + Steps(split, els[1..])
  }

  /** Step `i` is the one feature `i` takes. */
  lemma {:induction false} StepsAt(split: Feature -> Step, els: seq<Feature>, i: nat)
    requires i < |els|
    ensures Steps(split, els)[i] == split(els[i])
  {
    if i > 0 {
      StepsAt(split, els[1..], i - 1);
    }
  }

  /**
   * The steps actually taken: those of `steps` up to and including the first that throws.
   * No earlier step throws, and the result stops short of the end only after one that does.
   */
  function UpToFailure(steps: seq<Step>): (taken: seq<Step>)
    ensures |taken| <= |steps| && taken == steps[..|taken|]
    ensures forall i :: 0 <= i < |taken| - 1 ==> !taken[i].Failed?
    ensures |taken| < |steps| ==> taken != [] && taken[|taken| - 1].Failed?
  {
    if steps == [] then []
    else if steps[0].Failed? then [steps[0]]
    else [steps[0]] + UpToFailure(steps[1..])
  }

  /** When no step throws, every step is taken. */
  lemma {:induction false} UpToFailureAll(steps: seq<Step>)
    requires forall i :: 0 <= i < |steps| ==> !steps[i].Failed?
    ensures UpToFailure(steps) == steps
  {
    if steps != [] {
      UpToFailureAll(steps[1..]);
    }
  }

  /** When step `i` is the first that throws, exactly the steps up to `i` are taken. */
  lemma {:induction false} UpToFailureAt(steps: seq<Step>, i: nat)
    requires i < |steps| && steps[i].Failed?
    requires forall j :: 0 <= j < i ==> !steps[j].Failed?
    ensures UpToFailure(steps) == steps[..i + 1]
  {
    if i > 0 {
      UpToFailureAt(steps[1..], i - 1);
      assert steps[..i + 1] == [steps[0]] + steps[1..][..i];
    }
  }

  /** The steps the `onDraw` loop takes over `els`. */
  function Processed(k: Kernel, els: seq<Feature>, cuttingLine: Geometry, lineWidth: real, lineWidthUnit: string)
    : seq<Step>
    requires IsLineString(cuttingLine)
  {
    UpToFailure(Steps(SplitOf(k, cuttingLine, lineWidth, lineWidthUnit), els))
  }

  /** The feature a step pushes onto `newPolygons`. */
  function Output(s: Step): Option<Feature> {
    if s.Failed? then None else Some(s.feature)
  }

  /** The feature a step hands to `api.add`. */
  function AddedBy(s: Step): Option<Feature> {
    if s.Replaced? then Some(s.feature) else None
  }

  /** The callback's ending, given the steps taken. */
  function Outcome(steps: seq<Step>): DrawResult {
    if steps != [] && steps[|steps| - 1].Failed? then Aborted(steps[|steps| - 1].failure)
    else Completed(FilterMap(Output, steps))
  }

  /**
   * The body of the `forEach` callback for the feature at `index`: disjoint features come
   * back unchanged; otherwise the cut is computed, its id set to the feature's, and it is
   * handed to `api.add`. A throwing or `null` cut adds nothing.
   */
  method SplitEach(k: Kernel, store: FeatureStore, els: seq<Feature>, index: nat, cuttingLine: Geometry,
                   lineWidth: real, lineWidthUnit: string, ghost split: Feature -> Step)
    returns (step: Step)
    requires IsLineString(cuttingLine) && index < |els|
    requires ComputesSplit(split, k, cuttingLine, lineWidth, lineWidthUnit)
    modifies store
    ensures step == Steps(split, els)[index]
    ensures store.added == old(store.added) + (if step.Replaced? then [step.feature] else [])
  {
    StepsAt(split, els, index);
    var el := els[index];
    assert SplitsAs(split, el, k, cuttingLine, lineWidth, lineWidthUnit);
    if k.booleanDisjoint(el.geometry, cuttingLine) {
      return Unchanged(el);
    } else if lineWidth == 0.0 {
      var polycut := PolygonCut(k, el.geometry, cuttingLine);
      if polycut.Err? {
        return Failed(Threw(polycut.error));
      }
      var tagged := polycut.value.(id := el.id);
      store.Add(tagged);
      return Replaced(tagged);
    } else {
      var polycut := PolygonCutWithSpacing(k, el.geometry, cuttingLine, Some(lineWidth), Some(lineWidthUnit));
      if polycut.None? {
        return Failed(NullResult);
      }
      var tagged := polycut.value.(id := el.id);
      store.Add(tagged);
      return Replaced(tagged);
    }
  }

  /** The ending and the adds of a run in which step `i` is the first to throw. */
  lemma AbortedAt(steps: seq<Step>, i: nat)
    requires i < |steps| && steps[i].Failed?
    requires forall j :: 0 <= j < i ==> !steps[j].Failed?
    ensures Outcome(UpToFailure(steps)) == Aborted(steps[i].failure)
    ensures FilterMap(AddedBy, UpToFailure(steps)) == FilterMap(AddedBy, steps[..i + 1])
  {
    UpToFailureAt(steps, i);
    var taken := steps[..i + 1];
    assert taken[|taken| - 1] == steps[i];
  }

  /** The ending and the adds of a run in which no step throws. */
  lemma CompletedAll(steps: seq<Step>)
    requires forall j :: 0 <= j < |steps| ==> !steps[j].Failed?
    ensures Outcome(UpToFailure(steps)) == Completed(FilterMap(Output, steps))
    ensures FilterMap(AddedBy, UpToFailure(steps)) == FilterMap(AddedBy, steps)
  {
    UpToFailureAll(steps);
  }

  /**
   * The `forEach` loop of `onDraw` over the features `els`, pushing what each yields onto
   * `newPolygons`; `split` is the callback body as a function (`SplitOf`). A feature whose cut throws (or is `null`, so that its id cannot be set)
   * ends the callback, after the adds made so far.
   */
  method SplitAll(k: Kernel, store: FeatureStore, els: seq<Feature>, cuttingLine: Geometry,
                  lineWidth: real, lineWidthUnit: string, ghost split: Feature -> Step)
    returns (result: DrawResult)
    requires IsLineString(cuttingLine)
    requires ComputesSplit(split, k, cuttingLine, lineWidth, lineWidthUnit)
    modifies store
    ensures var taken := UpToFailure(Steps(split, els));
            && result == Outcome(taken)
            && store.added == old(store.added) + FilterMap(AddedBy, taken)
  {
    ghost var all := Steps(split, els);
    ghost var addedBefore := store.added;
    var newPolygons: seq<Feature> := [];
    var i := 0;
    while i < |els|
      invariant 0 <= i <= |els|
      invariant forall j :: 0 <= j < i ==> !all[j].Failed?
      invariant newPolygons == FilterMap(Output, all[..i])
      invariant store.added == addedBefore + FilterMap(AddedBy, all[..i])
    {
      ghost var addedNow := store.added;
      var step := SplitEach(k, store, els, i, cuttingLine, lineWidth, lineWidthUnit, split);
      assert all[..i + 1] == all[..i] + [step];
      FilterMapSnoc(AddedBy, all[..i], step);
      assert store.added == addedBefore + FilterMap(AddedBy, all[..i + 1]) by {
        assert store.added == addedNow + (if step.Replaced? then [step.feature] else []);
      }
      if step.Failed? {
        AbortedAt(all, i);
        return Aborted(step.failure);
      }
      FilterMapSnoc(Output, all[..i], step);
      newPolygons := newPolygons + [step.feature];
      assert forall j :: 0 <= j < i + 1 ==> !all[j].Failed? by {
        assert all[i] == step;
      }
      i := i + 1;
    }
    assert all[..i] == all;
    CompletedAll(all);
    result := Completed(newPolygons);
  }

  /**
   * The `onDraw` callback: the features of `featuresToSplit` that are present are split
   * in order, as `SplitAll` does.
   */
  method OnDraw(k: Kernel, store: FeatureStore, featuresToSplit: seq<Option<Feature>>, cuttingLine: Geometry,
                lineWidth: real, lineWidthUnit: string)
    returns (result: DrawResult)
    requires IsLineString(cuttingLine)
    modifies store
    ensures var taken := Processed(k, Present(featuresToSplit), cuttingLine, lineWidth, lineWidthUnit);
            && result == Outcome(taken)
            && store.added == old(store.added) + FilterMap(AddedBy, taken)
  {
    var els := Present(featuresToSplit);
    assert ComputesSplit(SplitOf(k, cuttingLine, lineWidth, lineWidthUnit), k, cuttingLine, lineWidth, lineWidthUnit);
    result := SplitAll(k, store, els, cuttingLine, lineWidth, lineWidthUnit, SplitOf(k, cuttingLine, lineWidth, lineWidthUnit));
  }

  /**
   * A callback that completes fires one feature per present input, in input order: the
   * input itself when the line misses it, otherwise its cut carrying its id.
   */
  lemma CompletedOutputs(k: Kernel, els: seq<Feature>, cuttingLine: Geometry, lineWidth: real, lineWidthUnit: string)
    requires IsLineString(cuttingLine)
    requires Outcome(Processed(k, els, cuttingLine, lineWidth, lineWidthUnit)).Completed?
    ensures var out := Outcome(Processed(k, els, cuttingLine, lineWidth, lineWidthUnit)).newPolygons;
            && |out| == |els|
            && forall i :: 0 <= i < |els| ==>
                 && (k.booleanDisjoint(els[i].geometry, cuttingLine) ==> out[i] == els[i])
                 && (!k.booleanDisjoint(els[i].geometry, cuttingLine) ==>
                       out[i].id == els[i].id &&
                       SplitFeature(k, els[i], cuttingLine, lineWidth, lineWidthUnit) == Replaced(out[i]))
  {
    var all := Steps(SplitOf(k, cuttingLine, lineWidth, lineWidthUnit), els);
    var taken := Processed(k, els, cuttingLine, lineWidth, lineWidthUnit);
    assert taken == all;
    FilterMapAllSome(Output, taken);
    var out := Outcome(taken).newPolygons;
    forall i | 0 <= i < |els|
      ensures k.booleanDisjoint(els[i].geometry, cuttingLine) ==> out[i] == els[i]
      ensures !k.booleanDisjoint(els[i].geometry, cuttingLine) ==>
                out[i].id == els[i].id &&
                SplitFeature(k, els[i], cuttingLine, lineWidth, lineWidthUnit) == Replaced(out[i])
    {
      StepsAt(SplitOf(k, cuttingLine, lineWidth, lineWidthUnit), els, i);
      SplitFeatureCases(k, els[i], cuttingLine, lineWidth, lineWidthUnit);
      assert out[i] == taken[i].feature;
    }
  }

  /**
   * In a completed callback, the cut of every feature the line is not disjoint from is
   * added to the store, in input order: it sits at the position given by the number of
   * features cut before it.
   */
  lemma CutResultsAdded(k: Kernel, els: seq<Feature>, cuttingLine: Geometry, lineWidth: real, lineWidthUnit: string, i: nat)
    requires IsLineString(cuttingLine)
    requires Outcome(Processed(k, els, cuttingLine, lineWidth, lineWidthUnit)).Completed?
    requires i < |els| && !k.booleanDisjoint(els[i].geometry, cuttingLine)
    ensures var taken := Processed(k, els, cuttingLine, lineWidth, lineWidthUnit);
            var added := FilterMap(AddedBy, taken);
            var out := Outcome(taken).newPolygons;
            && i < |out|
            && CountSome(AddedBy, taken[..i]) < |added|
            && added[CountSome(AddedBy, taken[..i])] == out[i]
  {
    var taken := Processed(k, els, cuttingLine, lineWidth, lineWidthUnit);
    CompletedOutputs(k, els, cuttingLine, lineWidth, lineWidthUnit);
    StepsAt(SplitOf(k, cuttingLine, lineWidth, lineWidthUnit), els, i);
    FilterMapAt(AddedBy, taken, i);
  }

  /** Whatever the ending, the store receives only cuts of features the line is not disjoint from, each with that feature's id. */
  lemma OnlyCutsAdded(k: Kernel, els: seq<Feature>, cuttingLine: Geometry, lineWidth: real, lineWidthUnit: string)
    requires IsLineString(cuttingLine)
    ensures var added := FilterMap(AddedBy, Processed(k, els, cuttingLine, lineWidth, lineWidthUnit));
            forall j :: 0 <= j < |added| ==>
              exists i :: 0 <= i < |els| && !k.booleanDisjoint(els[i].geometry, cuttingLine) &&
                added[j].id == els[i].id &&
                SplitFeature(k, els[i], cuttingLine, lineWidth, lineWidthUnit) == Replaced(added[j])
  {
    var taken := Processed(k, els, cuttingLine, lineWidth, lineWidthUnit);
    var added := FilterMap(AddedBy, taken);
    forall j | 0 <= j < |added|
      ensures exists i :: 0 <= i < |els| && !k.booleanDisjoint(els[i].geometry, cuttingLine) &&
                added[j].id == els[i].id &&
                SplitFeature(k, els[i], cuttingLine, lineWidth, lineWidthUnit) == Replaced(added[j])
    {
      FilterMapFrom(AddedBy, taken, j);
      var i :| 0 <= i < |taken| && AddedBy(taken[i]) == Some(added[j]) && CountSome(AddedBy, taken[..i]) == j;
      StepsAt(SplitOf(k, cuttingLine, lineWidth, lineWidthUnit), els, i);
      SplitFeatureCases(k, els[i], cuttingLine, lineWidth, lineWidthUnit);
      assert taken[i] == Replaced(added[j]);
    }
  }

  /** With zero width, a batch of Polygon and MultiPolygon features never throws. */
  lemma ZeroWidthPolygonsComplete(k: Kernel, els: seq<Feature>, cuttingLine: Geometry, lineWidthUnit: string)
    requires IsLineString(cuttingLine)
    requires forall i :: 0 <= i < |els| ==>
               els[i].geometry.kind == Str("Polygon") || els[i].geometry.kind == Str("MultiPolygon")
    ensures Outcome(Processed(k, els, cuttingLine, 0.0, lineWidthUnit)).Completed?
    ensures |Outcome(Processed(k, els, cuttingLine, 0.0, lineWidthUnit)).newPolygons| == |els|
  {
    var all := Steps(SplitOf(k, cuttingLine, 0.0, lineWidthUnit), els);
    forall i | 0 <= i < |all|
      ensures !all[i].Failed?
    {
      StepsAt(SplitOf(k, cuttingLine, 0.0, lineWidthUnit), els, i);
      SplitFeatureCases(k, els[i], cuttingLine, 0.0, lineWidthUnit);
    }
    UpToFailureAll(all);
    FilterMapAllSome(Output, all);
  }

  /**
   * With a non-zero width, a MultiPolygon feature the line is not disjoint from makes the
   * callback throw: the kerf cut returns `null` for it, and its id cannot be set.
   */
  lemma MultiPolygonWithWidthThrows(k: Kernel, el: Feature, cuttingLine: Geometry, lineWidth: real, lineWidthUnit: string)
    requires IsLineString(cuttingLine)
    requires lineWidth != 0.0 && el.geometry.kind == Str("MultiPolygon")
    requires !k.booleanDisjoint(el.geometry, cuttingLine)
    ensures SplitFeature(k, el, cuttingLine, lineWidth, lineWidthUnit) == Failed(NullResult)
  {
    SpacingRejectsMultiPolygon(k, el.geometry.coordinates, cuttingLine, Some(lineWidth), Some(lineWidthUnit));
  }
}
