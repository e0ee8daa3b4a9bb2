/** The model over `latest_pattern_detections`: the names of the detected patterns. */
module LatestPatternDetection {
  import opened RecommendationViews

  /** The pattern names, in the order `getDetectedPatternNames` tests their
      flags. */
  const Names: seq<string> := [
    "head_shoulder", "multiple_tops_bottoms", "triangle", "wedge", "channel",
    "double_top_bottom", "trendline", "support_resistance", "pivots"]

  /** The number of pattern flags. */
  const Count: nat := 9

  /** The flag columns, in the order of `Names`. */
  function Flags(f: PatternFlags): (r: seq<bool>)
    ensures |r| == Count == |Names|
  {
    [f.headShoulder, f.multipleTopsBottoms, f.triangle, f.wedge, f.channel,
     f.doubleTopBottom, f.trendline, f.supportResistance, f.pivots]
  }

  predicate Distinct(s: seq<string>) {
    forall i, j :: 0 <= i < j < |s| ==> s[i] != s[j]
  }

  /** The nine names have nine different lengths, so no two are equal. */
  lemma NamesDistinct()
    ensures Distinct(Names)
  {
    forall i, j | 0 <= i < j < |Names| ensures Names[i] != Names[j] {
      assert |Names[i]| != |Names[j]|;
    }
  }

  function Pick(flag: bool, name: string): seq<string> {
    if flag then [name] else []
  }

  /** The names whose flag is set among the first `n`, in order. */
  function Picked(flags: seq<bool>, names: seq<string>, n: nat): (r: seq<string>)
    requires n <= |flags| && n <= |names|
    ensures |r| <= n
  {
    if n == 0 then [] else Picked(flags, names, n - 1) + Pick(flags[n - 1], names[n - 1])
  }

  /** The names of the set flags among the first `n` patterns. */
  function Selected(f: PatternFlags, n: nat): (r: seq<string>)
    requires n <= Count
    ensures |r| <= n
  {
    Picked(Flags(f), Names, n)
  }

  /** Every picked name is the name of a set flag. */
  lemma {:induction false} PickedElements(flags: seq<bool>, names: seq<string>, n: nat, x: string)
    requires n <= |flags| && n <= |names| && x in Picked(flags, names, n)
    ensures exists k: nat :: k < n && names[k] == x && flags[k]
  {
    if x !in Picked(flags, names, n - 1) {
      assert x == names[n - 1] && flags[n - 1];
    } else {
      PickedElements(flags, names, n - 1, x);
    }
  }

  /** With distinct names, a name is picked exactly when its flag is set. */
  lemma {:induction false} PickedMembership(flags: seq<bool>, names: seq<string>, n: nat, k: nat)
    requires k < n <= |flags| && n <= |names| && Distinct(names)
    ensures names[k] in Picked(flags, names, n) <==> flags[k]
  {
    if k < n - 1 {
      PickedMembership(flags, names, n - 1, k);
    } else if names[k] in Picked(flags, names, n - 1) {
      PickedElements(flags, names, n - 1, names[k]);
    }
  }

  /** The picked names appear in the order of their flags. */
  lemma {:induction false} PickedInOrder(flags: seq<bool>, names: seq<string>, n: nat, a: nat, b: nat)
    requires n <= |flags| && n <= |names| && a < b < |Picked(flags, names, n)|
    ensures exists i: nat, j: nat :: i < j < n && names[i] == Picked(flags, names, n)[a] && names[j] == Picked(flags, names, n)[b]
  {
    var r := Picked(flags, names, n);
    var init := Picked(flags, names, n - 1);
    if b < |init| {
      PickedInOrder(flags, names, n - 1, a, b);
      var i: nat, j: nat :| i < j < n - 1 && names[i] == init[a] && names[j] == init[b];
      assert names[i] == r[a] && names[j] == r[b];
    } else {
      assert r[b] == names[n - 1];
      assert init[a] in init;
      PickedElements(flags, names, n - 1, init[a]);
      var i: nat :| i < n - 1 && names[i] == init[a] && flags[i];
      assert names[i] == r[a];
    }
  }

  /** With distinct names, no name is picked twice. */
  lemma {:induction false} PickedDistinct(flags: seq<bool>, names: seq<string>, n: nat)
    requires n <= |flags| && n <= |names| && Distinct(names)
    ensures Distinct(Picked(flags, names, n))
  {
    if n > 0 {
      PickedDistinct(flags, names, n - 1);
      if names[n - 1] in Picked(flags, names, n - 1) {
        PickedElements(flags, names, n - 1, names[n - 1]);
      }
    }
  }

  /** No flag set, no names. */
  lemma {:induction false} NonePicked(flags: seq<bool>, names: seq<string>, n: nat)
    requires n <= |flags| && n <= |names| && forall k :: 0 <= k < n ==> !flags[k]
    ensures Picked(flags, names, n) == []
  {
    if n > 0 {
      NonePicked(flags, names, n - 1);
    }
  }

  /** The selection unrolled, three flags at a time. */
  lemma SelectedFirstThree(f: PatternFlags)
    ensures Selected(f, 3) ==
      [] + Pick(f.headShoulder, "head_shoulder") + Pick(f.multipleTopsBottoms, "multiple_tops_bottoms") + Pick(f.triangle, "triangle")
  {
    assert Selected(f, 1) == [] + Pick(f.headShoulder, "head_shoulder");
    assert Selected(f, 2) == Selected(f, 1) + Pick(f.multipleTopsBottoms, "multiple_tops_bottoms");
  }

  lemma SelectedSecondThree(f: PatternFlags)
    ensures Selected(f, 6) ==
      Selected(f, 3) + Pick(f.wedge, "wedge") + Pick(f.channel, "channel") + Pick(f.doubleTopBottom, "double_top_bottom")
  {
    assert Selected(f, 4) == Selected(f, 3) + Pick(f.wedge, "wedge");
    assert Selected(f, 5) == Selected(f, 4) + Pick(f.channel, "channel");
  }

  lemma SelectedLastThree(f: PatternFlags)
    ensures Selected(f, 9) ==
      Selected(f, 6) + Pick(f.trendline, "trendline") + Pick(f.supportResistance, "support_resistance") + Pick(f.pivots, "pivots")
  {
    assert Selected(f, 7) == Selected(f, 6) + Pick(f.trendline, "trendline");
    assert Selected(f, 8) == Selected(f, 7) + Pick(f.supportResistance, "support_resistance");
  }

  /** What picking from all the flags promises: no name twice when the names
      are distinct, a name exactly when its flag is set, in the order of the
      flags, and none when no flag is set. */
  lemma PickedAll(flags: seq<bool>, names: seq<string>)
    requires |flags| == |names| && Distinct(names)
    ensures Distinct(Picked(flags, names, |flags|))
    ensures forall k :: 0 <= k < |flags| ==> (names[k] in Picked(flags, names, |flags|) <==> flags[k])
    ensures forall a, b :: 0 <= a < b < |Picked(flags, names, |flags|)| ==>
      exists i: nat, j: nat :: i < j < |flags| && names[i] == Picked(flags, names, |flags|)[a] && names[j] == Picked(flags, names, |flags|)[b]
    ensures (forall k :: 0 <= k < |flags| ==> !flags[k]) ==> Picked(flags, names, |flags|) == []
  {
    var n := |flags|;
    PickedDistinct(flags, names, n);
    forall k | 0 <= k < n ensures names[k] in Picked(flags, names, n) <==> flags[k] {
      PickedMembership(flags, names, n, k);
    }
    forall a, b | 0 <= a < b < |Picked(flags, names, n)|
      ensures exists i: nat, j: nat :: i < j < n && names[i] == Picked(flags, names, n)[a] && names[j] == Picked(flags, names, n)[b]
    {
      PickedInOrder(flags, names, n, a, b);
    }
    if forall k :: 0 <= k < n ==> !flags[k] {
      NonePicked(flags, names, n);
    }
  }

  /** What the selection of all nine flags promises: at most nine names, none
      twice, a name exactly when its flag is set, in the order of the flags,
      and none when no flag is set. */
  lemma DetectedNames(f: PatternFlags)
    ensures |Selected(f, Count)| <= Count && Distinct(Selected(f, Count))
    ensures forall k :: 0 <= k < Count ==> (Names[k] in Selected(f, Count) <==> Flags(f)[k])
    ensures forall a, b :: 0 <= a < b < |Selected(f, Count)| ==>
      exists i: nat, j: nat :: i < j < Count && Names[i] == Selected(f, Count)[a] && Names[j] == Selected(f, Count)[b]
    ensures (forall k :: 0 <= k < Count ==> !Flags(f)[k]) ==> Selected(f, Count) == []
  {
    var flags := Flags(f);
    assert Selected(f, Count) == Picked(flags, Names, |flags|);
    NamesDistinct();
    PickedAll(flags, Names);
  }

  /** `if ($flag) { $patterns[] = $name; }` */
  method AppendIf(patterns: seq<string>, flag: bool, name: string) returns (r: seq<string>)
    ensures r == patterns + Pick(flag, name)
  {
    r := patterns;
    if flag {
      r := r + [name];
    }
  }

  /** `getDetectedPatternNames`: appends the name of every set flag, in the
      order of `Selected`; `DetectedNames` states what that list promises. */
  method GetDetectedPatternNames(f: PatternFlags) returns (patterns: seq<string>)
    ensures patterns == Selected(f, Count)
  {
    patterns := [];
    patterns := AppendIf(patterns, f.headShoulder, "head_shoulder");
    patterns := AppendIf(patterns, f.multipleTopsBottoms, "multiple_tops_bottoms");
    patterns := AppendIf(patterns, f.triangle, "triangle");
    patterns := AppendIf(patterns, f.wedge, "wedge");
    patterns := AppendIf(patterns, f.channel, "channel");
    patterns := AppendIf(patterns, f.doubleTopBottom, "double_top_bottom");
    patterns := AppendIf(patterns, f.trendline, "trendline");
    patterns := AppendIf(patterns, f.supportResistance, "support_resistance");
    patterns := AppendIf(patterns, f.pivots, "pivots");
    SelectedFirstThree(f);
    SelectedSecondThree(f);
    SelectedLastThree(f);
  }
}
