/** The recommendation block of pages/uploaders_recommand.py: it adds
    normalised columns, a stability score and a weighted recommendation
    score to the uploader aggregate, then lists the ten best-scored
    uploaders of one domain. The sliders, select boxes and tables of the
    page are replaced by parameters and results. */
module Recommend {
  import opened Wrappers
  import opened Stats
  import opened DataLoader

  /** The four slider values (each from 0.0 to 1.0 on the page). */
  datatype SliderWeights = SliderWeights(totalPlays: real, avgPlays: real, videoCount: real, consistency: real)

  function TotalWeight(w: SliderWeights): real {
    w.totalPlays + w.avgPlays + w.videoCount + w.consistency
  }

  /** The score block runs on a non-empty aggregate that has `total_plays`,
      `avg_plays` and `video_count`. */
  predicate Scorable(a: AggTable) {
    a.creators != [] && a.layout.plays && a.layout.count == VideoCount
  }

  /** The columns the loop normalises, in its order. */
  const BaseColumns: seq<string> := ["total_plays", "avg_plays", "video_count"]

  /** An aggregate column by name, as numbers. */
  function Base(cs: seq<Creator>, name: string): (col: seq<real>)
    ensures |col| == |cs|
  {
    seq(|cs|, i requires 0 <= i < |cs| =>
      if name == "total_plays" then cs[i].totalPlays as real
      else if name == "avg_plays" then cs[i].avgPlays
      else cs[i].videoCount as real)
  }

  /** `f'{col}_normalized'`. */
  function NormalizedName(name: string): string {
    name + "_normalized"
  }

  /** A column label the score block writes: a plain name, or the
      `<col>_normalized` name derived from a column. */
  datatype Label = Named(name: string) | NormalizedOf(column: string)

  /** The label as the frame's column name. */
  function Text(l: Label): string {
    match l
    case Named(n) => n
    case NormalizedOf(c) => NormalizedName(c)
  }

  /** A name ending in `_normalized`. */
  predicate EndsNormalized(s: string) {
    |s| >= |"_normalized"| && s[|s| - |"_normalized"|..] == "_normalized"
  }

  lemma NormalizedNameInjective(a: string, b: string)
    requires NormalizedName(a) == NormalizedName(b)
    ensures a == b
  {
    assert |a| == |b|;
    assert a == NormalizedName(a)[..|a|];
    assert b == NormalizedName(b)[..|b|];
  }

  /** `total_plays / video_count + 1`. */
  function Denominator(c: Creator): real
    requires c.videoCount != 0
  {
    c.totalPlays as real / c.videoCount as real + 1.0
  }

  /** The division of the stability score has a finite, non-zero divisor
      (otherwise pandas would produce an infinity or NaN). */
  predicate StabilityDefined(c: Creator) {
    c.videoCount != 0 && Denominator(c) != 0.0
  }

  /** `stability_score = avg_plays / (total_plays / video_count + 1)`. */
  function Stability(cs: seq<Creator>): (col: seq<real>)
    requires forall i :: 0 <= i < |cs| ==> StabilityDefined(cs[i])
    ensures |col| == |cs|
  {
    seq(|cs|, i requires 0 <= i < |cs| && StabilityDefined(cs[i]) => cs[i].avgPlays / Denominator(cs[i]))
  }

  /** The column key of the recommendation score. */
  const ScoreKey: Label := Named("推荐分数")

  /** `stability_normalized`, the normalised `stability_score`. */
  const StabilityNormalized: Label := NormalizedOf("stability")

  const StabilityScore: Label := Named("stability_score")

  /** The weighted sum of the four normalised columns, not divided by the
      total weight. */
  function RecommendScore(cs: seq<Creator>, w: SliderWeights): (col: seq<real>)
    requires forall i :: 0 <= i < |cs| ==> StabilityDefined(cs[i])
    ensures |col| == |cs|
  {
    var tp := Normalize(Base(cs, "total_plays"), 0.5);
    var ap := Normalize(Base(cs, "avg_plays"), 0.5);
    var vc := Normalize(Base(cs, "video_count"), 0.5);
    var st := Normalize(Stability(cs), 0.5);
    Weighted(tp, ap, vc, st, w)
  }

  /** The column expression `tp * w1 + ap * w2 + vc * w3 + st * w4`. */
  function Weighted(tp: seq<real>, ap: seq<real>, vc: seq<real>, st: seq<real>, w: SliderWeights): (col: seq<real>)
    requires |ap| == |tp| && |vc| == |tp| && |st| == |tp|
    ensures |col| == |tp|
  {
    seq(|tp|, i requires 0 <= i < |tp| => Combine(tp[i], ap[i], vc[i], st[i], w))
  }

  predicate Distinct(names: seq<string>) {
    forall i, j :: 0 <= i < j < |names| ==> names[i] != names[j]
  }

  /** The aggregate's columns by name. */
  function Columns(cs: seq<Creator>): string -> seq<real> {
    name => Base(cs, name)
  }

  /** The frame's new columns after normalising the listed columns of
      `source` in turn: each adds `<col>_normalized`, the column min-max
      normalised with 0.5 for a constant column. */
  function WithNormalized(source: string -> seq<real>, names: seq<string>, cols: map<Label, seq<real>>): map<Label, seq<real>> {
    if names == [] then cols
    else
      var last := names[|names| - 1];
      WithNormalized(source, names[..|names| - 1], cols)[NormalizedOf(last) := Normalize(source(last), 0.5)]
  }

  /** Normalising the listed columns adds exactly the `_normalized` label of
      each to the columns already there. */
  lemma {:induction false} WithNormalizedKeys(source: string -> seq<real>, names: seq<string>, cols: map<Label, seq<real>>)
    ensures forall k :: k in WithNormalized(source, names, cols) <==>
              k in cols || exists j :: 0 <= j < |names| && k == NormalizedOf(names[j])
    decreases |names|
  {
    if names != [] {
      var n := |names| - 1;
      var init := names[..n];
      WithNormalizedKeys(source, init, cols);
      var key := NormalizedOf(names[n]);
      var next := WithNormalized(source, names, cols);
      assert next == WithNormalized(source, init, cols)[key := Normalize(source(names[n]), 0.5)];
      forall k | k in next
        ensures k in cols || exists j :: 0 <= j < |names| && k == NormalizedOf(names[j])
      {
        if k != key && k !in cols {
          var j :| 0 <= j < n && k == NormalizedOf(init[j]);
          assert names[j] == init[j];
        }
      }
      forall k | exists j :: 0 <= j < |names| && k == NormalizedOf(names[j])
        ensures k in next
      {
        var j :| 0 <= j < |names| && k == NormalizedOf(names[j]);
        if j < n {
          assert init[j] == names[j];
        }
      }
    }
  }

  /** For distinct names, each `_normalized` column holds its own column
      normalised: no later step overwrites it. */
  lemma {:induction false} WithNormalizedValues(source: string -> seq<real>, names: seq<string>, cols: map<Label, seq<real>>)
    requires Distinct(names)
    ensures forall j :: 0 <= j < |names| ==>
              NormalizedOf(names[j]) in WithNormalized(source, names, cols) &&
              WithNormalized(source, names, cols)[NormalizedOf(names[j])] == Normalize(source(names[j]), 0.5)
    decreases |names|
  {
    if names != [] {
      var n := |names| - 1;
      var init := names[..n];
      WithNormalizedValues(source, init, cols);
      var prev := WithNormalized(source, init, cols);
      var next := WithNormalized(source, names, cols);
      assert next == prev[NormalizedOf(names[n]) := Normalize(source(names[n]), 0.5)];
      forall j | 0 <= j < |names|
        ensures NormalizedOf(names[j]) in next
        ensures next[NormalizedOf(names[j])] == Normalize(source(names[j]), 0.5)
      {
        if j < n {
          assert init[j] == names[j];
          assert NormalizedOf(init[j]) in prev;
        }
      }
    }
  }

  /** Columns whose labels the loop does not produce are left alone. */
  lemma {:induction false} WithNormalizedOthers(source: string -> seq<real>, names: seq<string>, cols: map<Label, seq<real>>, k: Label)
    requires k in cols && forall j :: 0 <= j < |names| ==> k != NormalizedOf(names[j])
    ensures k in WithNormalized(source, names, cols) && WithNormalized(source, names, cols)[k] == cols[k]
    decreases |names|
  {
    if names != [] {
      var n := |names| - 1;
      var init := names[..n];
      forall j | 0 <= j < n
        ensures k != NormalizedOf(init[j])
      {
        assert init[j] == names[j];
      }
      WithNormalizedOthers(source, init, cols, k);
      assert k != NormalizedOf(names[n]);
    }
  }

  /** The normalisation loop over `names`. */
  method NormalizeColumns(cs: seq<Creator>, names: seq<string>, cols: map<Label, seq<real>>)
    returns (cols': map<Label, seq<real>>)
    ensures cols' == WithNormalized(Columns(cs), names, cols)
  {
    cols' := cols;
    for n := 0 to |names|
      invariant cols' == WithNormalized(Columns(cs), names[..n], cols)
    {
      assert names[..n + 1][..n] == names[..n];
      cols' := cols'[NormalizedOf(names[n]) := Normalize(Base(cs, names[n]), 0.5)];
    }
    assert names[..|names|] == names;
  }

  /** The labels of the three normalised base columns. */
  const BaseLabels: set<Label> := {NormalizedOf("total_plays"), NormalizedOf("avg_plays"), NormalizedOf("video_count")}

  /** The loop over the three base columns adds exactly their labels. */
  lemma BaseColumnsKeys(cs: seq<Creator>)
    ensures WithNormalized(Columns(cs), BaseColumns, map[]).Keys == BaseLabels
  {
    WithNormalizedKeys(Columns(cs), BaseColumns, map[]);
    var keys := WithNormalized(Columns(cs), BaseColumns, map[]).Keys;
    assert NormalizedOf(BaseColumns[0]) in keys;
    assert NormalizedOf(BaseColumns[1]) in keys;
    assert NormalizedOf(BaseColumns[2]) in keys;
    forall k | k in keys
      ensures k in BaseLabels
    {
      var j :| 0 <= j < 3 && k == NormalizedOf(BaseColumns[j]);
    }
  }

  /** The loop over the three base columns leaves each normalised. */
  lemma BaseColumnsValues(cs: seq<Creator>)
    ensures HasBaseColumns(WithNormalized(Columns(cs), BaseColumns, map[]), cs)
  {
    assert Distinct(BaseColumns);
    WithNormalizedValues(Columns(cs), BaseColumns, map[]);
  }

  /** The three `_normalized` columns hold their base columns normalised. */
  predicate HasBaseColumns(cols: map<Label, seq<real>>, cs: seq<Creator>) {
    forall j :: 0 <= j < |BaseColumns| ==>
      NormalizedOf(BaseColumns[j]) in cols && cols[NormalizedOf(BaseColumns[j])] == Normalize(Base(cs, BaseColumns[j]), 0.5)
  }

  /** The labels written after the loop are new and distinct. */
  lemma FreshLabels()
    ensures StabilityScore !in BaseLabels && StabilityNormalized !in BaseLabels && ScoreKey !in BaseLabels
    ensures StabilityScore != StabilityNormalized && ScoreKey != StabilityScore && ScoreKey != StabilityNormalized
  {
    assert "stability"[0] == 's';
    assert "total_plays"[0] == 't' && "avg_plays"[0] == 'a' && "video_count"[0] == 'v';
    assert "stability_score"[1] == 't' && "推荐分数"[1] == '荐';
  }

  /** Writing any other column keeps the three normalised columns. */
  lemma KeepsBase(cols: map<Label, seq<real>>, cs: seq<Creator>, k: Label, v: seq<real>)
    requires HasBaseColumns(cols, cs) && k !in BaseLabels
    ensures HasBaseColumns(cols[k := v], cs)
  {
    forall j | 0 <= j < |BaseColumns|
      ensures NormalizedOf(BaseColumns[j]) != k
    {
      assert NormalizedOf(BaseColumns[j]) in BaseLabels;
    }
  }

  /** The labels the score block adds. */
  function AddedColumns(w: SliderWeights): set<Label> {
    BaseLabels + {StabilityScore, StabilityNormalized}
    + (if TotalWeight(w) > 0.0 then {ScoreKey} else {})
  }

  /** The score block of the page: on a scorable aggregate it adds the three
      normalised columns, `stability_score`, `stability_normalized` and,
      when the weights sum to more than 0, the recommendation score;
      otherwise it adds nothing. */
  method RecommendationScores(a: AggTable, w: SliderWeights) returns (cols: map<Label, seq<real>>)
    requires Scorable(a) ==> forall i :: 0 <= i < |a.creators| ==> StabilityDefined(a.creators[i])
    ensures !Scorable(a) ==> cols == map[]
    ensures Scorable(a) ==> cols.Keys == AddedColumns(w)
    ensures Scorable(a) ==> HasBaseColumns(cols, a.creators)
    ensures Scorable(a) ==> cols[StabilityScore] == Stability(a.creators)
    ensures Scorable(a) ==> cols[StabilityNormalized] == Normalize(Stability(a.creators), 0.5)
    ensures ScoreKey in cols <==> Scorable(a) && TotalWeight(w) > 0.0
    ensures ScoreKey in cols ==> cols[ScoreKey] == RecommendScore(a.creators, w)
  {
    cols := map[];
    if !Scorable(a) {
      return;
    }
    var cs := a.creators;
    cols := NormalizeColumns(cs, BaseColumns, cols);
    BaseColumnsKeys(cs);
    BaseColumnsValues(cs);
    FreshLabels();
    assert cols.Keys == BaseLabels;
    KeepsBase(cols, cs, StabilityScore, Stability(cs));
    cols := cols[StabilityScore := Stability(cs)];
    KeepsBase(cols, cs, StabilityNormalized, Normalize(cols[StabilityScore], 0.5));
    cols := cols[StabilityNormalized := Normalize(cols[StabilityScore], 0.5)];
    assert cols.Keys == BaseLabels + {StabilityScore, StabilityNormalized};
    var total := w.totalPlays + w.avgPlays + w.videoCount + w.consistency;
    if total > 0.0 {
      var tp := cols[NormalizedOf("total_plays")];
      var ap := cols[NormalizedOf("avg_plays")];
      var vc := cols[NormalizedOf("video_count")];
      var st := cols[StabilityNormalized];
      assert tp == Normalize(Base(cs, "total_plays"), 0.5) by { assert BaseColumns[0] == "total_plays"; }
      assert ap == Normalize(Base(cs, "avg_plays"), 0.5) by { assert BaseColumns[1] == "avg_plays"; }
      assert vc == Normalize(Base(cs, "video_count"), 0.5) by { assert BaseColumns[2] == "video_count"; }
      KeepsBase(cols, cs, ScoreKey, Weighted(tp, ap, vc, st, w));
      cols := cols[ScoreKey := Weighted(tp, ap, vc, st, w)];
    }
  }

  // ---------------------------------------------------------------------
  // Column names
  // ---------------------------------------------------------------------

  /** Two labels with the same column name are the same label, unless a
      plain name itself ends in `_normalized`. */
  lemma TextInjective(a: Label, b: Label)
    requires a.Named? ==> !EndsNormalized(a.name)
    requires b.Named? ==> !EndsNormalized(b.name)
    requires Text(a) == Text(b)
    ensures a == b
  {
    if a.NormalizedOf? && b.NormalizedOf? {
      NormalizedNameInjective(a.column, b.column);
    } else if a.NormalizedOf? {
      NormalizedEnds(a.column);
    } else if b.NormalizedOf? {
      NormalizedEnds(b.column);
    }
  }

  lemma NormalizedEnds(x: string)
    ensures EndsNormalized(NormalizedName(x))
  {
    var s := NormalizedName(x);
    assert s[|s| - |"_normalized"|..] == "_normalized";
  }

  /** The columns the score block adds have pairwise different names in the
      frame, so no write overwrites another. */
  lemma AddedNamesDistinct(w: SliderWeights, a: Label, b: Label)
    requires a in AddedColumns(w) && b in AddedColumns(w) && Text(a) == Text(b)
    ensures a == b
  {
    assert |"推荐分数"| < |"_normalized"|;
    var t := "stability_score";
    assert t[|t| - |"_normalized"|..] != "_normalized" by {
      assert t[|t| - |"_normalized"|..][10] == 'e';
    }
    TextInjective(a, b);
  }

  // ---------------------------------------------------------------------
  // What the scores mean
  // ---------------------------------------------------------------------

  /** For a group whose video count is its number of rows, with
      non-negative play counts, `total_plays / video_count` is `avg_plays`:
      the stability score is `avg_plays / (avg_plays + 1)`. */
  lemma ReducedStability(name: string, g: seq<Video>, s: Schema)
    requires g != [] && CountField(s) == Row
    requires forall j :: 0 <= j < |g| ==> g[j].plays >= 0
    ensures var c := Reduce(name, g, s);
      && c.videoCount == |g| && c.avgPlays >= 0.0 && StabilityDefined(c)
      && c.avgPlays / Denominator(c) == c.avgPlays / (c.avgPlays + 1.0)
  {
    var c := Reduce(name, g, s);
    RowTotalIsLength(g);
    TotalNonNegative(g, Plays);
    assert c.avgPlays == c.totalPlays as real / |g| as real;
    assert Denominator(c) == c.avgPlays + 1.0;
  }

  /** On an aggregate of non-negative play counts each uploader's video
      count is their number of rows and their stability score is
      `avg_plays / (avg_plays + 1)`. */
  lemma AggregateStability(t: VideoTable, i: nat)
    requires Scorable(Aggregated(t)) && i < |Aggregated(t).creators|
    requires forall k :: 0 <= k < |t.rows| ==> t.rows[k].plays >= 0
    ensures var c := Aggregated(t).creators[i];
      && c.videoCount == |GroupRows(t.rows, c.name)| && c.avgPlays >= 0.0 && StabilityDefined(c)
      && c.avgPlays / Denominator(c) == c.avgPlays / (c.avgPlays + 1.0)
  {
    var cs := Aggregated(t).creators;
    var names := GroupNames(t.rows);
    GroupsNonEmpty(t.rows);
    var g := GroupRows(t.rows, names[i]);
    assert cs[i] == Reduce(names[i], g, t.schema);
    assert CountField(t.schema) == Row;
    GroupMembers(t.rows, names[i]);
    forall j | 0 <= j < |g|
      ensures g[j].plays >= 0
    {
      assert g[j] in g;
    }
    ReducedStability(names[i], g, t.schema);
  }

  /** Every uploader's stability lies in [0, 1). */
  lemma StabilityInRange(t: VideoTable, i: nat)
    requires Scorable(Aggregated(t)) && i < |Aggregated(t).creators|
    requires forall k :: 0 <= k < |t.rows| ==> t.rows[k].plays >= 0
    ensures var cs := Aggregated(t).creators;
      (forall j :: 0 <= j < |cs| ==> StabilityDefined(cs[j])) && 0.0 <= Stability(cs)[i] < 1.0
  {
    var cs := Aggregated(t).creators;
    forall j | 0 <= j < |cs|
      ensures StabilityDefined(cs[j])
    {
      AggregateStability(t, j);
    }
    AggregateStability(t, i);
    var x := cs[i].avgPlays;
    assert Stability(cs)[i] == x / (x + 1.0);
    QuotientInUnit(x, x + 1.0);
    assert x / (x + 1.0) * (x + 1.0) == x;
  }

  /** `x / (x + 1)` is strictly increasing on the non-negative numbers. */
  lemma RatioIncreasing(x: real, y: real)
    requires 0.0 <= x && 0.0 <= y
    ensures x / (x + 1.0) <= y / (y + 1.0) <==> x <= y
  {
    var p, q := x / (x + 1.0), y / (y + 1.0);
    assert p * (x + 1.0) == x && q * (y + 1.0) == y;
    assert p == 1.0 - 1.0 / (x + 1.0);
    assert q == 1.0 - 1.0 / (y + 1.0);
    if x <= y {
      QuotientMonotone(1.0, 1.0, y + 1.0);
      assert 1.0 / (y + 1.0) <= 1.0 / (x + 1.0) by {
        assert 1.0 / (y + 1.0) * (y + 1.0) == 1.0;
        assert 1.0 / (x + 1.0) * (x + 1.0) == 1.0;
      }
    } else {
      assert 1.0 / (x + 1.0) < 1.0 / (y + 1.0) by {
        assert 1.0 / (y + 1.0) * (y + 1.0) == 1.0;
        assert 1.0 / (x + 1.0) * (x + 1.0) == 1.0;
      }
    }
  }

  /** The stability score orders uploaders exactly as `avg_plays` does. */
  lemma StabilityFollowsAverage(t: VideoTable, i: nat, j: nat)
    requires Scorable(Aggregated(t)) && i < |Aggregated(t).creators| && j < |Aggregated(t).creators|
    requires forall k :: 0 <= k < |t.rows| ==> t.rows[k].plays >= 0
    ensures var cs := Aggregated(t).creators;
      (forall k :: 0 <= k < |cs| ==> StabilityDefined(cs[k]))
      && (Stability(cs)[i] <= Stability(cs)[j] <==> cs[i].avgPlays <= cs[j].avgPlays)
  {
    var cs := Aggregated(t).creators;
    StabilityInRange(t, i);
    AggregateStability(t, i);
    AggregateStability(t, j);
    RatioIncreasing(cs[i].avgPlays, cs[j].avgPlays);
  }

  /** A weight times an entry of [0, 1] lies between 0 and the weight. */
  lemma Scaled(x: real, w: real)
    requires 0.0 <= x <= 1.0 && 0.0 <= w
    ensures 0.0 <= x * w <= w
  {
    assert w - x * w == (1.0 - x) * w;
  }

  lemma ScaledMonotone(x: real, y: real, w: real)
    requires x <= y && 0.0 <= w
    ensures x * w <= y * w
  {
    assert y * w - x * w == (y - x) * w;
  }

  /** The entries of four columns in [0, 1] combine to a weighted sum
      between 0 and the total weight. */
  lemma WeightedBounds(tp: seq<real>, ap: seq<real>, vc: seq<real>, st: seq<real>, w: SliderWeights, i: nat)
    requires |ap| == |tp| && |vc| == |tp| && |st| == |tp| && i < |tp|
    requires 0.0 <= tp[i] <= 1.0 && 0.0 <= ap[i] <= 1.0 && 0.0 <= vc[i] <= 1.0 && 0.0 <= st[i] <= 1.0
    requires w.totalPlays >= 0.0 && w.avgPlays >= 0.0 && w.videoCount >= 0.0 && w.consistency >= 0.0
    ensures 0.0 <= Weighted(tp, ap, vc, st, w)[i] <= TotalWeight(w)
  {
    assert Weighted(tp, ap, vc, st, w)[i] == Combine(tp[i], ap[i], vc[i], st[i], w);
    CombineBounds(tp[i], ap[i], vc[i], st[i], w);
  }

  /** One entry of the weighted sum. */
  function Combine(x1: real, x2: real, x3: real, x4: real, w: SliderWeights): real {
    x1 * w.totalPlays + x2 * w.avgPlays + x3 * w.videoCount + x4 * w.consistency
  }

  lemma CombineBounds(x1: real, x2: real, x3: real, x4: real, w: SliderWeights)
    requires 0.0 <= x1 <= 1.0 && 0.0 <= x2 <= 1.0 && 0.0 <= x3 <= 1.0 && 0.0 <= x4 <= 1.0
    requires w.totalPlays >= 0.0 && w.avgPlays >= 0.0 && w.videoCount >= 0.0 && w.consistency >= 0.0
    ensures 0.0 <= Combine(x1, x2, x3, x4, w) <= TotalWeight(w)
  {
    FourBounds(x1, x2, x3, x4, w.totalPlays, w.avgPlays, w.videoCount, w.consistency);
  }

  lemma FourBounds(x1: real, x2: real, x3: real, x4: real, w1: real, w2: real, w3: real, w4: real)
    requires 0.0 <= x1 <= 1.0 && 0.0 <= x2 <= 1.0 && 0.0 <= x3 <= 1.0 && 0.0 <= x4 <= 1.0
    requires 0.0 <= w1 && 0.0 <= w2 && 0.0 <= w3 && 0.0 <= w4
    ensures 0.0 <= x1 * w1 + x2 * w2 + x3 * w3 + x4 * w4 <= w1 + w2 + w3 + w4
  {
    Scaled(x1, w1);
    Scaled(x2, w2);
    Scaled(x3, w3);
    Scaled(x4, w4);
    SumBelow(x1 * w1, x2 * w2, x3 * w3, x4 * w4, w1, w2, w3, w4);
  }

  lemma SumBelow(a: real, b: real, c: real, d: real, w1: real, w2: real, w3: real, w4: real)
    requires 0.0 <= a <= w1 && 0.0 <= b <= w2 && 0.0 <= c <= w3 && 0.0 <= d <= w4
    ensures 0.0 <= a + b + c + d <= w1 + w2 + w3 + w4
  {
  }

  /** Entries no smaller in every column give a weighted sum no smaller. */
  lemma WeightedMonotone(tp: seq<real>, ap: seq<real>, vc: seq<real>, st: seq<real>, w: SliderWeights, i: nat, j: nat)
    requires |ap| == |tp| && |vc| == |tp| && |st| == |tp| && i < |tp| && j < |tp|
    requires tp[j] <= tp[i] && ap[j] <= ap[i] && vc[j] <= vc[i] && st[j] <= st[i]
    requires w.totalPlays >= 0.0 && w.avgPlays >= 0.0 && w.videoCount >= 0.0 && w.consistency >= 0.0
    ensures Weighted(tp, ap, vc, st, w)[j] <= Weighted(tp, ap, vc, st, w)[i]
  {
    assert Weighted(tp, ap, vc, st, w)[i] == Combine(tp[i], ap[i], vc[i], st[i], w);
    assert Weighted(tp, ap, vc, st, w)[j] == Combine(tp[j], ap[j], vc[j], st[j], w);
    FourMonotone(tp[j], ap[j], vc[j], st[j], tp[i], ap[i], vc[i], st[i],
                 w.totalPlays, w.avgPlays, w.videoCount, w.consistency);
  }

  lemma FourMonotone(x1: real, x2: real, x3: real, x4: real, y1: real, y2: real, y3: real, y4: real,
                     w1: real, w2: real, w3: real, w4: real)
    requires x1 <= y1 && x2 <= y2 && x3 <= y3 && x4 <= y4
    requires 0.0 <= w1 && 0.0 <= w2 && 0.0 <= w3 && 0.0 <= w4
    ensures x1 * w1 + x2 * w2 + x3 * w3 + x4 * w4 <= y1 * w1 + y2 * w2 + y3 * w3 + y4 * w4
  {
    ScaledMonotone(x1, y1, w1);
    ScaledMonotone(x2, y2, w2);
    ScaledMonotone(x3, y3, w3);
    ScaledMonotone(x4, y4, w4);
    SumMonotone(x1 * w1, x2 * w2, x3 * w3, x4 * w4, y1 * w1, y2 * w2, y3 * w3, y4 * w4);
  }

  lemma SumMonotone(a: real, b: real, c: real, d: real, e: real, f: real, g: real, h: real)
    requires a <= e && b <= f && c <= g && d <= h
    ensures a + b + c + d <= e + f + g + h
  {
  }

  /** With non-negative weights every recommendation score lies between 0
      and the total weight. */
  lemma RecommendScoreBounds(cs: seq<Creator>, w: SliderWeights, i: nat)
    requires forall k :: 0 <= k < |cs| ==> StabilityDefined(cs[k])
    requires w.totalPlays >= 0.0 && w.avgPlays >= 0.0 && w.videoCount >= 0.0 && w.consistency >= 0.0
    requires i < |cs|
    ensures 0.0 <= RecommendScore(cs, w)[i] <= TotalWeight(w)
  {
    var tp := Normalize(Base(cs, "total_plays"), 0.5);
    var ap := Normalize(Base(cs, "avg_plays"), 0.5);
    var vc := Normalize(Base(cs, "video_count"), 0.5);
    var st := Normalize(Stability(cs), 0.5);
    NormalizeInUnit(Base(cs, "total_plays"), 0.5, i);
    NormalizeInUnit(Base(cs, "avg_plays"), 0.5, i);
    NormalizeInUnit(Base(cs, "video_count"), 0.5, i);
    NormalizeInUnit(Stability(cs), 0.5, i);
    WeightedBounds(tp, ap, vc, st, w, i);
  }

  /** An uploader at least as good as another in total plays, average
      plays, video count and stability scores at least as high. */
  lemma RecommendScoreMonotone(cs: seq<Creator>, w: SliderWeights, i: nat, j: nat)
    requires forall k :: 0 <= k < |cs| ==> StabilityDefined(cs[k])
    requires w.totalPlays >= 0.0 && w.avgPlays >= 0.0 && w.videoCount >= 0.0 && w.consistency >= 0.0
    requires i < |cs| && j < |cs|
    requires cs[j].totalPlays <= cs[i].totalPlays && cs[j].avgPlays <= cs[i].avgPlays
    requires cs[j].videoCount <= cs[i].videoCount && Stability(cs)[j] <= Stability(cs)[i]
    ensures RecommendScore(cs, w)[j] <= RecommendScore(cs, w)[i]
  {
    var tp, ap := Base(cs, "total_plays"), Base(cs, "avg_plays");
    var vc, st := Base(cs, "video_count"), Stability(cs);
    assert tp[j] <= tp[i] && ap[j] <= ap[i] && vc[j] <= vc[i];
    NormalizeMonotone(tp, 0.5, j, i);
    NormalizeMonotone(ap, 0.5, j, i);
    NormalizeMonotone(vc, 0.5, j, i);
    NormalizeMonotone(st, 0.5, j, i);
    WeightedMonotone(Normalize(tp, 0.5), Normalize(ap, 0.5), Normalize(vc, 0.5), Normalize(st, 0.5), w, i, j);
  }

  /** A lone uploader (every column constant) scores half the total weight. */
  lemma SingleCreatorScore(cs: seq<Creator>, w: SliderWeights)
    requires |cs| == 1 && StabilityDefined(cs[0])
    ensures RecommendScore(cs, w)[0] == 0.5 * TotalWeight(w)
  {
    NormalizeConstant(Base(cs, "total_plays"), 0.5, 0);
    NormalizeConstant(Base(cs, "avg_plays"), 0.5, 0);
    NormalizeConstant(Base(cs, "video_count"), 0.5, 0);
    NormalizeConstant(Stability(cs), 0.5, 0);
  }

  // ---------------------------------------------------------------------
  // The ten best uploaders of a domain
  // ---------------------------------------------------------------------

  /** How many uploaders the page lists. */
  const TopCount: nat := 10

  /** The order of `nlargest` with `keep='first'`: uploader `i` comes before
      `j` when it scores higher, or scores the same and comes earlier. */
  predicate Before(scores: seq<real>, i: nat, j: nat) {
    i < |scores| && j < |scores| && (scores[i] > scores[j] || (scores[i] == scores[j] && i < j))
  }

  lemma BeforeTransitive(scores: seq<real>, i: nat, j: nat, k: nat)
    requires Before(scores, i, j) && Before(scores, j, k)
    ensures Before(scores, i, k)
  {
  }

  lemma BeforeTotal(scores: seq<real>, i: nat, j: nat)
    requires i < |scores| && j < |scores| && i != j
    ensures Before(scores, i, j) || Before(scores, j, i)
  {
  }

  /** A list of uploader positions in strictly decreasing rank. */
  predicate Ordered(scores: seq<real>, top: seq<nat>) {
    forall k, l :: 0 <= k < l < |top| ==> Before(scores, top[k], top[l])
  }

  /** `top` is what `nlargest(10)` returns for the uploaders of `domain`
      among the first `n`: at most ten of them, best first, and any
      uploader of the domain left out ranks after all ten. */
  predicate Ranked(cs: seq<Creator>, scores: seq<real>, domain: string, top: seq<nat>, n: nat) {
    && n <= |cs|
    && |top| <= TopCount
    && (forall k :: 0 <= k < |top| ==> top[k] < n && cs[top[k]].domain == domain)
    && Ordered(scores, top)
    && (forall j :: 0 <= j < n && cs[j].domain == domain && j !in top ==>
          |top| == TopCount && forall k :: 0 <= k < |top| ==> Before(scores, top[k], j))
  }

  /** Inserting `i` where it ranks keeps the list ordered. */
  lemma InsertOrdered(scores: seq<real>, top: seq<nat>, i: nat, pos: nat)
    requires Ordered(scores, top) && pos <= |top|
    requires forall k :: 0 <= k < pos ==> Before(scores, top[k], i)
    requires forall k :: pos <= k < |top| ==> Before(scores, i, top[k])
    ensures Ordered(scores, top[..pos] + [i] + top[pos..])
  {
    var grown := top[..pos] + [i] + top[pos..];
    assert forall k :: 0 <= k < pos ==> grown[k] == top[k];
    assert grown[pos] == i;
    assert forall k :: pos < k < |grown| ==> grown[k] == top[k - 1];
  }

  /** One step of `nlargest`: offer uploader `i`, later than every listed
      one, to a ranked list of at most ten. */
  method InsertRanked(scores: seq<real>, top: seq<nat>, i: nat) returns (top': seq<nat>)
    requires Ordered(scores, top) && |top| <= TopCount && i < |scores|
    requires forall k :: 0 <= k < |top| ==> top[k] < i
    ensures Ordered(scores, top') && |top'| <= TopCount
    ensures |top| == TopCount ==> |top'| == TopCount
    ensures forall k :: 0 <= k < |top'| ==> top'[k] in top || top'[k] == i
    ensures i in top' <==> |top| < TopCount || Before(scores, i, top[|top| - 1])
    ensures i !in top' ==> forall k :: 0 <= k < |top'| ==> Before(scores, top'[k], i)
    ensures forall x :: x in top && x !in top' ==>
              |top'| == TopCount && forall k :: 0 <= k < |top'| ==> Before(scores, top'[k], x)
  {
    var pos := 0;
    while pos < |top| && Before(scores, top[pos], i)
      invariant pos <= |top|
      invariant forall k :: 0 <= k < pos ==> Before(scores, top[k], i)
    {
      pos := pos + 1;
    }
    forall k | pos <= k < |top|
      ensures Before(scores, i, top[k])
    {
      BeforeTotal(scores, i, top[pos]);
      if k > pos {
        BeforeTransitive(scores, i, top[pos], top[k]);
      }
    }
    InsertOrdered(scores, top, i, pos);
    var grown := top[..pos] + [i] + top[pos..];
    assert forall x :: x in grown <==> x in top || x == i;
    if |grown| > TopCount {
      top' := grown[..TopCount];
      assert grown == top' + [grown[TopCount]];
      if pos < TopCount {
        assert top'[pos] == i;
      } else {
        assert top' == top;
        assert i !in top;
      }
    } else {
      top' := grown;
    }
  }

  /** `domain_up.nlargest(10, '推荐分数')` on the uploaders of `domain`,
      given as positions in the aggregate. */
  method TopTen(cs: seq<Creator>, scores: seq<real>, domain: string) returns (top: seq<nat>)
    requires |scores| == |cs|
    ensures Ranked(cs, scores, domain, top, |cs|)
  {
    top := [];
    for n := 0 to |cs|
      invariant Ranked(cs, scores, domain, top, n)
    {
      if cs[n].domain == domain {
        var top' := InsertRanked(scores, top, n);
        forall j | 0 <= j < n + 1 && cs[j].domain == domain && j !in top'
          ensures |top'| == TopCount && forall k :: 0 <= k < |top'| ==> Before(scores, top'[k], j)
        {
          if j in top {
            // dropped by this step
          } else if j < n {
            forall k | 0 <= k < |top'|
              ensures Before(scores, top'[k], j)
            {
              if top'[k] == n {
                BeforeTransitive(scores, n, top[|top| - 1], j);
              } else {
                var l :| 0 <= l < |top| && top[l] == top'[k];
              }
            }
          }
        }
        top := top';
      }
    }
  }

  /** Where two rankings first differ, the first does not rank above the
      second. */
  lemma FirstDifference(cs: seq<Creator>, scores: seq<real>, domain: string, a: seq<nat>, b: seq<nat>, k: nat)
    requires Ranked(cs, scores, domain, a, |cs|) && Ranked(cs, scores, domain, b, |cs|)
    requires k < |a| && k < |b| && a[..k] == b[..k]
    ensures !Before(scores, a[k], b[k])
  {
    var x := a[k];
    NotInPrefix(scores, a, k);
    if x in b {
      var l :| 0 <= l < |b| && b[l] == x;
      if l > k {
        assert Before(scores, b[k], b[l]);
      }
    }
  }

  /** A ranking that is a prefix of another is the whole of it. */
  lemma PrefixRanking(cs: seq<Creator>, scores: seq<real>, domain: string, a: seq<nat>, b: seq<nat>)
    requires Ranked(cs, scores, domain, a, |cs|) && Ranked(cs, scores, domain, b, |cs|)
    requires |a| <= |b| && a == b[..|a|]
    ensures |a| == |b|
  {
    if |a| < |b| {
      NotInPrefix(scores, b, |a|);
    }
  }

  /** In an ordered list no entry repeats an earlier one. */
  lemma NotInPrefix(scores: seq<real>, top: seq<nat>, m: nat)
    requires Ordered(scores, top) && m < |top|
    ensures top[m] !in top[..m]
  {
    forall l | 0 <= l < m
      ensures top[l] != top[m]
    {
      assert Before(scores, top[l], top[m]);
    }
  }

  /** The conditions of `Ranked` leave only one list: the ten (or fewer)
      best uploaders of the domain, best first. */
  lemma RankedUnique(cs: seq<Creator>, scores: seq<real>, domain: string, a: seq<nat>, b: seq<nat>)
    requires |scores| == |cs|
    requires Ranked(cs, scores, domain, a, |cs|) && Ranked(cs, scores, domain, b, |cs|)
    ensures a == b
  {
    var k := 0;
    while k < |a| && k < |b| && a[k] == b[k]
      invariant k <= |a| && k <= |b| && a[..k] == b[..k]
    {
      assert a[..k + 1] == a[..k] + [a[k]];
      assert b[..k + 1] == b[..k] + [b[k]];
      k := k + 1;
    }
    if k < |a| && k < |b| {
      BeforeTotal(scores, a[k], b[k]);
      FirstDifference(cs, scores, domain, a, b, k);
      FirstDifference(cs, scores, domain, b, a, k);
    } else if k == |a| {
      assert a == b[..|a|];
      PrefixRanking(cs, scores, domain, a, b);
    } else {
      assert b == a[..|b|];
      PrefixRanking(cs, scores, domain, b, a);
    }
  }

  /** A ranking holds every uploader of the domain when there are at most
      ten of them, and ten otherwise. */
  lemma RankedSize(cs: seq<Creator>, scores: seq<real>, domain: string, top: seq<nat>)
    requires Ranked(cs, scores, domain, top, |cs|)
    ensures |top| < TopCount ==> forall j :: 0 <= j < |cs| && cs[j].domain == domain ==> j in top
    ensures forall x :: x in top ==> cs[x].domain == domain
  {
  }

  /** What the recommendation section shows: nothing, or the positions of
      the ten best uploaders of the selected domain. */
  method RecommendPage(a: AggTable, w: SliderWeights, selected: string) returns (r: Option<seq<nat>>)
    requires Scorable(a) ==> forall i :: 0 <= i < |a.creators| ==> StabilityDefined(a.creators[i])
    ensures r.Some? <==> a.layout.domain && Scorable(a) && TotalWeight(w) > 0.0
    ensures r.Some? ==> Ranked(a.creators, RecommendScore(a.creators, w), selected, r.value, |a.creators|)
  {
    var cols := RecommendationScores(a, w);
    if a.creators == [] || !a.layout.domain {
      return None;
    }
    if ScoreKey !in cols {
      return None;
    }
    var top := TopTen(a.creators, cols[ScoreKey], selected);
    r := Some(top);
  }
}
