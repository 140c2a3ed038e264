/** The analysis layer of utils/data_loader.py over the cleaned video table:
    `get_filtered_data` (optional row filters), `get_up_aggregated_data`
    (one row per uploader with sums, means, maxima, a video count and a
    composite score) and `get_data_summary`. Loading the spreadsheet, the
    Streamlit cache and the progress output are not modelled. */
module DataLoader {
  import opened Wrappers
  import opened Stats

  // ---------------------------------------------------------------------
  // The cleaned video table
  // ---------------------------------------------------------------------

  /** One row of the cleaned table: text columns hold strings, the count
      columns integers (the state the cleaner leaves them in). */
  datatype Video = Video(
    upName: string,
    domain: string,
    gender: string,
    plays: int,
    coins: int,
    likes: int,
    danmu: int,
    uploads: int)   // the per-row `video_count` column

  /** Which of the columns the loader looks at exist in the frame. A row
      still carries a value for an absent column; no operation reads it. */
  datatype Schema = Schema(
    upName: bool,
    domain: bool,
    gender: bool,
    plays: bool,
    coins: bool,
    likes: bool,
    danmu: bool,
    title: bool,
    videoCount: bool)

  datatype VideoTable = VideoTable(schema: Schema, rows: seq<Video>)

  /** `df[mask]` for a row-wise mask: the rows satisfying `p`, in order. */
  function Filter(rows: seq<Video>, p: Video -> bool): (r: seq<Video>)
    ensures |r| <= |rows|
  {
    if rows == [] then []
    else
      var last := rows[|rows| - 1];
      Filter(rows[..|rows| - 1], p) + (if p(last) then [last] else [])
  }

  /** `a` can be obtained from `b` by deleting elements. */
  predicate SubsequenceOf(a: seq<Video>, b: seq<Video>)
    decreases |b|
  {
    if a == [] then true
    else if b == [] then false
    else if a[|a| - 1] == b[|b| - 1] then SubsequenceOf(a[..|a| - 1], b[..|b| - 1])
    else SubsequenceOf(a, b[..|b| - 1])
  }

  lemma FilterAppend(rows: seq<Video>, v: Video, p: Video -> bool)
    ensures Filter(rows + [v], p) == Filter(rows, p) + (if p(v) then [v] else [])
  {
    assert (rows + [v])[..|rows|] == rows;
  }

  /** Filtering keeps the rows in their order. */
  lemma {:induction false} FilterIsSubsequence(rows: seq<Video>, p: Video -> bool)
    ensures SubsequenceOf(Filter(rows, p), rows)
    decreases |rows|
  {
    if rows != [] {
      var init := rows[..|rows| - 1];
      FilterIsSubsequence(init, p);
      var last := rows[|rows| - 1];
      var r := Filter(rows, p);
      if !p(last) {
        assert r == Filter(init, p);
        SubsequenceWiden(r, init, last);
        assert init + [last] == rows;
      } else {
        assert r == Filter(init, p) + [last];
        assert r[..|r| - 1] == Filter(init, p);
        assert r[|r| - 1] == rows[|rows| - 1];
      }
    }
  }

  /** Dropping the last element of a subsequence keeps it a subsequence. */
  lemma {:induction false} SubsequenceDrop(a: seq<Video>, b: seq<Video>)
    requires a != [] && SubsequenceOf(a, b)
    ensures SubsequenceOf(a[..|a| - 1], b)
    decreases |b|, 0
  {
    var b' := b[..|b| - 1];
    if a[|a| - 1] == b[|b| - 1] {
      SubsequenceWiden(a[..|a| - 1], b', b[|b| - 1]);
      assert b' + [b[|b| - 1]] == b;
    } else {
      SubsequenceDrop(a, b');
      SubsequenceWiden(a[..|a| - 1], b', b[|b| - 1]);
      assert b' + [b[|b| - 1]] == b;
    }
  }

  /** Appending an element to the longer sequence keeps a subsequence. */
  lemma {:induction false} SubsequenceWiden(a: seq<Video>, b: seq<Video>, v: Video)
    requires SubsequenceOf(a, b)
    ensures SubsequenceOf(a, b + [v])
    decreases |b|, 1
  {
    var b' := b + [v];
    assert b'[..|b'| - 1] == b;
    if a != [] && a[|a| - 1] == v {
      SubsequenceDrop(a, b);
    }
  }

  /** A row occurs in the filtered rows exactly as often as in the input
      when it passes, and not at all otherwise. */
  lemma {:induction false} FilterCount(rows: seq<Video>, p: Video -> bool, v: Video)
    ensures multiset(Filter(rows, p))[v] == if p(v) then multiset(rows)[v] else 0
    decreases |rows|
  {
    if rows != [] {
      var init := rows[..|rows| - 1];
      FilterCount(init, p, v);
      assert rows == init + [rows[|rows| - 1]];
    }
  }

  /** Filters whose tests agree on every row give the same rows. */
  lemma {:induction false} FilterAgree(rows: seq<Video>, p: Video -> bool, q: Video -> bool)
    requires forall v :: p(v) == q(v)
    ensures Filter(rows, p) == Filter(rows, q)
    decreases |rows|
  {
    if rows != [] {
      FilterAgree(rows[..|rows| - 1], p, q);
    }
  }

  /** Filtering twice is filtering once by both tests. */
  lemma {:induction false} FilterTwice(rows: seq<Video>, p: Video -> bool, q: Video -> bool, pq: Video -> bool)
    requires forall v :: pq(v) == (p(v) && q(v))
    ensures Filter(Filter(rows, p), q) == Filter(rows, pq)
    decreases |rows|
  {
    if rows != [] {
      var init := rows[..|rows| - 1];
      var last := rows[|rows| - 1];
      FilterTwice(init, p, q, pq);
      if p(last) {
        assert Filter(rows, p) == Filter(init, p) + [last];
        FilterAppend(Filter(init, p), last, q);
      } else {
        assert Filter(rows, p) == Filter(init, p);
      }
    }
  }

  /** A filter every row passes keeps the rows unchanged. */
  lemma {:induction false} FilterKeepsAll(rows: seq<Video>, p: Video -> bool)
    requires forall k :: 0 <= k < |rows| ==> p(rows[k])
    ensures Filter(rows, p) == rows
    decreases |rows|
  {
    if rows != [] {
      FilterKeepsAll(rows[..|rows| - 1], p);
    }
  }

  // ---------------------------------------------------------------------
  // get_filtered_data
  // ---------------------------------------------------------------------

  /** The value under `domains` or `genders` in the filters dict. */
  datatype Choice =
    | Unset                       // key absent, or a falsy value such as None
    | Listed(values: seq<string>) // a list
    | NotAList                    // any other truthy value

  /** The filters dict; a plays bound that is absent or None is `None`. */
  datatype Filters = Filters(
    domains: Choice,
    genders: Choice,
    minPlays: Option<real>,
    maxPlays: Option<real>)

  /** A `domains`/`genders` entry restricts the rows only when it is a
      non-empty list. */
  predicate Restricts(c: Choice) {
    c.Listed? && c.values != []
  }

  /** The reference meaning of the filters: a row is kept iff it meets every
      active condition, the plays bounds being inclusive. */
  predicate Admits(f: Filters, v: Video) {
    && (Restricts(f.domains) ==> v.domain in f.domains.values)
    && (Restricts(f.genders) ==> v.gender in f.genders.values)
    && (f.minPlays.Some? ==> v.plays as real >= f.minPlays.value)
    && (f.maxPlays.Some? ==> v.plays as real <= f.maxPlays.value)
  }

  function AdmitTest(f: Filters): Video -> bool {
    v => Admits(f, v)
  }

  /** An active condition whose column is absent raises `KeyError`. */
  predicate MissingFilterColumn(s: Schema, f: Filters) {
    || (Restricts(f.domains) && !s.domain)
    || (Restricts(f.genders) && !s.gender)
    || ((f.minPlays.Some? || f.maxPlays.Some?) && !s.plays)
  }

  /** The rows the filters keep. */
  function Kept(rows: seq<Video>, f: Filters): seq<Video> {
    Filter(rows, AdmitTest(f))
  }

  /** What `get_filtered_data(df, filters)` returns or raises. */
  function FilteredData(t: VideoTable, filters: Option<Filters>): Outcome<VideoTable> {
    match filters
    case None => Returns(t)
    case Some(f) =>
      if MissingFilterColumn(t.schema, f) then Raises(KeyError)
      else Returns(VideoTable(t.schema, Kept(t.rows, f)))
  }

  /** One boolean mask of `get_filtered_data`. */
  datatype Mask =
    | DomainIn(domains: seq<string>)
    | GenderIn(genders: seq<string>)
    | AtLeast(low: real)
    | AtMost(high: real)

  predicate Passes(m: Mask, v: Video) {
    match m
    case DomainIn(ds) => v.domain in ds
    case GenderIn(gs) => v.gender in gs
    case AtLeast(lo) => v.plays as real >= lo
    case AtMost(hi) => v.plays as real <= hi
  }

  function MaskTest(m: Mask): Video -> bool {
    v => Passes(m, v)
  }

  predicate PassesAll(ms: seq<Mask>, v: Video) {
    forall k :: 0 <= k < |ms| ==> Passes(ms[k], v)
  }

  function AllTest(ms: seq<Mask>): Video -> bool {
    v => PassesAll(ms, v)
  }

  /** The masks the code applies, in its order. */
  function Masks(f: Filters): seq<Mask> {
    DomainMask(f) + GenderMask(f) + LowMask(f) + HighMask(f)
  }

  function DomainMask(f: Filters): seq<Mask> {
    if Restricts(f.domains) then [DomainIn(f.domains.values)] else []
  }

  function GenderMask(f: Filters): seq<Mask> {
    if Restricts(f.genders) then [GenderIn(f.genders.values)] else []
  }

  function LowMask(f: Filters): seq<Mask> {
    if f.minPlays.Some? then [AtLeast(f.minPlays.value)] else []
  }

  function HighMask(f: Filters): seq<Mask> {
    if f.maxPlays.Some? then [AtMost(f.maxPlays.value)] else []
  }

  /** Applying one more mask to rows already filtered by some masks. */
  lemma ApplyMask(rows: seq<Video>, ms: seq<Mask>, m: Mask)
    ensures Filter(Filter(rows, AllTest(ms)), MaskTest(m)) == Filter(rows, AllTest(ms + [m]))
  {
    forall v
      ensures AllTest(ms + [m])(v) == (AllTest(ms)(v) && MaskTest(m)(v))
    {
      var ms' := ms + [m];
      if PassesAll(ms', v) {
        assert Passes(ms'[|ms|], v);
        forall k | 0 <= k < |ms|
          ensures Passes(ms[k], v)
        {
          assert ms'[k] == ms[k];
        }
      }
      if PassesAll(ms, v) && Passes(m, v) {
        forall k | 0 <= k < |ms'|
          ensures Passes(ms'[k], v)
        {
          if k < |ms| {
            assert ms'[k] == ms[k];
          }
        }
      }
    }
    FilterTwice(rows, AllTest(ms), MaskTest(m), AllTest(ms + [m]));
  }

  /** Passing all the masks is the reference meaning of the filters. */
  lemma MasksMeanAdmits(f: Filters, v: Video)
    ensures PassesAll(Masks(f), v) == Admits(f, v)
  {
    var ms := Masks(f);
    if Admits(f, v) {
      forall k | 0 <= k < |ms|
        ensures Passes(ms[k], v)
      {
      }
    } else {
      var d := if Restricts(f.domains) then 1 else 0;
      var g := d + if Restricts(f.genders) then 1 else 0;
      var l := g + if f.minPlays.Some? then 1 else 0;
      if Restricts(f.domains) && v.domain !in f.domains.values {
        assert !Passes(ms[0], v);
      } else if Restricts(f.genders) && v.gender !in f.genders.values {
        assert !Passes(ms[d], v);
      } else if f.minPlays.Some? && v.plays as real < f.minPlays.value {
        assert !Passes(ms[g], v);
      } else {
        assert !Passes(ms[l], v);
      }
    }
  }

  /** `get_filtered_data`: the masks are applied one after another to a
      copy of the frame; a mask over an absent column raises `KeyError`. */
  method GetFilteredData(t: VideoTable, filters: Option<Filters>) returns (r: Outcome<VideoTable>)
    ensures r == FilteredData(t, filters)
  {
    if filters.None? {
      return Returns(t);
    }
    var f := filters.value;
    var rows := t.rows;
    FilterKeepsAll(t.rows, AllTest([]));
    if Restricts(f.domains) {
      if !t.schema.domain {
        return Raises(KeyError);
      }
      var m := DomainIn(f.domains.values);
      ApplyMask(t.rows, [], m);
      rows := Filter(rows, MaskTest(m));
      assert rows == Filter(t.rows, AllTest([] + [m]));
      assert [] + [m] == DomainMask(f);
    }
    ghost var applied := DomainMask(f);
    assert rows == Filter(t.rows, AllTest(applied));
    if Restricts(f.genders) {
      if !t.schema.gender {
        return Raises(KeyError);
      }
      var m := GenderIn(f.genders.values);
      ApplyMask(t.rows, applied, m);
      rows := Filter(rows, MaskTest(m));
      assert [m] == GenderMask(f);
    } else {
      assert applied + GenderMask(f) == applied;
    }
    applied := applied + GenderMask(f);
    assert rows == Filter(t.rows, AllTest(applied));
    if f.minPlays.Some? {
      if !t.schema.plays {
        return Raises(KeyError);
      }
      var m := AtLeast(f.minPlays.value);
      ApplyMask(t.rows, applied, m);
      rows := Filter(rows, MaskTest(m));
      assert [m] == LowMask(f);
    } else {
      assert applied + LowMask(f) == applied;
    }
    applied := applied + LowMask(f);
    assert rows == Filter(t.rows, AllTest(applied));
    if f.maxPlays.Some? {
      if !t.schema.plays {
        return Raises(KeyError);
      }
      var m := AtMost(f.maxPlays.value);
      ApplyMask(t.rows, applied, m);
      rows := Filter(rows, MaskTest(m));
      assert [m] == HighMask(f);
    } else {
      assert applied + HighMask(f) == applied;
    }
    applied := applied + HighMask(f);
    assert rows == Filter(t.rows, AllTest(applied));
    forall v
      ensures AllTest(applied)(v) == AdmitTest(f)(v)
    {
      MasksMeanAdmits(f, v);
    }
    FilterAgree(t.rows, AllTest(applied), AdmitTest(f));
    r := Returns(VideoTable(t.schema, rows));
  }

  /** The filtered rows are an order-preserving subsequence of the input in
      which each row occurs as often as in the input if it meets every active
      condition, and never otherwise. */
  lemma FilteredRows(t: VideoTable, f: Filters, v: Video)
    requires !MissingFilterColumn(t.schema, f)
    ensures FilteredData(t, Some(f)).Returns?
    ensures SubsequenceOf(FilteredData(t, Some(f)).value.rows, t.rows)
    ensures multiset(FilteredData(t, Some(f)).value.rows)[v]
              == if Admits(f, v) then multiset(t.rows)[v] else 0
  {
    FilterIsSubsequence(t.rows, AdmitTest(f));
    FilterCount(t.rows, AdmitTest(f), v);
  }

  /** Filters with no active condition (absent, empty or non-list entries
      and no bounds) keep the table as it is, as `filters is None` does. */
  lemma InactiveFiltersKeepAll(t: VideoTable, f: Filters)
    requires !Restricts(f.domains) && !Restricts(f.genders)
    requires f.minPlays.None? && f.maxPlays.None?
    ensures FilteredData(t, Some(f)) == FilteredData(t, None) == Returns(t)
  {
    FilterKeepsAll(t.rows, AdmitTest(f));
  }

  /** The filters the recommendation page builds, every domain and gender
      present in the table, keep every row. */
  lemma AllValuesKeepAll(t: VideoTable, f: Filters)
    requires t.schema.domain && t.schema.gender
    requires f.domains == Listed(seq(|t.rows|, k requires 0 <= k < |t.rows| => t.rows[k].domain))
    requires f.genders == Listed(seq(|t.rows|, k requires 0 <= k < |t.rows| => t.rows[k].gender))
    requires f.minPlays.None? && f.maxPlays.None?
    ensures FilteredData(t, Some(f)) == Returns(t)
  {
    forall k | 0 <= k < |t.rows|
      ensures Admits(f, t.rows[k])
    {
      assert f.domains.values[k] == t.rows[k].domain;
      assert f.genders.values[k] == t.rows[k].gender;
    }
    FilterKeepsAll(t.rows, AdmitTest(f));
  }

  // ---------------------------------------------------------------------
  // Ordering of uploader names
  // ---------------------------------------------------------------------

  /** Python's `a < b` on strings: code-point lexicographic order with a
      proper prefix first. pandas `groupby` sorts its keys in this order. */
  predicate Below(a: string, b: string) {
    if a == [] then b != []
    else if b == [] then false
    else if a[0] != b[0] then a[0] < b[0]
    else Below(a[1..], b[1..])
  }

  lemma {:induction false} BelowIrreflexive(a: string)
    ensures !Below(a, a)
  {
    if a != [] {
      BelowIrreflexive(a[1..]);
    }
  }

  lemma {:induction false} BelowTransitive(a: string, b: string, c: string)
    requires Below(a, b) && Below(b, c)
    ensures Below(a, c)
  {
    if a != [] && b != [] && c != [] && a[0] == b[0] && b[0] == c[0] {
      BelowTransitive(a[1..], b[1..], c[1..]);
    }
  }

  lemma {:induction false} BelowTotal(a: string, b: string)
    requires a != b
    ensures Below(a, b) || Below(b, a)
  {
    if a != [] && b != [] && a[0] == b[0] {
      assert a == [a[0]] + a[1..] && b == [b[0]] + b[1..];
      BelowTotal(a[1..], b[1..]);
    }
  }

  lemma {:induction false} BelowAsymmetric(a: string, b: string)
    requires Below(a, b)
    ensures !Below(b, a)
  {
    if a != [] && b != [] && a[0] == b[0] {
      BelowAsymmetric(a[1..], b[1..]);
    }
  }

  predicate StrictlySorted(names: seq<string>) {
    forall i, j :: 0 <= i < j < |names| ==> Below(names[i], names[j])
  }

  /** Inserts a name into a strictly sorted list of names, once. */
  function Insert(n: string, names: seq<string>): seq<string> {
    if names == [] then [n]
    else if n == names[0] then names
    else if Below(n, names[0]) then [n] + names
    else [names[0]] + Insert(n, names[1..])
  }

  lemma {:induction false} InsertFacts(n: string, names: seq<string>)
    requires StrictlySorted(names)
    ensures StrictlySorted(Insert(n, names))
    ensures forall x :: x in Insert(n, names) <==> x == n || x in names
  {
    if names == [] {
    } else if n == names[0] {
    } else if Below(n, names[0]) {
      var r := [n] + names;
      forall i, j | 0 <= i < j < |r|
        ensures Below(r[i], r[j])
      {
        if i == 0 && j > 1 {
          BelowTransitive(n, names[0], names[j - 1]);
        }
      }
    } else {
      var tail := names[1..];
      InsertFacts(n, tail);
      BelowTotal(n, names[0]);
      var r := [names[0]] + Insert(n, tail);
      forall i, j | 0 <= i < j < |r|
        ensures Below(r[i], r[j])
      {
        if i == 0 {
          assert r[j] in Insert(n, tail);
          if r[j] != n {
            var k :| 0 <= k < |tail| && tail[k] == r[j];
            assert names[k + 1] == r[j];
          }
        }
      }
    }
  }

  /** The names of some rows. */
  function NameSet(rows: seq<Video>): set<string> {
    set k | 0 <= k < |rows| :: rows[k].upName
  }

  /** The group keys of `df.groupby('up_name')`, in sorted order. */
  function GroupNames(rows: seq<Video>): seq<string> {
    if rows == [] then []
    else Insert(rows[|rows| - 1].upName, GroupNames(rows[..|rows| - 1]))
  }

  /** The group keys are strictly sorted, hence distinct, and are exactly
      the names occurring in the rows. */
  lemma {:induction false} GroupNamesFacts(rows: seq<Video>)
    ensures StrictlySorted(GroupNames(rows))
    ensures forall x :: x in GroupNames(rows) <==> x in NameSet(rows)
    decreases |rows|
  {
    if rows != [] {
      var init := rows[..|rows| - 1];
      GroupNamesFacts(init);
      InsertFacts(rows[|rows| - 1].upName, GroupNames(init));
      forall x
        ensures x in NameSet(rows) <==> x == rows[|rows| - 1].upName || x in NameSet(init)
      {
        if x in NameSet(rows) && x != rows[|rows| - 1].upName {
          var k :| 0 <= k < |rows| && rows[k].upName == x;
          assert init[k].upName == x;
        }
        if x in NameSet(init) {
          var k :| 0 <= k < |init| && init[k].upName == x;
          assert rows[k].upName == x;
        }
      }
    }
  }

  function NameTest(name: string): Video -> bool {
    (v: Video) => v.upName == name
  }

  /** The rows of one uploader, in their order in the table. */
  function GroupRows(rows: seq<Video>, name: string): seq<Video> {
    Filter(rows, NameTest(name))
  }

  lemma GroupNonEmpty(rows: seq<Video>, name: string)
    requires name in NameSet(rows)
    ensures GroupRows(rows, name) != []
  {
    var k :| 0 <= k < |rows| && rows[k].upName == name;
    FilterCount(rows, NameTest(name), rows[k]);
    assert rows[k] in multiset(rows);
  }

  lemma GroupsNonEmpty(rows: seq<Video>)
    ensures forall k :: 0 <= k < |GroupNames(rows)| ==> GroupRows(rows, GroupNames(rows)[k]) != []
  {
    GroupNamesFacts(rows);
    forall k | 0 <= k < |GroupNames(rows)|
      ensures GroupRows(rows, GroupNames(rows)[k]) != []
    {
      GroupNonEmpty(rows, GroupNames(rows)[k]);
    }
  }

  // ---------------------------------------------------------------------
  // Reductions
  // ---------------------------------------------------------------------

  /** A numeric column of the video rows; `Row` counts every row once, as
      `count` does on a column without missing values. */
  datatype Field = Row | Plays | Coins | Likes | Danmu | Uploads

  function Value(v: Video, f: Field): int {
    match f
    case Row => 1
    case Plays => v.plays
    case Coins => v.coins
    case Likes => v.likes
    case Danmu => v.danmu
    case Uploads => v.uploads
  }

  /** `sum` of a column over some rows. */
  function Total(rows: seq<Video>, f: Field): int {
    if rows == [] then 0 else Total(rows[..|rows| - 1], f) + Value(rows[|rows| - 1], f)
  }

  /** `max` of a column over some rows. */
  function Largest(rows: seq<Video>, f: Field): (m: int)
    requires rows != []
    ensures exists k :: 0 <= k < |rows| && Value(rows[k], f) == m
    ensures forall k :: 0 <= k < |rows| ==> Value(rows[k], f) <= m
  {
    var last := Value(rows[|rows| - 1], f);
    if |rows| == 1 then last
    else
      var m := Largest(rows[..|rows| - 1], f);
      if m >= last then m else last
  }

  /** `mean` of a column over some rows. */
  function Mean(rows: seq<Video>, f: Field): real
    requires rows != []
  {
    Total(rows, f) as real / |rows| as real
  }

  /** Where the per-uploader video count comes from: the row count under
      `video_title` (or, failing both columns, under `up_name`) or the sum
      of the `video_count` column. */
  function CountField(s: Schema): Field {
    if s.title || !s.videoCount then Row else Uploads
  }

  /** One aggregated row per uploader. */
  datatype Creator = Creator(
    name: string,
    domain: string,      // `first`
    gender: string,      // `first`
    totalPlays: int,
    avgPlays: real,
    maxPlays: int,
    totalCoins: int,
    avgCoins: real,
    totalLikes: int,
    avgLikes: real,
    totalDanmu: int,
    avgDanmu: real,
    videoCount: int)

  /** The aggregate column that holds the sum of a row column. */
  function Stored(c: Creator, f: Field): int {
    match f
    case Plays => c.totalPlays
    case Coins => c.totalCoins
    case Likes => c.totalLikes
    case Danmu => c.totalDanmu
    case Row => c.videoCount
    case Uploads => c.videoCount
  }

  /** The reductions of `agg_config` applied to one group. */
  function Reduce(name: string, g: seq<Video>, s: Schema): Creator
    requires g != []
  {
    Creator(name, g[0].domain, g[0].gender,
            Total(g, Plays), Mean(g, Plays), Largest(g, Plays),
            Total(g, Coins), Mean(g, Coins),
            Total(g, Likes), Mean(g, Likes),
            Total(g, Danmu), Mean(g, Danmu),
            Total(g, CountField(s)))
  }

  /** `df.groupby('up_name').agg(agg_config)`: one row per group key. */
  function Creators(rows: seq<Video>, s: Schema): (cs: seq<Creator>)
    ensures |cs| == |GroupNames(rows)|
  {
    var names := GroupNames(rows);
    GroupsNonEmpty(rows);
    seq(|names|, k requires 0 <= k < |names| => Reduce(names[k], GroupRows(rows, names[k]), s))
  }

  // ---------------------------------------------------------------------
  // Column names after flattening and renaming
  // ---------------------------------------------------------------------

  datatype CountName =
    | VideoCount      // renamed to `video_count`
    | VideoCountSum   // left as `video_count_sum`: no rename matches it
    | NoCount         // no column of the documented names

  /** Which documented columns the aggregate carries besides `up_name`:
      `domain`, `gender`, `total_plays`/`avg_plays`/`max_plays`,
      `total_coins`/`avg_coins`, `total_likes`/`avg_likes`,
      `total_danmu`/`avg_danmu` and the video count. */
  datatype Layout = Layout(
    domain: bool,
    gender: bool,
    plays: bool,
    coins: bool,
    likes: bool,
    danmu: bool,
    count: CountName)

  /** Without any plays, coins, likes or danmu column every reduction is a
      single function, pandas returns flat column names, and joining the
      characters of each name with '_' leaves none of the documented names. */
  predicate FlatNames(s: Schema) {
    !(s.plays || s.coins || s.likes || s.danmu)
  }

  function LayoutOf(s: Schema): Layout {
    if FlatNames(s) then Layout(false, false, false, false, false, false, NoCount)
    else
      Layout(s.domain, s.gender, s.plays, s.coins, s.likes, s.danmu,
             if s.title || !s.videoCount then VideoCount else VideoCountSum)
  }

  // ---------------------------------------------------------------------
  // The composite score
  // ---------------------------------------------------------------------

  /** A creator total that enters `comprehensive_score`. */
  datatype Metric = TotalPlays | TotalCoins | TotalLikes | TotalDanmu

  function Weight(m: Metric): real {
    match m
    case TotalPlays => 0.2
    case TotalCoins => 0.3
    case TotalLikes => 0.3
    case TotalDanmu => 0.2
  }

  function MetricOf(c: Creator, m: Metric): int {
    match m
    case TotalPlays => c.totalPlays
    case TotalCoins => c.totalCoins
    case TotalLikes => c.totalLikes
    case TotalDanmu => c.totalDanmu
  }

  function Column(cs: seq<Creator>, m: Metric): (col: seq<real>)
    ensures |col| == |cs|
  {
    seq(|cs|, i requires 0 <= i < |cs| => MetricOf(cs[i], m) as real)
  }

  function PlaysPart(l: Layout): seq<Metric> { if l.plays then [TotalPlays] else [] }
  function CoinsPart(l: Layout): seq<Metric> { if l.coins then [TotalCoins] else [] }
  function LikesPart(l: Layout): seq<Metric> { if l.likes then [TotalLikes] else [] }
  function DanmuPart(l: Layout): seq<Metric> { if l.danmu then [TotalDanmu] else [] }

  /** The totals present in the aggregate, in the order the code visits them. */
  function PresentMetrics(l: Layout): seq<Metric> {
    PlaysPart(l) + CoinsPart(l) + LikesPart(l) + DanmuPart(l)
  }

  /** `score_components`: each present total, min-max normalised, a
      constant column becoming 0. */
  function Components(cs: seq<Creator>, ms: seq<Metric>): seq<seq<real>> {
    seq(|ms|, k requires 0 <= k < |ms| => Normalize(Column(cs, ms[k]), 0.0))
  }

  /** `weights`, aligned with the components. */
  function Weights(ms: seq<Metric>): seq<real> {
    seq(|ms|, k requires 0 <= k < |ms| => Weight(ms[k]))
  }

  /** `sum(comp[i] * weight for comp, weight in zip(...))` at row `i`. */
  function Dot(cols: seq<seq<real>>, ws: seq<real>, i: nat): real
    requires |cols| == |ws|
    requires forall k :: 0 <= k < |cols| ==> i < |cols[k]|
  {
    if cols == [] then 0.0
    else Dot(cols[..|cols| - 1], ws[..|ws| - 1], i) + cols[|cols| - 1][i] * ws[|ws| - 1]
  }

  /** The weighted sum of the components divided by the sum of the weights. */
  function WeightedMean(cols: seq<seq<real>>, ws: seq<real>, n: nat): (r: seq<real>)
    requires |cols| == |ws|
    requires forall k :: 0 <= k < |cols| ==> |cols[k]| == n
    requires Sum(ws) != 0.0
    ensures |r| == n
  {
    seq(n, i requires 0 <= i < n => Dot(cols, ws, i) / Sum(ws))
  }

  /** The `comprehensive_score` column, if the code adds one. */
  function ScoreColumn(l: Layout, cs: seq<Creator>): Option<seq<real>> {
    var ms := PresentMetrics(l);
    if cs == [] || ms == [] || !(Sum(Weights(ms)) > 0.0) then None
    else Some(WeightedMean(Components(cs, ms), Weights(ms), |cs|))
  }

  lemma ComponentsAppend(cs: seq<Creator>, ms: seq<Metric>, m: Metric)
    ensures Components(cs, ms + [m]) == Components(cs, ms) + [Normalize(Column(cs, m), 0.0)]
    ensures Weights(ms + [m]) == Weights(ms) + [Weight(m)]
  {
    assert forall k :: 0 <= k < |ms| ==> (ms + [m])[k] == ms[k];
  }

  /** One step of the score block: `score_components.append(normalized)`
      and `weights.append(weight)`. */
  method AppendComponent(cs: seq<Creator>, components: seq<seq<real>>, weights: seq<real>,
                         ghost ms: seq<Metric>, m: Metric)
    returns (components': seq<seq<real>>, weights': seq<real>)
    requires components == Components(cs, ms) && weights == Weights(ms)
    ensures components' == Components(cs, ms + [m]) && weights' == Weights(ms + [m])
  {
    ComponentsAppend(cs, ms, m);
    components' := components + [Normalize(Column(cs, m), 0.0)];
    weights' := weights + [Weight(m)];
  }

  /** The first half of the score block: each present total, in the order
      plays, coins, likes, danmu, appends its normalised column to
      `score_components` and its weight to `weights`. */
  method ScoreComponents(l: Layout, cs: seq<Creator>) returns (components: seq<seq<real>>, weights: seq<real>)
    ensures components == Components(cs, PresentMetrics(l))
    ensures weights == Weights(PresentMetrics(l))
  {
    components := [];
    weights := [];
    ghost var ms: seq<Metric> := [];
    if l.plays {
      components, weights := AppendComponent(cs, components, weights, ms, TotalPlays);
      assert PlaysPart(l) == [TotalPlays];
    } else {
      assert ms + PlaysPart(l) == ms;
    }
    ms := ms + PlaysPart(l);
    assert components == Components(cs, ms) && weights == Weights(ms);
    if l.coins {
      components, weights := AppendComponent(cs, components, weights, ms, TotalCoins);
      assert CoinsPart(l) == [TotalCoins];
    } else {
      assert ms + CoinsPart(l) == ms;
    }
    ms := ms + CoinsPart(l);
    assert components == Components(cs, ms) && weights == Weights(ms);
    if l.likes {
      components, weights := AppendComponent(cs, components, weights, ms, TotalLikes);
      assert LikesPart(l) == [TotalLikes];
    } else {
      assert ms + LikesPart(l) == ms;
    }
    ms := ms + LikesPart(l);
    assert components == Components(cs, ms) && weights == Weights(ms);
    if l.danmu {
      components, weights := AppendComponent(cs, components, weights, ms, TotalDanmu);
      assert DanmuPart(l) == [TotalDanmu];
    } else {
      assert ms + DanmuPart(l) == ms;
    }
    ms := ms + DanmuPart(l);
    assert components == Components(cs, ms) && weights == Weights(ms);
    assert ms == PresentMetrics(l);
  }

  /** The score block: the `comprehensive_score` column is added only if
      the frame is not empty, some component exists and the weights sum to
      more than 0. */
  method ComprehensiveScore(l: Layout, cs: seq<Creator>) returns (score: Option<seq<real>>)
    ensures score == ScoreColumn(l, cs)
  {
    if cs == [] {
      return None;
    }
    var components, weights := ScoreComponents(l, cs);
    if components != [] && Sum(weights) > 0.0 {
      score := Some(WeightedMean(components, weights, |cs|));
    } else {
      score := None;
    }
  }

  // ---------------------------------------------------------------------
  // get_up_aggregated_data
  // ---------------------------------------------------------------------

  /** The aggregate frame: its documented columns, one row per uploader and
      the optional `comprehensive_score` column. */
  datatype AggTable = AggTable(layout: Layout, creators: seq<Creator>, score: Option<seq<real>>)

  /** `pd.DataFrame()`: no columns and no rows. */
  const EmptyAggregate: AggTable :=
    AggTable(Layout(false, false, false, false, false, false, NoCount), [], None)

  /** What `get_up_aggregated_data(df)` returns. */
  function Aggregated(t: VideoTable): AggTable {
    if t.rows == [] || !t.schema.upName then EmptyAggregate
    else
      var cs := Creators(t.rows, t.schema);
      AggTable(LayoutOf(t.schema), cs, ScoreColumn(LayoutOf(t.schema), cs))
  }

  /** `get_up_aggregated_data`: an empty frame without rows or without
      `up_name`, otherwise the grouped, renamed and scored aggregate. */
  method GetUpAggregatedData(t: VideoTable) returns (r: AggTable)
    ensures r == Aggregated(t)
    ensures t.rows == [] || !t.schema.upName ==> r.creators == [] && r.score.None?
    ensures t.rows != [] && t.schema.upName ==> |r.creators| == |NameSet(t.rows)|
  {
    if t.rows == [] || !t.schema.upName {
      return EmptyAggregate;
    }
    var layout := LayoutOf(t.schema);
    var creators := Creators(t.rows, t.schema);
    var score := ComprehensiveScore(layout, creators);
    r := AggTable(layout, creators, score);
    GroupNamesFacts(t.rows);
    SortedCard(GroupNames(t.rows), NameSet(t.rows));
  }

  /** A strictly sorted list has as many elements as the set it lists. */
  lemma {:induction false} SortedCard(names: seq<string>, s: set<string>)
    requires StrictlySorted(names)
    requires forall x :: x in names <==> x in s
    ensures |s| == |names|
    decreases |names|
  {
    if names != [] {
      var tail := names[1..];
      forall x
        ensures x in tail <==> x in s - {names[0]}
      {
        if x in tail {
          var k :| 0 <= k < |tail| && tail[k] == x;
          assert names[k + 1] == x;
          BelowIrreflexive(x);
        }
        if x in s - {names[0]} {
          assert x in names;
        }
      }
      SortedCard(tail, s - {names[0]});
    }
  }

  // ---------------------------------------------------------------------
  // Properties of the composite score
  // ---------------------------------------------------------------------

  lemma {:induction false} DotBounds(cols: seq<seq<real>>, ws: seq<real>, i: nat)
    requires |cols| == |ws|
    requires forall k :: 0 <= k < |cols| ==> i < |cols[k]| && 0.0 <= cols[k][i] <= 1.0
    requires forall k :: 0 <= k < |ws| ==> ws[k] >= 0.0
    ensures 0.0 <= Dot(cols, ws, i) <= Sum(ws)
    decreases |cols|
  {
    if cols != [] {
      var n := |cols| - 1;
      DotBounds(cols[..n], ws[..n], i);
      assert 0.0 <= cols[n][i] * ws[n] <= ws[n];
      assert Dot(cols, ws, i) == Dot(cols[..n], ws[..n], i) + cols[n][i] * ws[n];
      assert Sum(ws) == Sum(ws[..n]) + ws[n];
    }
  }

  lemma {:induction false} DotMonotone(cols: seq<seq<real>>, ws: seq<real>, i: nat, j: nat)
    requires |cols| == |ws|
    requires forall k :: 0 <= k < |cols| ==> i < |cols[k]| && j < |cols[k]| && cols[k][i] <= cols[k][j]
    requires forall k :: 0 <= k < |ws| ==> ws[k] >= 0.0
    ensures Dot(cols, ws, i) <= Dot(cols, ws, j)
    decreases |cols|
  {
    if cols != [] {
      var n := |cols| - 1;
      DotMonotone(cols[..n], ws[..n], i, j);
      assert cols[n][i] * ws[n] <= cols[n][j] * ws[n];
    }
  }

  /** The weights are positive, so they sum to more than 0 whenever some
      total is present. */
  lemma {:induction false} WeightsPositive(ms: seq<Metric>)
    ensures forall k :: 0 <= k < |Weights(ms)| ==> Weights(ms)[k] > 0.0
    ensures ms != [] ==> Sum(Weights(ms)) > 0.0
    ensures ms == [] ==> Sum(Weights(ms)) == 0.0
    decreases |ms|
  {
    if ms != [] {
      var n := |ms| - 1;
      WeightsPositive(ms[..n]);
      assert Weights(ms)[..n] == Weights(ms[..n]);
    }
  }

  /** The score column exists exactly when the aggregate has rows and at
      least one of the four totals. */
  lemma ScoreExists(l: Layout, cs: seq<Creator>)
    ensures ScoreColumn(l, cs).Some? <==> cs != [] && PresentMetrics(l) != []
    ensures ScoreColumn(l, cs).Some? ==> |ScoreColumn(l, cs).value| == |cs|
  {
    WeightsPositive(PresentMetrics(l));
  }

  /** Every score lies in [0, 1]. */
  lemma ScoreInUnit(l: Layout, cs: seq<Creator>, i: nat)
    requires ScoreColumn(l, cs).Some? && i < |cs|
    ensures 0.0 <= ScoreColumn(l, cs).value[i] <= 1.0
  {
    var ms := PresentMetrics(l);
    var cols, ws := Components(cs, ms), Weights(ms);
    forall k | 0 <= k < |cols|
      ensures i < |cols[k]| && 0.0 <= cols[k][i] <= 1.0
    {
      NormalizeInUnit(Column(cs, ms[k]), 0.0, i);
    }
    WeightsPositive(ms);
    DotBounds(cols, ws, i);
    QuotientInUnit(Dot(cols, ws, i), Sum(ws));
  }

  /** An uploader at least as large as another on every present total
      scores at least as high. */
  lemma ScoreMonotone(l: Layout, cs: seq<Creator>, i: nat, j: nat)
    requires ScoreColumn(l, cs).Some? && i < |cs| && j < |cs|
    requires forall k :: 0 <= k < |PresentMetrics(l)| ==>
               MetricOf(cs[i], PresentMetrics(l)[k]) <= MetricOf(cs[j], PresentMetrics(l)[k])
    ensures ScoreColumn(l, cs).value[i] <= ScoreColumn(l, cs).value[j]
  {
    var ms := PresentMetrics(l);
    var cols, ws := Components(cs, ms), Weights(ms);
    forall k | 0 <= k < |cols|
      ensures i < |cols[k]| && j < |cols[k]| && cols[k][i] <= cols[k][j]
    {
      var col := Column(cs, ms[k]);
      assert col[i] <= col[j];
      NormalizeMonotone(col, 0.0, i, j);
    }
    WeightsPositive(ms);
    DotMonotone(cols, ws, i, j);
    QuotientMonotone(Dot(cols, ws, i), Dot(cols, ws, j), Sum(ws));
  }

  /** With a single total present the weight cancels: the score is that
      total, normalised. */
  lemma SingleMetricScore(l: Layout, cs: seq<Creator>, m: Metric, i: nat)
    requires PresentMetrics(l) == [m] && i < |cs|
    ensures ScoreColumn(l, cs).Some?
    ensures ScoreColumn(l, cs).value[i] == Normalize(Column(cs, m), 0.0)[i]
  {
    SingleComponent(cs, m, i);
    var x := Normalize(Column(cs, m), 0.0)[i];
    var score := WeightedMean(Components(cs, [m]), Weights([m]), |cs|);
    assert ScoreColumn(l, cs) == Some(score);
    assert score[i] == x * Weight(m) / Weight(m);
    CancelWeight(x, Weight(m));
  }

  lemma SingleComponent(cs: seq<Creator>, m: Metric, i: nat)
    requires i < |cs|
    ensures Sum(Weights([m])) == Weight(m) > 0.0
    ensures Dot(Components(cs, [m]), Weights([m]), i) == Normalize(Column(cs, m), 0.0)[i] * Weight(m)
  {
    var ws := Weights([m]);
    var cols := Components(cs, [m]);
    assert ws == [Weight(m)] && ws[..0] == [];
    assert cols == [Normalize(Column(cs, m), 0.0)] && cols[..0] == [];
  }

  lemma CancelWeight(x: real, w: real)
    requires w != 0.0
    ensures x * w / w == x
  {
  }

  // ---------------------------------------------------------------------
  // Properties of the aggregation
  // ---------------------------------------------------------------------

  /** The aggregate has exactly one row per distinct uploader, in
      ascending order of name. */
  lemma AggregateRows(t: VideoTable)
    requires t.rows != [] && t.schema.upName
    ensures var cs := Aggregated(t).creators;
      && |cs| == |NameSet(t.rows)|
      && (forall i, j :: 0 <= i < j < |cs| ==> Below(cs[i].name, cs[j].name))
      && (forall x :: x in NameSet(t.rows) <==> exists i :: 0 <= i < |cs| && cs[i].name == x)
  {
    var cs := Aggregated(t).creators;
    var names := GroupNames(t.rows);
    GroupNamesFacts(t.rows);
    SortedCard(names, NameSet(t.rows));
    assert forall i :: 0 <= i < |cs| ==> cs[i].name == names[i];
    forall x | x in NameSet(t.rows)
      ensures exists i :: 0 <= i < |cs| && cs[i].name == x
    {
      var i :| 0 <= i < |names| && names[i] == x;
      assert cs[i].name == x;
    }
  }

  /** The first row of a non-empty filter result is the earliest passing row. */
  lemma {:induction false} FilterFirst(rows: seq<Video>, p: Video -> bool)
    requires Filter(rows, p) != []
    ensures exists k :: 0 <= k < |rows| && p(rows[k]) && Filter(rows, p)[0] == rows[k]
                        && forall j :: 0 <= j < k ==> !p(rows[j])
    decreases |rows|
  {
    var init := rows[..|rows| - 1];
    var last := rows[|rows| - 1];
    var r := Filter(rows, p);
    assert r == Filter(init, p) + (if p(last) then [last] else []);
    if Filter(init, p) != [] {
      FilterFirst(init, p);
      var k :| 0 <= k < |init| && p(init[k]) && Filter(init, p)[0] == init[k]
               && forall j :: 0 <= j < k ==> !p(init[j]);
      assert r[0] == Filter(init, p)[0];
      assert rows[k] == init[k];
      assert forall j :: 0 <= j < k ==> rows[j] == init[j];
    } else {
      var k := |rows| - 1;
      assert p(last) && r == [last];
      forall j | 0 <= j < k
        ensures !p(rows[j])
      {
        FilterCount(init, p, init[j]);
        assert init[j] in multiset(init);
        assert rows[j] == init[j];
      }
    }
  }

  /** `first` takes the uploader's domain and gender from their earliest row. */
  lemma FirstRowValues(t: VideoTable, i: nat)
    requires t.rows != [] && t.schema.upName && i < |Aggregated(t).creators|
    ensures var c := Aggregated(t).creators[i];
      exists k :: 0 <= k < |t.rows| && t.rows[k].upName == c.name
        && c.domain == t.rows[k].domain && c.gender == t.rows[k].gender
        && forall j :: 0 <= j < k ==> t.rows[j].upName != c.name
  {
    var c := Aggregated(t).creators[i];
    GroupsNonEmpty(t.rows);
    FilterFirst(t.rows, NameTest(c.name));
  }

  /** A row belongs to the group of its uploader. */
  lemma InOwnGroup(rows: seq<Video>, k: nat)
    requires k < |rows|
    ensures rows[k] in GroupRows(rows, rows[k].upName)
  {
    FilterCount(rows, NameTest(rows[k].upName), rows[k]);
    assert rows[k] in multiset(rows);
  }

  /** Every row in a group belongs to that uploader. */
  lemma GroupMembers(rows: seq<Video>, name: string)
    ensures forall v :: v in GroupRows(rows, name) ==> v.upName == name && v in rows
  {
    forall v | v in GroupRows(rows, name)
      ensures v.upName == name && v in rows
    {
      FilterCount(rows, NameTest(name), v);
      assert v in multiset(GroupRows(rows, name));
    }
  }

  lemma {:induction false} TotalAtLeastEach(g: seq<Video>, f: Field, k: nat)
    requires k < |g| && forall j :: 0 <= j < |g| ==> Value(g[j], f) >= 0
    ensures Value(g[k], f) <= Total(g, f)
    decreases |g|
  {
    var n := |g| - 1;
    if k < n {
      TotalAtLeastEach(g[..n], f, k);
    } else {
      TotalNonNegative(g[..n], f);
    }
  }

  lemma {:induction false} TotalNonNegative(g: seq<Video>, f: Field)
    requires forall j :: 0 <= j < |g| ==> Value(g[j], f) >= 0
    ensures Total(g, f) >= 0
    decreases |g|
  {
    if g != [] {
      TotalNonNegative(g[..|g| - 1], f);
    }
  }

  lemma {:induction false} TotalAtMostCountTimesMax(g: seq<Video>, f: Field, m: int)
    requires forall j :: 0 <= j < |g| ==> Value(g[j], f) <= m
    ensures Total(g, f) <= |g| * m
    decreases |g|
  {
    if g != [] {
      TotalAtMostCountTimesMax(g[..|g| - 1], f, m);
    }
  }

  /** Within one group the mean is at most the maximum, and the maximum at
      most the sum when no value is negative. */
  lemma GroupPlays(g: seq<Video>)
    requires g != []
    ensures Mean(g, Plays) <= Largest(g, Plays) as real
    ensures (forall j :: 0 <= j < |g| ==> g[j].plays >= 0) ==> Largest(g, Plays) <= Total(g, Plays)
  {
    var m := Largest(g, Plays);
    TotalAtMostCountTimesMax(g, Plays, m);
    MeanBelow(Total(g, Plays), |g|, m);
    if forall j :: 0 <= j < |g| ==> g[j].plays >= 0 {
      var j :| 0 <= j < |g| && Value(g[j], Plays) == m;
      TotalAtLeastEach(g, Plays, j);
    }
  }

  /** `max_plays` bounds every play count of the uploader and is reached by
      one of them, and `avg_plays <= max_plays`; with non-negative play
      counts also `max_plays <= total_plays`. */
  lemma PlaysBounds(t: VideoTable, i: nat)
    requires t.rows != [] && t.schema.upName && i < |Aggregated(t).creators|
    ensures var c := Aggregated(t).creators[i];
      && (forall k :: 0 <= k < |t.rows| && t.rows[k].upName == c.name ==> t.rows[k].plays <= c.maxPlays)
      && (exists k :: 0 <= k < |t.rows| && t.rows[k].upName == c.name && t.rows[k].plays == c.maxPlays)
      && c.avgPlays <= c.maxPlays as real
      && ((forall k :: 0 <= k < |t.rows| ==> t.rows[k].plays >= 0) ==> c.maxPlays <= c.totalPlays)
  {
    var c := Aggregated(t).creators[i];
    GroupsNonEmpty(t.rows);
    var g := GroupRows(t.rows, c.name);
    assert c.maxPlays == Largest(g, Plays) && c.totalPlays == Total(g, Plays) && c.avgPlays == Mean(g, Plays);
    GroupMembers(t.rows, c.name);
    forall k | 0 <= k < |t.rows| && t.rows[k].upName == c.name
      ensures t.rows[k].plays <= c.maxPlays
    {
      InOwnGroup(t.rows, k);
    }
    var j :| 0 <= j < |g| && Value(g[j], Plays) == c.maxPlays;
    assert g[j] in t.rows;
    GroupPlays(g);
  }

  lemma MeanBelow(total: int, n: nat, m: int)
    requires n > 0 && total <= n * m
    ensures total as real / n as real <= m as real
  {
    assert (n * m) as real == n as real * m as real;
    assert total as real / n as real * n as real == total as real;
  }

  /** The sum of an aggregate column over the uploaders. */
  function SumStored(cs: seq<Creator>, f: Field): int {
    if cs == [] then 0 else SumStored(cs[..|cs| - 1], f) + Stored(cs[|cs| - 1], f)
  }

  /** The row columns the aggregation sums. */
  predicate Summed(s: Schema, f: Field) {
    f == Plays || f == Coins || f == Likes || f == Danmu || f == CountField(s)
  }

  /** Sums of a field over the groups of some names. */
  function Across(rows: seq<Video>, names: seq<string>, f: Field): int {
    if names == [] then 0
    else Across(rows, names[..|names| - 1], f) + Total(GroupRows(rows, names[|names| - 1]), f)
  }

  lemma TotalAppend(rows: seq<Video>, v: Video, f: Field)
    ensures Total(rows + [v], f) == Total(rows, f) + Value(v, f)
  {
    assert (rows + [v])[..|rows|] == rows;
  }

  lemma {:induction false} AcrossEmpty(names: seq<string>, f: Field)
    ensures Across([], names, f) == 0
    decreases |names|
  {
    if names != [] {
      AcrossEmpty(names[..|names| - 1], f);
    }
  }

  lemma {:induction false} AcrossAppend(rows: seq<Video>, v: Video, names: seq<string>, f: Field)
    requires forall i, j :: 0 <= i < j < |names| ==> names[i] != names[j]
    ensures Across(rows + [v], names, f)
              == Across(rows, names, f) + (if v.upName in names then Value(v, f) else 0)
    decreases |names|
  {
    if names != [] {
      var init := names[..|names| - 1];
      var n := names[|names| - 1];
      AcrossAppend(rows, v, init, f);
      FilterAppend(rows, v, NameTest(n));
      assert names == init + [n];
      if v.upName == n {
        TotalAppend(GroupRows(rows, n), v, f);
        assert n !in init;
      } else {
        assert GroupRows(rows + [v], n) == GroupRows(rows, n);
      }
      assert v.upName in names <==> v.upName in init || v.upName == n;
    }
  }

  /** Summing over the groups of distinct names that cover every row gives
      the sum over the rows. */
  lemma {:induction false} Conserve(rows: seq<Video>, names: seq<string>, f: Field)
    requires forall i, j :: 0 <= i < j < |names| ==> names[i] != names[j]
    requires forall k :: 0 <= k < |rows| ==> rows[k].upName in names
    ensures Across(rows, names, f) == Total(rows, f)
    decreases |rows|
  {
    if rows == [] {
      AcrossEmpty(names, f);
    } else {
      var init := rows[..|rows| - 1];
      var v := rows[|rows| - 1];
      Conserve(init, names, f);
      AcrossAppend(init, v, names, f);
      assert init + [v] == rows;
    }
  }

  lemma {:induction false} StoredAcross(rows: seq<Video>, s: Schema, f: Field, n: nat)
    requires Summed(s, f) && n <= |GroupNames(rows)|
    ensures SumStored(Creators(rows, s)[..n], f) == Across(rows, GroupNames(rows)[..n], f)
  {
    if n > 0 {
      var cs := Creators(rows, s);
      var names := GroupNames(rows);
      StoredAcross(rows, s, f, n - 1);
      assert cs[..n][..n - 1] == cs[..n - 1];
      assert names[..n][..n - 1] == names[..n - 1];
      GroupsNonEmpty(rows);
      assert Stored(cs[n - 1], f) == Total(GroupRows(rows, names[n - 1]), f);
    }
  }

  /** Summing `total_plays`, `total_coins`, `total_likes`, `total_danmu` or
      the summed video count over the uploaders gives the sum over all
      rows: no row is lost or counted twice. */
  lemma Conservation(t: VideoTable, f: Field)
    requires t.rows != [] && t.schema.upName && Summed(t.schema, f)
    ensures SumStored(Aggregated(t).creators, f) == Total(t.rows, f)
  {
    var names := GroupNames(t.rows);
    var cs := Creators(t.rows, t.schema);
    GroupNamesFacts(t.rows);
    forall i, j | 0 <= i < j < |names|
      ensures names[i] != names[j]
    {
      BelowIrreflexive(names[i]);
    }
    forall k | 0 <= k < |t.rows|
      ensures t.rows[k].upName in names
    {
      assert t.rows[k].upName in NameSet(t.rows);
    }
    StoredAcross(t.rows, t.schema, f, |names|);
    assert cs[..|names|] == cs && names[..|names|] == names;
    Conserve(t.rows, names, f);
  }

  lemma {:induction false} RowTotalIsLength(g: seq<Video>)
    ensures Total(g, Row) == |g|
    decreases |g|
  {
    if g != [] {
      RowTotalIsLength(g[..|g| - 1]);
    }
  }

  /** The three video-count strategies: the number of the uploader's rows
      when `video_title` exists or neither column does (both renamed to
      `video_count`), otherwise the sum of their `video_count` values,
      left under the name `video_count_sum`. */
  lemma CountStrategy(t: VideoTable, i: nat)
    requires t.rows != [] && t.schema.upName && i < |Aggregated(t).creators|
    ensures var a := Aggregated(t);
      var g := GroupRows(t.rows, a.creators[i].name);
      && (t.schema.title || !t.schema.videoCount ==> a.creators[i].videoCount == |g|)
      && (!t.schema.title && t.schema.videoCount ==> a.creators[i].videoCount == Total(g, Uploads))
      && (!FlatNames(t.schema) ==>
            a.layout.count == if !t.schema.title && t.schema.videoCount then VideoCountSum else VideoCount)
  {
    GroupsNonEmpty(t.rows);
    RowTotalIsLength(GroupRows(t.rows, Aggregated(t).creators[i].name));
  }

  // ---------------------------------------------------------------------
  // get_data_summary
  // ---------------------------------------------------------------------

  /** The summary dict. A mean over no rows is NaN, written `None`. */
  datatype Summary = Summary(
    totalVideos: nat,
    totalUp: nat,
    domains: nat,
    avgPlaysPerVideo: Option<real>,
    avgPlaysPerUp: real,
    totalPlays: int)

  function DomainSet(rows: seq<Video>): set<string> {
    set k | 0 <= k < |rows| :: rows[k].domain
  }

  function AvgPlaysColumn(cs: seq<Creator>): seq<real> {
    seq(|cs|, i requires 0 <= i < |cs| => cs[i].avgPlays)
  }

  /** `get_data_summary(df)`, over the aggregate of the same table. */
  function GetDataSummary(t: VideoTable): Summary {
    var a := Aggregated(t);
    var hasPlays := a.creators != [] && a.layout.plays;
    Summary(
      |t.rows|,
      if a.creators != [] then |a.creators| else 0,
      if t.schema.domain then |DomainSet(t.rows)| else 0,
      if !t.schema.plays then Some(0.0)
      else if t.rows == [] then None
      else Some(Mean(t.rows, Plays)),
      if hasPlays then Sum(AvgPlaysColumn(a.creators)) / |a.creators| as real else 0.0,
      if hasPlays then SumStored(a.creators, Plays) else 0)
  }

  lemma {:induction false} NameSetSize(rows: seq<Video>)
    ensures |NameSet(rows)| <= |rows|
    decreases |rows|
  {
    if rows != [] {
      var init := rows[..|rows| - 1];
      NameSetSize(init);
      assert NameSet(rows) <= NameSet(init) + {rows[|rows| - 1].upName} by {
        forall x | x in NameSet(rows)
          ensures x in NameSet(init) + {rows[|rows| - 1].upName}
        {
          var k :| 0 <= k < |rows| && rows[k].upName == x;
          if k < |init| {
            assert init[k].upName == x;
          }
        }
      }
      SubsetSize(NameSet(rows), NameSet(init) + {rows[|rows| - 1].upName});
    }
  }

  lemma SubsetSize(a: set<string>, b: set<string>)
    requires a <= b
    ensures |a| <= |b|
  {
    assert b == a + (b - a);
  }

  lemma {:induction false} DomainSetSize(rows: seq<Video>)
    ensures |DomainSet(rows)| <= |rows|
    decreases |rows|
  {
    if rows != [] {
      var init := rows[..|rows| - 1];
      DomainSetSize(init);
      assert DomainSet(rows) <= DomainSet(init) + {rows[|rows| - 1].domain} by {
        forall x | x in DomainSet(rows)
          ensures x in DomainSet(init) + {rows[|rows| - 1].domain}
        {
          var k :| 0 <= k < |rows| && rows[k].domain == x;
          if k < |init| {
            assert init[k].domain == x;
          }
        }
      }
      SubsetSize(DomainSet(rows), DomainSet(init) + {rows[|rows| - 1].domain});
    }
  }

  /** The summary counts every video, one uploader per distinct name and one
      domain per distinct domain (neither ever more than the videos); its
      per-uploader mean averages `avg_plays` over the distinct uploaders, and
      its play total is the sum over all videos; the per-video mean is NaN
      only for an empty `plays` column. */
  lemma SummaryFacts(t: VideoTable)
    ensures var s := GetDataSummary(t);
      && s.totalVideos == |t.rows|
      && s.totalUp == (if t.rows != [] && t.schema.upName then |NameSet(t.rows)| else 0)
      && s.totalUp <= s.totalVideos
      && s.domains == (if t.schema.domain then |DomainSet(t.rows)| else 0)
      && s.domains <= s.totalVideos
      && s.avgPlaysPerUp
         == (if t.rows != [] && t.schema.upName && t.schema.plays
             then Sum(AvgPlaysColumn(Aggregated(t).creators)) / |NameSet(t.rows)| as real
             else 0.0)
      && s.totalPlays == (if t.rows != [] && t.schema.upName && t.schema.plays then Total(t.rows, Plays) else 0)
      && (s.avgPlaysPerVideo.None? <==> t.schema.plays && t.rows == [])
  {
    DomainSetSize(t.rows);
    if t.rows != [] && t.schema.upName {
      AggregateRows(t);
      NameSetSize(t.rows);
      if t.schema.plays {
        Conservation(t, Plays);
      }
    }
  }
}
