/** The catalog enrichment script `client/add_trending.py`: adds a boolean
    `isTrending` column to the product table (one Bernoulli draw per row), then
    raises the number of trending rows to a floor of 8 by flipping randomly chosen
    non-trending rows, and skips everything if the column already exists.

    The random source is explicit: `draws` holds the `random.random()` value
    drawn for each row and `picks` the raw draws `random.sample` turns into
    positions of the remaining pool. Reading and writing the spreadsheet is left
    to the caller; `Outcome` says whether the table was rewritten. */
module Trending {
  import opened Js

  const Column := "isTrending"
  const MinTrending := 8
  const TrendingProbability := 0.25

  /** What a run reports: nothing was done, or the counts of its summary lines. */
  datatype Outcome =
    | AlreadyPresent
    | Enriched(total: nat, trending: nat, floorApplied: bool)

  // ---------------------------------------------------------------------------
  // Specification on plain flag sequences

  /** No element occurs twice. */
  ghost predicate Distinct<T>(s: seq<T>)
  {
    forall i, j :: 0 <= i < j < |s| ==> s[i] != s[j]
  }

  /** `column.sum()` of a boolean column. */
  function CountTrue(s: seq<bool>): (n: nat)
    ensures n <= |s|
  {
    if s == [] then 0 else (if s[0] then 1 else 0) + CountTrue(s[1..])
  }

  /** The column the list comprehension builds: row `i` is trending iff its draw is below 0.25. */
  function Drawn(draws: seq<real>): (flags: seq<bool>)
    ensures |flags| == |draws|
    ensures forall i :: 0 <= i < |draws| ==> flags[i] == (draws[i] < TrendingProbability)
  {
    seq(|draws|, i requires 0 <= i < |draws| => draws[i] < TrendingProbability)
  }

  /** Row positions from `start` on whose flag is false, in table order
      (`df[~df['isTrending']].index.tolist()`). */
  function NonTrendingFrom(flags: seq<bool>, start: nat): (pool: seq<nat>)
    requires start <= |flags|
    ensures forall x :: x in pool ==> start <= x < |flags| && !flags[x]
    ensures forall i :: start <= i < |flags| && !flags[i] ==> i in pool
    decreases |flags| - start
  {
    if start == |flags| then []
    else if flags[start] then NonTrendingFrom(flags, start + 1)
    else [start] + NonTrendingFrom(flags, start + 1)
  }

  function NonTrending(flags: seq<bool>): (pool: seq<nat>)
    ensures forall x :: x in pool ==> x < |flags| && !flags[x]
    ensures forall i :: 0 <= i < |flags| && !flags[i] ==> i in pool
  {
    NonTrendingFrom(flags, 0)
  }

  /** The pool with position `j` taken out: the last element moves into the
      hole, so the pool stays free of repeats and shrinks by one. */
  function TakeOut(pool: seq<nat>, j: nat): (rest: seq<nat>)
    requires j < |pool|
    ensures |rest| == |pool| - 1
    ensures forall x :: x in rest ==> x in pool
  {
    pool[j := pool[|pool| - 1]][..|pool| - 1]
  }

  /** `random.sample(pool, k)` as a draw without replacement: the `i`-th pick
      chooses position `picks[i] % (remaining size)` of what is left of the
      pool. Which members Python's own algorithm picks for given random bits is
      not modelled, only that they are `k` distinct members of the pool. */
  function SampleSpec(pool: seq<nat>, k: nat, picks: seq<nat>): (chosen: seq<nat>)
    requires k <= |pool| && k <= |picks|
    ensures |chosen| == k
    ensures forall x :: x in chosen ==> x in pool
    decreases k
  {
    if k == 0 then []
    else
      var j := picks[0] % |pool|;
      [pool[j]] + SampleSpec(TakeOut(pool, j), k - 1, picks[1..])
  }

  /** `df.loc[idx, 'isTrending'] = True`, one index after the other. */
  function Mark(flags: seq<bool>, idx: seq<nat>): (r: seq<bool>)
    requires forall k :: 0 <= k < |idx| ==> idx[k] < |flags|
    ensures |r| == |flags|
    decreases |idx|
  {
    if idx == [] then flags else Mark(flags, idx[..|idx| - 1])[idx[|idx| - 1] := true]
  }

  /** The floor correction applied to a freshly drawn column. */
  function Correct(flags: seq<bool>, picks: seq<nat>): (r: seq<bool>)
    requires |picks| >= MinTrending
    ensures |r| == |flags|
  {
    var count := CountTrue(flags);
    if count < MinTrending then
      var needed := MinTrending - count;
      var pool := NonTrending(flags);
      if needed > 0 && |pool| >= needed then
        var chosen := SampleSpec(pool, needed, picks);
        assert forall k :: 0 <= k < |chosen| ==> chosen[k] in pool;
        Mark(flags, chosen)
      else flags
    else flags
  }

  /** Whether the correction branch that prints the floor message is taken. */
  predicate CorrectionApplies(flags: seq<bool>)
  {
    CountTrue(flags) < MinTrending && |NonTrending(flags)| >= MinTrending - CountTrue(flags)
  }

  // ---------------------------------------------------------------------------
  // Lemmas about the specification

  lemma {:induction false} NonTrendingFromSize(flags: seq<bool>, start: nat)
    requires start <= |flags|
    ensures |NonTrendingFrom(flags, start)| == (|flags| - start) - CountTrue(flags[start..])
    ensures Distinct(NonTrendingFrom(flags, start))
    decreases |flags| - start
  {
    if start < |flags| {
      NonTrendingFromSize(flags, start + 1);
      assert flags[start..][1..] == flags[start + 1..];
    }
  }

  /** The pool holds exactly the rows that are not trending. */
  lemma NonTrendingSize(flags: seq<bool>)
    ensures |NonTrending(flags)| == |flags| - CountTrue(flags)
    ensures Distinct(NonTrending(flags))
  {
    NonTrendingFromSize(flags, 0);
    assert flags[0..] == flags;
  }

  lemma {:induction false} TakeOutContents(pool: seq<nat>, j: nat)
    requires j < |pool| && Distinct(pool)
    ensures Distinct(TakeOut(pool, j))
    ensures pool[j] !in TakeOut(pool, j)
    ensures forall x :: x in TakeOut(pool, j) <==> x in pool && x != pool[j]
  {
    var rest := TakeOut(pool, j);
    var n := |pool|;
    forall x | x in pool && x != pool[j] ensures x in rest {
      var i :| 0 <= i < n && pool[i] == x;
      if i == n - 1 { assert rest[j] == x; } else { assert rest[i] == x; }
    }
  }

  /** A sample is `k` distinct members of the pool. */
  lemma {:induction false} SampleDistinct(pool: seq<nat>, k: nat, picks: seq<nat>)
    requires k <= |pool| && k <= |picks| && Distinct(pool)
    ensures Distinct(SampleSpec(pool, k, picks))
    ensures forall x :: x in SampleSpec(pool, k, picks) ==> x in pool
    decreases k
  {
    if k > 0 {
      var j := picks[0] % |pool|;
      var rest := TakeOut(pool, j);
      TakeOutContents(pool, j);
      SampleDistinct(rest, k - 1, picks[1..]);
      var tail := SampleSpec(rest, k - 1, picks[1..]);
      assert SampleSpec(pool, k, picks) == [pool[j]] + tail;
      assert pool[j] !in tail;
    }
  }

  /** Setting a false flag raises the count by one. */
  lemma {:induction false} CountSetTrue(s: seq<bool>, i: nat)
    requires i < |s| && !s[i]
    ensures CountTrue(s[i := true]) == CountTrue(s) + 1
  {
    if i > 0 {
      CountSetTrue(s[1..], i - 1);
      assert s[i := true][1..] == s[1..][i - 1 := true];
    } else {
      assert s[i := true][1..] == s[1..];
    }
  }

  /** Marking distinct false rows raises the count by their number, and only
      the marked rows change. */
  lemma {:induction false} MarkEffect(flags: seq<bool>, idx: seq<nat>)
    requires forall k :: 0 <= k < |idx| ==> idx[k] < |flags| && !flags[idx[k]]
    requires Distinct(idx)
    ensures CountTrue(Mark(flags, idx)) == CountTrue(flags) + |idx|
    ensures forall i :: 0 <= i < |flags| ==> Mark(flags, idx)[i] == (flags[i] || i in idx)
    decreases |idx|
  {
    if idx != [] {
      var init, last := idx[..|idx| - 1], idx[|idx| - 1];
      assert idx == init + [last];
      MarkEffect(flags, init);
      var f := Mark(flags, init);
      assert last !in init;
      CountSetTrue(f, last);
    }
  }

  /** Correction never clears a flag, and any row it sets was in the pool. */
  lemma CorrectOnlyRaises(flags: seq<bool>, picks: seq<nat>)
    requires |picks| >= MinTrending
    ensures forall i :: 0 <= i < |flags| && flags[i] ==> Correct(flags, picks)[i]
    ensures !CorrectionApplies(flags) ==> Correct(flags, picks) == flags
  {
    if CorrectionApplies(flags) {
      var needed := MinTrending - CountTrue(flags);
      var pool := NonTrending(flags);
      NonTrendingSize(flags);
      SampleDistinct(pool, needed, picks);
      var chosen := SampleSpec(pool, needed, picks);
      assert forall k :: 0 <= k < |chosen| ==> chosen[k] in pool;
      MarkEffect(flags, chosen);
    }
  }

  /** When the correction runs it flips exactly `8 - count` distinct
      non-trending rows, so the count becomes exactly 8. */
  lemma CorrectReachesFloor(flags: seq<bool>, picks: seq<nat>)
    requires |picks| >= MinTrending
    requires CorrectionApplies(flags)
    ensures CountTrue(Correct(flags, picks)) == MinTrending
    ensures var chosen := SampleSpec(NonTrending(flags), MinTrending - CountTrue(flags), picks);
      && |chosen| == MinTrending - CountTrue(flags) && Distinct(chosen)
      && (forall k :: 0 <= k < |chosen| ==> chosen[k] < |flags| && !flags[chosen[k]])
      && (forall i :: 0 <= i < |flags| ==> Correct(flags, picks)[i] == (flags[i] || i in chosen))
  {
    var needed := MinTrending - CountTrue(flags);
    var pool := NonTrending(flags);
    NonTrendingSize(flags);
    SampleDistinct(pool, needed, picks);
    var chosen := SampleSpec(pool, needed, picks);
    assert forall k :: 0 <= k < |chosen| ==> chosen[k] in pool;
    MarkEffect(flags, chosen);
  }

  /** A table of at least 8 rows ends with at least 8 trending rows, and no
      table ends with more trending rows than rows. */
  lemma FloorHolds(flags: seq<bool>, picks: seq<nat>)
    requires |picks| >= MinTrending
    ensures |flags| >= MinTrending ==> CountTrue(Correct(flags, picks)) >= MinTrending
    ensures CountTrue(Correct(flags, picks)) <= |flags|
  {
    NonTrendingSize(flags);
    if CountTrue(flags) < MinTrending && |flags| >= MinTrending {
      assert CorrectionApplies(flags);
      CorrectReachesFloor(flags, picks);
    }
  }

  // ---------------------------------------------------------------------------
  // The table and the script

  /** A column holding the given booleans. */
  function Bools(flags: seq<bool>): (col: seq<Value>)
    ensures |col| == |flags|
    ensures forall i :: 0 <= i < |flags| ==> col[i] == Bool(flags[i])
  {
    seq(|flags|, i requires 0 <= i < |flags| => Bool(flags[i]))
  }

  /** A snapshot of a table: column names in order, the cells of each column, the row count. */
  datatype Table = Table(columns: seq<string>, data: map<string, seq<Value>>, length: nat)
  {
    ghost predicate Valid()
    {
      && Distinct(columns)
      && (forall c :: c in data <==> c in columns)
      && (forall c :: c in data ==> |data[c]| == length)
    }
  }

  /** The whole script on a table snapshot. */
  function EnrichSpec(t: Table, draws: seq<real>, picks: seq<nat>): Table
    requires |picks| >= MinTrending
  {
    if Column in t.columns then t
    else Table(t.columns + [Column], t.data[Column := Bools(Correct(Drawn(draws), picks))], t.length)
  }

  /** Running the script twice is the same as running it once. */
  lemma EnrichIdempotent(t: Table, draws: seq<real>, picks: seq<nat>, draws2: seq<real>, picks2: seq<nat>)
    requires |picks| >= MinTrending && |picks2| >= MinTrending
    ensures EnrichSpec(EnrichSpec(t, draws, picks), draws2, picks2) == EnrichSpec(t, draws, picks)
  {
  }

  /** A fresh column keeps every existing column, the row count and row order,
      and holds one boolean per row. */
  lemma EnrichShape(t: Table, draws: seq<real>, picks: seq<nat>)
    requires t.Valid() && |picks| >= MinTrending && |draws| == t.length
    ensures EnrichSpec(t, draws, picks).Valid()
    ensures Column !in t.columns ==>
      var e := EnrichSpec(t, draws, picks);
      && e.columns == t.columns + [Column] && e.length == t.length
      && (forall c :: c in t.data ==> e.data[c] == t.data[c])
      && (forall i :: 0 <= i < t.length ==> e.data[Column][i].Bool?)
  {
    if Column !in t.columns {
      var e := EnrichSpec(t, draws, picks);
      forall i, j | 0 <= i < j < |e.columns| ensures e.columns[i] != e.columns[j] {
        if j == |t.columns| { assert e.columns[i] in t.columns; }
      }
    }
  }

  /** The product table held by the script (a pandas DataFrame, column-major). */
  class DataFrame {
    var columns: seq<string>
    var data: map<string, seq<Value>>
    var length: nat

    function Snapshot(): Table
      reads this
    {
      Table(columns, data, length)
    }

    ghost predicate Valid()
      reads this
    {
      Snapshot().Valid()
    }

    constructor (columns: seq<string>, data: map<string, seq<Value>>, length: nat)
      requires Table(columns, data, length).Valid()
      ensures Valid() && Snapshot() == Table(columns, data, length)
    {
      this.columns := columns;
      this.data := data;
      this.length := length;
    }
  }

  /** `random.sample(pool, k)`, consuming one pick per chosen element. */
  method Sample(pool: seq<nat>, k: nat, picks: seq<nat>) returns (chosen: seq<nat>)
    requires k <= |pool| && k <= |picks|
    ensures chosen == SampleSpec(pool, k, picks)
  {
    var remaining := pool;
    chosen := [];
    var i := 0;
    while i < k
      invariant 0 <= i <= k && |remaining| == |pool| - i
      invariant chosen + SampleSpec(remaining, k - i, picks[i..]) == SampleSpec(pool, k, picks)
    {
      var j := picks[i] % |remaining|;
      assert picks[i..][1..] == picks[i + 1..];
      chosen := chosen + [remaining[j]];
      remaining := TakeOut(remaining, j);
      i := i + 1;
    }
  }

  /** `df.loc[random_indices, 'isTrending'] = True`: the chosen rows are set
      one by one. */
  method MarkColumn(flags: seq<bool>, chosen: seq<nat>) returns (column: seq<Value>)
    requires forall k :: 0 <= k < |chosen| ==> chosen[k] < |flags|
    ensures column == Bools(Mark(flags, chosen))
  {
    column := Bools(flags);
    var i := 0;
    while i < |chosen|
      invariant 0 <= i <= |chosen|
      invariant column == Bools(Mark(flags, chosen[..i]))
    {
      assert chosen[..i + 1][..i] == chosen[..i];
      column := column[chosen[i] := Bool(true)];
      i := i + 1;
    }
    assert chosen[..i] == chosen;
  }

  /** The floor correction as the script performs it: sample the missing
      number of rows from the non-trending pool and set their flags one by one. */
  method CorrectColumn(flags: seq<bool>, picks: seq<nat>) returns (column: seq<Value>, applied: bool)
    requires |picks| >= MinTrending
    ensures column == Bools(Correct(flags, picks))
    ensures applied == CorrectionApplies(flags)
  {
    column := Bools(flags);
    applied := false;
    var trendingCount := CountTrue(flags);
    if trendingCount < MinTrending {
      var nonTrending := NonTrending(flags);
      var additionalNeeded := MinTrending - trendingCount;
      if additionalNeeded > 0 && |nonTrending| >= additionalNeeded {
        var chosen := Sample(nonTrending, additionalNeeded, picks);
        assert forall k :: 0 <= k < |chosen| ==> chosen[k] in nonTrending;
        column := MarkColumn(flags, chosen);
        applied := true;
      }
    }
  }

  /** The script: skip if the column exists, otherwise draw the column, correct
      it up to the floor, and report what the summary lines print. */
  method Enrich(df: DataFrame, draws: seq<real>, picks: seq<nat>) returns (outcome: Outcome)
    requires df.Valid()
    requires |draws| == df.length
    requires |picks| >= MinTrending
    modifies df
    ensures df.Valid()
    ensures df.Snapshot() == EnrichSpec(old(df.Snapshot()), draws, picks)
    ensures Column in old(df.columns) <==> outcome == AlreadyPresent
    ensures outcome.Enriched? ==>
      && outcome.total == df.length
      && outcome.trending == CountTrue(Correct(Drawn(draws), picks))
      && outcome.floorApplied == CorrectionApplies(Drawn(draws))
  {
    if Column in df.columns {
      return AlreadyPresent;
    }
    EnrichShape(df.Snapshot(), draws, picks);
    var flags := Drawn(draws);
    var column, floorApplied := CorrectColumn(flags, picks);
    df.data := df.data[Column := column];
    df.columns := df.columns + [Column];
    outcome := Enriched(df.length, CountTrue(Correct(flags, picks)), floorApplied);
  }
}
