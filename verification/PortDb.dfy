/** Copying one table from SQLite to Postgres, resumably, in both directions from row id 0. */
module PortDb {
  import opened Results

  // ---------------------------------------------------------------- converting rows

  datatype Value = NullValue | Int(n: int) | Text(s: string) | Blob(b: seq<nat>) | Bool(v: bool)

  type Row = seq<Value>

  /** A row of the source table: its row id, and its columns without the row id. */
  datatype SourceRow = SourceRow(rowid: int, columns: Row)

  predicate Truthy(value: Value) {
    match value
    case NullValue => false
    case Int(n) => n != 0
    case Text(s) => s != ""
    case Blob(b) => b != []
    case Bool(v) => v
  }

  predicate HasNul(value: Value) {
    value.Text? && '\0' in value.s
  }

  function ConvertValue(boolColumns: set<nat>, j: nat, value: Value): Value {
    if j in boolColumns then Bool(Truthy(value)) else value
  }

  /** A text with a NUL, outside the boolean columns, makes a row unfit for Postgres. */
  predicate IsDropped(boolColumns: set<nat>, row: Row) {
    exists j :: 0 <= j < |row| && j !in boolColumns && HasNul(row[j])
  }

  function ConvertRow(boolColumns: set<nat>, row: Row): Row {
    seq(|row|, j requires 0 <= j < |row| => ConvertValue(boolColumns, j, row[j]))
  }

  /** What is stored in a column: the value as it is, or in a boolean column whether it is neither null, zero, false nor empty. */
  predicate StoredAs(boolColumns: set<nat>, j: nat, value: Value, stored: Value) {
    if j in boolColumns then stored == Bool(value !in {NullValue, Int(0), Text(""), Blob([]), Bool(false)}) else stored == value
  }

  /** The columns of a row, stored one by one. */
  ghost predicate RowStoredAs(boolColumns: set<nat>, row: Row, stored: Row) {
    |stored| == |row| && forall j | 0 <= j < |row| :: StoredAs(boolColumns, j, row[j], stored[j])
  }

  /** A row that cannot be stored: some text, in a column that is not boolean, holds a NUL. */
  ghost predicate Unstorable(boolColumns: set<nat>, row: Row) {
    exists j, k, s :: 0 <= j < |row| && j !in boolColumns && row[j] == Text(s) && 0 <= k < |s| && s[k] == '\0'
  }

  /** The conversion stores each column as it should be, and drops exactly the rows that cannot be stored. */
  lemma ConversionExactly(boolColumns: set<nat>, row: Row)
    ensures RowStoredAs(boolColumns, row, ConvertRow(boolColumns, row))
    ensures IsDropped(boolColumns, row) <==> Unstorable(boolColumns, row)
  {
    if IsDropped(boolColumns, row) {
      var j :| 0 <= j < |row| && j !in boolColumns && HasNul(row[j]);
      var k :| 0 <= k < |row[j].s| && row[j].s[k] == '\0';
      assert row[j] == Text(row[j].s);
    }
  }

  /** The converted rows, without the dropped ones, in order. */
  function Converted(boolColumns: set<nat>, rows: seq<SourceRow>): seq<Row> {
    if rows == [] then []
    else
      var last := rows[|rows| - 1].columns;
      Converted(boolColumns, rows[..|rows| - 1]) + if IsDropped(boolColumns, last) then [] else [ConvertRow(boolColumns, last)]
  }

  /** A list of rows is stored: those that can be, in order, one by one. */
  ghost predicate StoredRows(boolColumns: set<nat>, rows: seq<SourceRow>, stored: seq<Row>)
    decreases |rows|
  {
    if rows == [] then stored == []
    else
      var n := |rows| - 1;
      if Unstorable(boolColumns, rows[n].columns) then StoredRows(boolColumns, rows[..n], stored)
      else
        && stored != []
        && StoredRows(boolColumns, rows[..n], stored[..|stored| - 1])
        && RowStoredAs(boolColumns, rows[n].columns, stored[|stored| - 1])
  }

  lemma {:induction false} ConvertedExactly(boolColumns: set<nat>, rows: seq<SourceRow>)
    ensures StoredRows(boolColumns, rows, Converted(boolColumns, rows))
  {
    if rows != [] {
      var n := |rows| - 1;
      ConvertedExactly(boolColumns, rows[..n]);
      ConversionExactly(boolColumns, rows[n].columns);
      var before, all := Converted(boolColumns, rows[..n]), Converted(boolColumns, rows);
      if !IsDropped(boolColumns, rows[n].columns) {
        assert all[..|all| - 1] == before;
      } else {
        assert all == before;
      }
    }
  }

  /** Collects what a function makes of each element, without order. */
  function Bag<A, B>(f: A -> multiset<B>, xs: seq<A>): multiset<B> {
    if xs == [] then multiset{} else Bag(f, xs[..|xs| - 1]) + f(xs[|xs| - 1])
  }

  function ConversionOf(boolColumns: set<nat>): SourceRow -> multiset<Row> {
    (row: SourceRow) => if IsDropped(boolColumns, row.columns) then multiset{} else multiset{ConvertRow(boolColumns, row.columns)}
  }

  /** The converted rows without their order. */
  function ConvertedBag(boolColumns: set<nat>, rows: seq<SourceRow>): multiset<Row> {
    Bag(ConversionOf(boolColumns), rows)
  }

  lemma {:induction false} BagOfConverted(boolColumns: set<nat>, rows: seq<SourceRow>)
    ensures multiset(Converted(boolColumns, rows)) == ConvertedBag(boolColumns, rows)
  {
    if rows != [] {
      BagOfConverted(boolColumns, rows[..|rows| - 1]);
    }
  }

  lemma {:induction false} BagConcat<A, B>(f: A -> multiset<B>, a: seq<A>, b: seq<A>)
    ensures Bag(f, a + b) == Bag(f, a) + Bag(f, b)
  {
    if b == [] {
      assert a + b == a;
    } else {
      BagConcat(f, a, b[..|b| - 1]);
      assert (a + b)[..|a + b| - 1] == a + b[..|b| - 1];
    }
  }

  lemma BagOfOne<A, B>(f: A -> multiset<B>, x: A)
    ensures Bag(f, [x]) == f(x)
  {
    assert [x][..0] == [];
  }

  lemma {:induction false} BagReversed<A, B>(f: A -> multiset<B>, xs: seq<A>)
    ensures Bag(f, Reversed(xs)) == Bag(f, xs)
  {
    if xs == [] {
      assert Reversed(xs) == xs;
    } else {
      var init, last := xs[..|xs| - 1], xs[|xs| - 1];
      BagReversed(f, init);
      BagOfOne(f, last);
      BagConcat(f, [last], Reversed(init));
      assert Reversed(xs) == [last] + Reversed(init);
    }
  }

  /** Converts one row column by column, giving up at the first value that cannot be stored. */
  method TryConvertRow(boolColumns: set<nat>, row: Row) returns (converted: Option<Row>)
    ensures converted == if IsDropped(boolColumns, row) then None else Some(ConvertRow(boolColumns, row))
    ensures converted == None <==> Unstorable(boolColumns, row)
    ensures converted.Some? ==> RowStoredAs(boolColumns, row, converted.value)
  {
    ConversionExactly(boolColumns, row);
    var out := [];
    for j := 0 to |row|
      invariant |out| == j
      invariant forall k | 0 <= k < j :: out[k] == ConvertValue(boolColumns, k, row[k])
      invariant forall k | 0 <= k < j :: k in boolColumns || !HasNul(row[k])
    {
      if j in boolColumns {
        out := out + [Bool(Truthy(row[j]))];
      } else if HasNul(row[j]) {
        return None;
      } else {
        out := out + [row[j]];
      }
    }
    assert out == ConvertRow(boolColumns, row);
    return Some(out);
  }

  method ConvertRows(boolColumns: set<nat>, rows: seq<SourceRow>) returns (out: seq<Row>)
    ensures out == Converted(boolColumns, rows)
    ensures StoredRows(boolColumns, rows, out)
  {
    ConvertedExactly(boolColumns, rows);
    out := [];
    for i := 0 to |rows|
      invariant out == Converted(boolColumns, rows[..i])
    {
      assert rows[..i + 1][..i] == rows[..i];
      var converted := TryConvertRow(boolColumns, rows[i].columns);
      if converted.Some? {
        out := out + [converted.value];
      }
    }
    assert rows[..|rows|] == rows;
  }

  // ---------------------------------------------------------------- the source table

  predicate SortedByRowId(source: seq<SourceRow>) {
    forall i, j | 0 <= i < j < |source| :: source[i].rowid < source[j].rowid
  }

  /** How many of the first `n` rows have a row id below a bound. */
  function FirstBelow(source: seq<SourceRow>, bound: int, n: nat): (m: nat)
    requires n <= |source|
    ensures m <= n
  {
    if n == 0 || source[n - 1].rowid < bound then n else FirstBelow(source, bound, n - 1)
  }

  function Below(source: seq<SourceRow>, bound: int): (n: nat)
    requires SortedByRowId(source)
    ensures n <= |source|
  {
    FirstBelow(source, bound, |source|)
  }

  lemma {:induction false} FirstBelowSplits(source: seq<SourceRow>, bound: int, n: nat)
    requires SortedByRowId(source) && n <= |source|
    ensures forall i | 0 <= i < FirstBelow(source, bound, n) :: source[i].rowid < bound
    ensures forall i | FirstBelow(source, bound, n) <= i < n :: source[i].rowid >= bound
  {
    if n > 0 && source[n - 1].rowid >= bound {
      FirstBelowSplits(source, bound, n - 1);
    }
  }

  /** The rows below the bound come first. */
  lemma BelowSplits(source: seq<SourceRow>, bound: int)
    requires SortedByRowId(source)
    ensures forall i | 0 <= i < Below(source, bound) :: source[i].rowid < bound
    ensures forall i | Below(source, bound) <= i < |source| :: source[i].rowid >= bound
  {
    FirstBelowSplits(source, bound, |source|);
  }

  /** The first rows from a row id on, in ascending order, at most `limit` of them. */
  function SelectForward(source: seq<SourceRow>, from: int, limit: nat): seq<SourceRow>
    requires SortedByRowId(source)
  {
    var lo := Below(source, from);
    source[lo..if lo + limit <= |source| then lo + limit else |source|]
  }

  /** The last rows up to a row id, at most `limit` of them. */
  function RowsUpTo(source: seq<SourceRow>, upTo: int, limit: nat): seq<SourceRow>
    requires SortedByRowId(source)
  {
    var hi := Below(source, upTo + 1);
    source[if limit <= hi then hi - limit else 0..hi]
  }

  /** Those rows, in descending order. */
  function SelectBackward(source: seq<SourceRow>, upTo: int, limit: nat): seq<SourceRow>
    requires SortedByRowId(source)
  {
    Reversed(RowsUpTo(source, upTo, limit))
  }

  function Reversed<T>(xs: seq<T>): seq<T> {
    seq(|xs|, i requires 0 <= i < |xs| => xs[|xs| - 1 - i])
  }

  /** A selection takes as many rows as there are on its side, up to the batch size. */
  lemma BatchesExactly(source: seq<SourceRow>, forward: int, backward: int, batchSize: nat)
    requires SortedByRowId(source)
    ensures var ahead, behind := |source| - Below(source, forward), Below(source, backward + 1);
            && |SelectForward(source, forward, batchSize)| == (if ahead < batchSize then ahead else batchSize)
            && |SelectBackward(source, backward, batchSize)| == (if behind < batchSize then behind else batchSize)
  {
  }

  // ---------------------------------------------------------------- the target table

  /** What is durable in Postgres: the rows of the table, and its progress row. */
  datatype Progress = Progress(forward: int, backward: int)

  datatype Target = Target(rows: multiset<Row>, progress: Option<Progress>)

  /** The source rows between the two sweeps. */
  function Covered(source: seq<SourceRow>, progress: Progress): (rows: seq<SourceRow>)
    requires SortedByRowId(source) && progress.backward < progress.forward
    ensures |rows| <= |source|
  {
    BelowIsMonotone(source, progress.backward + 1, progress.forward);
    source[Below(source, progress.backward + 1)..Below(source, progress.forward)]
  }

  lemma BelowIsMonotone(source: seq<SourceRow>, low: int, high: int)
    requires SortedByRowId(source) && low <= high
    ensures Below(source, low) <= Below(source, high)
  {
    BelowSplits(source, low);
    BelowSplits(source, high);
    var b := Below(source, high);
    if b < |source| {
      assert source[b].rowid >= high;
    }
  }

  /** The target holds exactly the conversions of the rows between the two sweeps. */
  ghost predicate Ported(boolColumns: set<nat>, source: seq<SourceRow>, target: Target)
    requires SortedByRowId(source)
  {
    match target.progress
    case None => target.rows == multiset{}
    case Some(progress) =>
      && progress.backward < progress.forward
      && target.rows == ConvertedBag(boolColumns, Covered(source, progress))
  }

  /** What the next transaction selects, and where it moves the sweeps. */
  function NextRows(source: seq<SourceRow>, progress: Progress, batchSize: nat): (seq<SourceRow>, seq<SourceRow>)
    requires SortedByRowId(source)
  {
    (SelectForward(source, progress.forward, batchSize), SelectBackward(source, progress.backward, batchSize))
  }

  /** Just past the last row of a forward selection. */
  function Above(rows: seq<SourceRow>, forward: int): int {
    if rows == [] then forward else rows[|rows| - 1].rowid + 1
  }

  /** Just before the last row of a backward selection. */
  function Under(rows: seq<SourceRow>, backward: int): int {
    if rows == [] then backward else rows[|rows| - 1].rowid - 1
  }

  function NextForward(source: seq<SourceRow>, forward: int, batchSize: nat): int
    requires SortedByRowId(source)
  {
    Above(SelectForward(source, forward, batchSize), forward)
  }

  function NextBackward(source: seq<SourceRow>, backward: int, batchSize: nat): int
    requires SortedByRowId(source)
  {
    Under(SelectBackward(source, backward, batchSize), backward)
  }

  function NextProgress(source: seq<SourceRow>, progress: Progress, batchSize: nat): Progress
    requires SortedByRowId(source)
  {
    Progress(NextForward(source, progress.forward, batchSize), NextBackward(source, progress.backward, batchSize))
  }

  /** One committed transaction: the rows and the progress row change together. */
  function Commit(boolColumns: set<nat>, source: seq<SourceRow>, batchSize: nat, target: Target): Target
    requires SortedByRowId(source) && target.progress.Some?
  {
    var (forwards, backwards) := NextRows(source, target.progress.value, batchSize);
    Target(target.rows + ConvertedBag(boolColumns, forwards + backwards),
           Some(NextProgress(source, target.progress.value, batchSize)))
  }

  /** The sweeps find nothing more. */
  predicate Swept(source: seq<SourceRow>, progress: Progress, batchSize: nat)
    requires SortedByRowId(source)
  {
    NextRows(source, progress, batchSize) == ([], [])
  }

  /** The rows that neither sweep has reached. */
  function Uncovered(source: seq<SourceRow>, progress: Progress): nat
    requires SortedByRowId(source) && progress.backward < progress.forward
  {
    |source| - |Covered(source, progress)|
  }

  // ---------------------------------------------------------------- each transaction is sound

  /** Where the row of a given index stands when its successor's row id is the bound. */
  lemma BelowAt(source: seq<SourceRow>, n: nat, bound: int)
    requires SortedByRowId(source) && n <= |source|
    requires n > 0 ==> source[n - 1].rowid < bound
    requires n < |source| ==> bound <= source[n].rowid
    ensures Below(source, bound) == n
  {
    BelowSplits(source, bound);
    if n > 0 {
      assert source[n - 1].rowid < bound;
    }
    if n < |source| {
      assert source[n].rowid >= bound;
    }
  }

  /** The forward selection is the slice from the first row not below the position, and its new position is just past it. */
  lemma ForwardStop(source: seq<SourceRow>, forward: int, batchSize: nat)
    requires SortedByRowId(source)
    ensures var rows, next, hi := SelectForward(source, forward, batchSize), NextForward(source, forward, batchSize), Below(source, forward);
            && forward <= next && hi <= Below(source, next)
            && rows == source[hi..Below(source, next)]
  {
    var rows, next := SelectForward(source, forward, batchSize), NextForward(source, forward, batchSize);
    var hi := Below(source, forward);
    if rows != [] {
      BelowSplits(source, forward);
      assert rows[|rows| - 1] == source[hi + |rows| - 1];
      BelowAt(source, hi + |rows|, next);
    }
  }

  lemma RowsUpToSlice(source: seq<SourceRow>, backward: int, batchSize: nat)
    requires SortedByRowId(source)
    ensures var rows, lo := RowsUpTo(source, backward, batchSize), Below(source, backward + 1);
            && |rows| <= lo && rows == source[lo - |rows|..lo]
            && NextBackward(source, backward, batchSize) == if rows == [] then backward else rows[0].rowid - 1
  {
    var rows := RowsUpTo(source, backward, batchSize);
    assert |Reversed(rows)| == |rows|;
  }

  /** The backward selection is the slice up to the last row not above the position, and its new position is just before it. */
  lemma BackwardStop(source: seq<SourceRow>, backward: int, batchSize: nat)
    requires SortedByRowId(source)
    ensures var rows, next, lo := RowsUpTo(source, backward, batchSize), NextBackward(source, backward, batchSize), Below(source, backward + 1);
            && next <= backward && Below(source, next + 1) <= lo
            && rows == source[Below(source, next + 1)..lo]
  {
    var rows, next := RowsUpTo(source, backward, batchSize), NextBackward(source, backward, batchSize);
    RowsUpToSlice(source, backward, batchSize);
    if rows != [] {
      StopsBefore(source, backward, Below(source, backward + 1) - |rows|);
    }
  }

  lemma StopsBefore(source: seq<SourceRow>, backward: int, i: nat)
    requires SortedByRowId(source) && i < Below(source, backward + 1)
    ensures source[i].rowid <= backward && Below(source, source[i].rowid) == i
  {
    BelowSplits(source, backward + 1);
    BelowAt(source, i, source[i].rowid);
  }

  /** The covered rows are a slice. */
  lemma CoveredSlice(source: seq<SourceRow>, progress: Progress, low: nat, high: nat)
    requires SortedByRowId(source) && progress.backward < progress.forward && low <= high <= |source|
    requires Below(source, progress.backward + 1) == low && Below(source, progress.forward) == high
    ensures Covered(source, progress) == source[low..high]
  {
  }

  /** A later end of the forward sweep adds the rows in between. */
  lemma CoveredAbove(source: seq<SourceRow>, progress: Progress, next: int)
    requires SortedByRowId(source) && progress.backward < progress.forward <= next
    ensures Below(source, progress.forward) <= Below(source, next)
    ensures Covered(source, progress.(forward := next))
         == Covered(source, progress) + source[Below(source, progress.forward)..Below(source, next)]
  {
    var lo, hi, top := Below(source, progress.backward + 1), Below(source, progress.forward), Below(source, next);
    assert lo <= hi <= top by {
      BelowIsMonotone(source, progress.backward + 1, progress.forward);
      BelowIsMonotone(source, progress.forward, next);
    }
    calc {
      Covered(source, progress.(forward := next));
      { CoveredSlice(source, progress.(forward := next), lo, top); }
      source[lo..top];
      { TwoSlices(source, lo, hi, top); }
      source[lo..hi] + source[hi..top];
      { CoveredSlice(source, progress, lo, hi); }
      Covered(source, progress) + source[hi..top];
    }
  }

  /** And an earlier end of the backward sweep. */
  lemma CoveredBelow(source: seq<SourceRow>, progress: Progress, next: int)
    requires SortedByRowId(source) && next <= progress.backward < progress.forward
    ensures Below(source, next + 1) <= Below(source, progress.backward + 1)
    ensures Covered(source, progress.(backward := next))
         == source[Below(source, next + 1)..Below(source, progress.backward + 1)] + Covered(source, progress)
  {
    var bottom, lo, hi := Below(source, next + 1), Below(source, progress.backward + 1), Below(source, progress.forward);
    assert bottom <= lo <= hi by {
      BelowIsMonotone(source, next + 1, progress.backward + 1);
      BelowIsMonotone(source, progress.backward + 1, progress.forward);
    }
    calc {
      Covered(source, progress.(backward := next));
      { CoveredSlice(source, progress.(backward := next), bottom, hi); }
      source[bottom..hi];
      { TwoSlices(source, bottom, lo, hi); }
      source[bottom..lo] + source[lo..hi];
      { CoveredSlice(source, progress, lo, hi); }
      source[bottom..lo] + Covered(source, progress);
    }
  }

  /** The forward sweep extends the covered rows at their end. */
  lemma CoveredForward(source: seq<SourceRow>, progress: Progress, batchSize: nat)
    requires SortedByRowId(source) && progress.backward < progress.forward
    ensures var next := NextForward(source, progress.forward, batchSize);
            && progress.forward <= next
            && Covered(source, progress.(forward := next))
               == Covered(source, progress) + SelectForward(source, progress.forward, batchSize)
  {
    ForwardStop(source, progress.forward, batchSize);
    CoveredAbove(source, progress, NextForward(source, progress.forward, batchSize));
  }

  /** The backward sweep extends the covered rows at their beginning. */
  lemma CoveredBackward(source: seq<SourceRow>, progress: Progress, batchSize: nat)
    requires SortedByRowId(source) && progress.backward < progress.forward
    ensures var next := NextBackward(source, progress.backward, batchSize);
            && next <= progress.backward
            && Covered(source, progress.(backward := next))
               == RowsUpTo(source, progress.backward, batchSize) + Covered(source, progress)
  {
    BackwardStop(source, progress.backward, batchSize);
    CoveredBelow(source, progress, NextBackward(source, progress.backward, batchSize));
  }

  lemma TwoSlices<T>(xs: seq<T>, a: nat, b: nat, c: nat)
    requires a <= b <= c <= |xs|
    ensures xs[a..c] == xs[a..b] + xs[b..c]
  {
  }

  /** A transaction extends the covered rows at both ends by what it selects. */
  lemma CoveredGrows(source: seq<SourceRow>, progress: Progress, batchSize: nat)
    requires SortedByRowId(source) && progress.backward < progress.forward
    ensures var next := NextProgress(source, progress, batchSize);
            && next.backward < next.forward
            && Covered(source, next)
               == RowsUpTo(source, progress.backward, batchSize) + Covered(source, progress)
                + SelectForward(source, progress.forward, batchSize)
  {
    CoveredBackward(source, progress, batchSize);
    CoveredForward(source, progress.(backward := NextBackward(source, progress.backward, batchSize)), batchSize);
  }

  /** At every commit the target holds exactly the conversions of the rows between the two sweeps. */
  lemma CommitKeepsPorted(boolColumns: set<nat>, source: seq<SourceRow>, batchSize: nat, target: Target)
    requires SortedByRowId(source) && target.progress.Some?
    requires Ported(boolColumns, source, target)
    ensures Ported(boolColumns, source, Commit(boolColumns, source, batchSize, target))
  {
    var progress := target.progress.value;
    var (forwards, backwards) := NextRows(source, progress, batchSize);
    CoveredGrows(source, progress, batchSize);
    var covered, behind := Covered(source, progress), RowsUpTo(source, progress.backward, batchSize);
    var f := ConversionOf(boolColumns);
    BagConcat(f, behind + covered, forwards);
    BagConcat(f, behind, covered);
    BagConcat(f, forwards, backwards);
    BagReversed(f, behind);
  }

  /** With room for a row in each batch, every transaction covers rows not covered before. */
  lemma CommitMakesProgress(source: seq<SourceRow>, progress: Progress, batchSize: nat)
    requires SortedByRowId(source) && progress.backward < progress.forward && batchSize >= 1
    requires !Swept(source, progress, batchSize)
    ensures var next := NextProgress(source, progress, batchSize);
            next.backward < next.forward && Uncovered(source, next) < Uncovered(source, progress)
  {
    CoveredGrows(source, progress, batchSize);
  }

  /** When the sweeps find nothing more, every row is covered. */
  lemma SweptMeansComplete(source: seq<SourceRow>, progress: Progress, batchSize: nat)
    requires SortedByRowId(source) && progress.backward < progress.forward && batchSize >= 1
    ensures Swept(source, progress, batchSize) <==> Covered(source, progress) == source
  {
    var lo, hi := Below(source, progress.backward + 1), Below(source, progress.forward);
    BelowIsMonotone(source, progress.backward + 1, progress.forward);
    assert |Covered(source, progress)| == hi - lo;
    assert |SelectForward(source, progress.forward, batchSize)| == 0 <==> hi == |source|;
    assert |SelectBackward(source, progress.backward, batchSize)| == 0 <==> lo == 0;
  }

  // ---------------------------------------------------------------- a source that grows between processes

  lemma BelowConcat(source: seq<SourceRow>, more: seq<SourceRow>, bound: int)
    requires SortedByRowId(source + more) && SortedByRowId(source) && SortedByRowId(more)
    ensures Below(source + more, bound) == Below(source, bound) + Below(more, bound)
    ensures Below(more, bound) > 0 ==> Below(source, bound) == |source|
  {
    BelowSplits(source, bound);
    BelowSplits(more, bound);
    var m, n := Below(source, bound), Below(more, bound);
    if m < |source| && more != [] {
      assert source[m].rowid >= bound;
      assert more[0].rowid > source[m].rowid by {
        assert (source + more)[m] == source[m] && (source + more)[|source|] == more[0];
      }
    }
    BelowAt(source + more, m + n, bound);
  }

  lemma SortedParts(source: seq<SourceRow>, more: seq<SourceRow>)
    requires SortedByRowId(source + more)
    ensures SortedByRowId(source) && SortedByRowId(more)
  {
    forall i, j | 0 <= i < j < |source|
      ensures source[i].rowid < source[j].rowid
    {
      assert (source + more)[i].rowid < (source + more)[j].rowid;
    }
    forall i, j | 0 <= i < j < |more|
      ensures more[i].rowid < more[j].rowid
    {
      assert (source + more)[|source| + i].rowid < (source + more)[|source| + j].rowid;
    }
  }

  lemma CoveredConcat(source: seq<SourceRow>, more: seq<SourceRow>, progress: Progress)
    requires SortedByRowId(source + more) && SortedByRowId(source) && SortedByRowId(more)
    requires progress.backward < progress.forward
    ensures Covered(source + more, progress) == Covered(source, progress) + Covered(more, progress)
  {
    var low, high := progress.backward + 1, progress.forward;
    var a, b, c, d := Below(source, low), Below(source, high), Below(more, low), Below(more, high);
    assert a <= b <= |source| && c <= d <= |more| by {
      BelowIsMonotone(source, low, high);
      BelowIsMonotone(more, low, high);
    }
    assert Below(source + more, low) == a + c && (c > 0 ==> a == |source|) by {
      BelowConcat(source, more, low);
    }
    assert Below(source + more, high) == b + d && (d > 0 ==> b == |source|) by {
      BelowConcat(source, more, high);
    }
    calc {
      Covered(source + more, progress);
      { CoveredSlice(source + more, progress, a + c, b + d); }
      (source + more)[a + c..b + d];
      { SliceOfConcat(source, a, b, more, c, d); }
      source[a..b] + more[c..d];
      { CoveredSlice(source, progress, a, b); CoveredSlice(more, progress, c, d); }
      Covered(source, progress) + Covered(more, progress);
    }
  }

  lemma SliceOfConcat<T>(a: seq<T>, lowA: nat, highA: nat, b: seq<T>, lowB: nat, highB: nat)
    requires lowA <= highA <= |a| && lowB <= highB <= |b|
    requires (lowB > 0 ==> lowA == |a|) && (highB > 0 ==> highA == |a|)
    ensures (a + b)[lowA + lowB..highA + highB] == a[lowA..highA] + b[lowB..highB]
  {
  }

  lemma CoveredAre(source: seq<SourceRow>, progress: Progress, row: SourceRow)
    requires SortedByRowId(source) && progress.backward < progress.forward
    ensures row in Covered(source, progress) <==> row in source && progress.backward < row.rowid < progress.forward
  {
    var lo, hi := Below(source, progress.backward + 1), Below(source, progress.forward);
    BelowIsMonotone(source, progress.backward + 1, progress.forward);
    CoveredSlice(source, progress, lo, hi);
    BelowSplits(source, progress.backward + 1);
    BelowSplits(source, progress.forward);
    if row in source && progress.backward < row.rowid < progress.forward {
      var i :| 0 <= i < |source| && source[i] == row;
      assert lo <= i < hi;
      assert source[lo..hi][i - lo] == row;
    }
  }

  lemma {:induction false} EmptyBag<A, B>(f: A -> multiset<B>, xs: seq<A>)
    ensures Bag(f, xs) == multiset{} <==> forall x | x in xs :: f(x) == multiset{}
  {
    if xs != [] {
      var init, last := xs[..|xs| - 1], xs[|xs| - 1];
      EmptyBag(f, init);
      assert xs == init + [last];
      assert Bag(f, init) + f(last) == multiset{} <==> Bag(f, init) == multiset{} && f(last) == multiset{} by {
        if f(last) != multiset{} {
          var y :| y in f(last);
          assert y in Bag(f, init) + f(last);
        }
        if Bag(f, init) != multiset{} {
          var y :| y in Bag(f, init);
          assert y in Bag(f, init) + f(last);
        }
      }
    }
  }

  lemma AddsNothing<T>(a: multiset<T>, b: multiset<T>)
    ensures a + b == a <==> b == multiset{}
  {
    assert a + b - a == b;
  }

  lemma NothingConverted(boolColumns: set<nat>, rows: seq<SourceRow>)
    ensures Bag(ConversionOf(boolColumns), rows) == multiset{} <==> forall row | row in rows :: IsDropped(boolColumns, row.columns)
  {
    var f := ConversionOf(boolColumns);
    EmptyBag(f, rows);
    forall row | row in rows
      ensures f(row) == multiset{} <==> IsDropped(boolColumns, row.columns)
    {
    }
  }

  /** A row that the next processes would still have to copy, in the range they will not look at again. */
  predicate Overlooked(boolColumns: set<nat>, progress: Progress, row: SourceRow) {
    progress.backward < row.rowid < progress.forward && !IsDropped(boolColumns, row.columns)
  }

  /** A table between rows added below it and rows added above it. */
  function Grown(below: seq<SourceRow>, source: seq<SourceRow>, above: seq<SourceRow>): seq<SourceRow> {
    below + source + above
  }

  lemma CoveredGrown(below: seq<SourceRow>, source: seq<SourceRow>, above: seq<SourceRow>, progress: Progress)
    requires SortedByRowId(Grown(below, source, above)) && progress.backward < progress.forward
    ensures SortedByRowId(below) && SortedByRowId(source) && SortedByRowId(above)
    ensures Covered(Grown(below, source, above), progress)
         == Covered(below, progress) + Covered(source, progress) + Covered(above, progress)
  {
    SortedParts(below + source, above);
    SortedParts(below, source);
    CoveredConcat(below + source, above, progress);
    CoveredConcat(below, source, progress);
  }

  /**
   * Rows added at either end of the table between two processes do no harm exactly when none of them
   * lies between the sweeps.
   */
  lemma GrowthKeepsPortedExactly(
      boolColumns: set<nat>, below: seq<SourceRow>, source: seq<SourceRow>, above: seq<SourceRow>, target: Target)
    requires SortedByRowId(Grown(below, source, above)) && SortedByRowId(source)
    requires target.progress.Some? && Ported(boolColumns, source, target)
    ensures Ported(boolColumns, Grown(below, source, above), target)
       <==> forall row | row in below || row in above :: !Overlooked(boolColumns, target.progress.value, row)
  {
    var progress, f := target.progress.value, ConversionOf(boolColumns);
    CoveredGrown(below, source, above, progress);
    var under, over := Covered(below, progress), Covered(above, progress);
    BagAround(f, under, Covered(source, progress), over);
    NothingOverlooked(boolColumns, below, progress);
    NothingOverlooked(boolColumns, above, progress);
  }

  lemma BagAround<A, B>(f: A -> multiset<B>, below: seq<A>, xs: seq<A>, above: seq<A>)
    ensures Bag(f, below + xs + above) == Bag(f, xs) <==> Bag(f, below) == multiset{} && Bag(f, above) == multiset{}
  {
    BagConcat(f, below + xs, above);
    BagConcat(f, below, xs);
    var a, b, c := Bag(f, below), Bag(f, xs), Bag(f, above);
    AddsNothing(b, a + c);
    assert a + b + c == b + (a + c);
    if a + c == multiset{} {
      assert forall y :: y in a ==> y in a + c;
      assert forall y :: y in c ==> y in a + c;
    }
  }

  lemma NothingOverlooked(boolColumns: set<nat>, rows: seq<SourceRow>, progress: Progress)
    requires SortedByRowId(rows) && progress.backward < progress.forward
    ensures Bag(ConversionOf(boolColumns), Covered(rows, progress)) == multiset{}
       <==> forall row | row in rows :: !Overlooked(boolColumns, progress, row)
  {
    var covered := Covered(rows, progress);
    NothingConverted(boolColumns, covered);
    forall row
      ensures row in covered <==> row in rows && progress.backward < row.rowid < progress.forward
    {
      CoveredAre(rows, progress, row);
    }
  }

  /** The row id that SQLite gives to a row appended to a table whose ids are positive. */
  function NextRowId(source: seq<SourceRow>): int {
    if source == [] || source[|source| - 1].rowid < 1 then 1 else source[|source| - 1].rowid + 1
  }

  /** The row id that the program gives to the next backfilled row, on the negative side of a table. */
  function PrevRowId(source: seq<SourceRow>): int {
    if source == [] || source[0].rowid > 0 then 0 else source[0].rowid - 1
  }

  /** A table of one backfilled row has been swept; the next row gets an id that is larger but not positive, and is lost. */
  lemma AppendedRowIsLost(row: Row)
    requires !IsDropped({}, row)
    ensures var source, target := [SourceRow(-5, row)], Target(multiset{ConvertRow({}, row)}, Some(Progress(1, -6)));
            && Ported({}, source, target)
            && SortedByRowId(source + [SourceRow(-4, row)])
            && !Ported({}, source + [SourceRow(-4, row)], target)
  {
    var source, target := [SourceRow(-5, row)], Target(multiset{ConvertRow({}, row)}, Some(Progress(1, -6)));
    var progress, next := Progress(1, -6), SourceRow(-4, row);
    CoveredAre(source, progress, source[0]);
    assert Covered(source, progress) == source by {
      assert source[0] in Covered(source, progress);
    }
    BagOfOne(ConversionOf({}), source[0]);
    assert Grown([], source, [next]) == source + [next];
    GrowthKeepsPortedExactly({}, [], source, [next], target);
    assert next in [next] && Overlooked({}, progress, next);
  }

  // ---------------------------------------------------------------- runs with crashes

  /** What outlives a process: both databases. */
  datatype Disk = Disk(source: seq<SourceRow>, target: Target)

  /**
   * The durable steps of porting a table. A crash is no step: it only decides which step comes next,
   * since a restarted process reads its position back from the progress row. Between two processes an
   * append-only table may have grown at both ends, upwards by new rows and downwards by backfilled ones;
   * any other table may have changed altogether, but is truncated first.
   */
  datatype Durable =
    | Truncate(changed: seq<SourceRow>)
    | InsertProgress
    | CommitBatch(batchSize: nat)
    | Grow(below: seq<SourceRow>, above: seq<SourceRow>)

  predicate Possible(appendOnly: bool, disk: Disk, step: Durable) {
    match step
    case Truncate(changed) => !appendOnly && SortedByRowId(changed)
    case InsertProgress => disk.target.progress.None?
    case CommitBatch(_) => disk.target.progress.Some? && SortedByRowId(disk.source)
    case Grow(below, above) =>
      && appendOnly
      && SortedByRowId(Grown(below, disk.source, above))
      && (below != [] ==> below[|below| - 1].rowid <= PrevRowId(disk.source))
      && (above != [] ==> above[0].rowid >= NextRowId(disk.source))
  }

  function Take(boolColumns: set<nat>, appendOnly: bool, disk: Disk, step: Durable): Disk
    requires Possible(appendOnly, disk, step)
  {
    match step
    case Truncate(changed) => Disk(changed, Target(multiset{}, None))
    case InsertProgress => disk.(target := disk.target.(progress := Some(Progress(1, 0))))
    case CommitBatch(batchSize) => disk.(target := Commit(boolColumns, disk.source, batchSize, disk.target))
    case Grow(below, above) => disk.(source := Grown(below, disk.source, above))
  }

  /** The durable states of a run, through any crashes and restarts. */
  ghost predicate PortRun(boolColumns: set<nat>, appendOnly: bool, disks: seq<Disk>, steps: seq<Durable>) {
    && |disks| == |steps| + 1
    && SortedByRowId(disks[0].source) && disks[0].target == Target(multiset{}, None)
    && forall n {:trigger steps[n]} | 0 <= n < |steps| ::
         Possible(appendOnly, disks[n], steps[n]) && disks[n + 1] == Take(boolColumns, appendOnly, disks[n], steps[n])
  }

  /** Neither sweep has passed the ids still to be given. */
  ghost predicate NotAhead(disk: Disk) {
    disk.target.progress.Some? ==>
      PrevRowId(disk.source) <= disk.target.progress.value.backward && disk.target.progress.value.forward <= NextRowId(disk.source)
  }

  ghost predicate PortSound(boolColumns: set<nat>, disk: Disk) {
    SortedByRowId(disk.source) && Ported(boolColumns, disk.source, disk.target) && NotAhead(disk)
  }

  lemma ForwardNotAhead(source: seq<SourceRow>, forward: int, batchSize: nat)
    requires SortedByRowId(source) && forward <= NextRowId(source)
    ensures NextForward(source, forward, batchSize) <= NextRowId(source)
  {
    var rows := SelectForward(source, forward, batchSize);
    if rows != [] {
      assert rows[|rows| - 1] == source[Below(source, forward) + |rows| - 1];
      RowIdsAscend(source, Below(source, forward) + |rows| - 1, |source| - 1);
    }
  }

  lemma BackwardNotAhead(source: seq<SourceRow>, backward: int, batchSize: nat)
    requires SortedByRowId(source) && PrevRowId(source) <= backward
    ensures PrevRowId(source) <= NextBackward(source, backward, batchSize)
  {
    var rows := RowsUpTo(source, backward, batchSize);
    RowsUpToSlice(source, backward, batchSize);
    if rows != [] {
      RowIdsAscend(source, 0, Below(source, backward + 1) - |rows|);
    }
  }

  lemma RowIdsAscend(source: seq<SourceRow>, i: nat, j: nat)
    requires SortedByRowId(source) && i <= j < |source|
    ensures source[i].rowid <= source[j].rowid
  {
  }

  /** Rows added at the ends get ids that the sweeps have yet to reach. */
  lemma GrowthIsOutside(disk: Disk, below: seq<SourceRow>, above: seq<SourceRow>)
    requires Possible(true, disk, Grow(below, above)) && SortedByRowId(disk.source)
    ensures SortedByRowId(below) && SortedByRowId(above)
    ensures forall row | row in below :: row.rowid <= PrevRowId(disk.source)
    ensures forall row | row in above :: row.rowid >= NextRowId(disk.source)
  {
    SortedParts(below + disk.source, above);
    SortedParts(below, disk.source);
    forall row | row in below
      ensures row.rowid <= PrevRowId(disk.source)
    {
      var i :| 0 <= i < |below| && below[i] == row;
      assert i < |below| - 1 ==> below[i].rowid < below[|below| - 1].rowid;
    }
    forall row | row in above
      ensures row.rowid >= NextRowId(disk.source)
    {
      var i :| 0 <= i < |above| && above[i] == row;
      assert i > 0 ==> above[0].rowid < above[i].rowid;
    }
  }

  lemma NextRowIdGrows(disk: Disk, below: seq<SourceRow>, above: seq<SourceRow>)
    requires Possible(true, disk, Grow(below, above)) && SortedByRowId(disk.source)
    ensures NextRowId(disk.source) <= NextRowId(Grown(below, disk.source, above))
  {
    var source, grown := disk.source, Grown(below, disk.source, above);
    GrowthIsOutside(disk, below, above);
    if above != [] {
      assert grown[|grown| - 1] == above[|above| - 1] && above[|above| - 1] in above;
    } else if source != [] {
      assert grown[|grown| - 1] == source[|source| - 1];
    }
  }

  lemma PrevRowIdShrinks(disk: Disk, below: seq<SourceRow>, above: seq<SourceRow>)
    requires Possible(true, disk, Grow(below, above)) && SortedByRowId(disk.source)
    ensures PrevRowId(Grown(below, disk.source, above)) <= PrevRowId(disk.source)
  {
    var source, grown := disk.source, Grown(below, disk.source, above);
    GrowthIsOutside(disk, below, above);
    if below != [] {
      assert grown[0] == below[0] && below[0] in below;
    } else if source != [] {
      assert grown[0] == source[0];
    }
  }

  lemma GrowthKeepsSound(boolColumns: set<nat>, disk: Disk, below: seq<SourceRow>, above: seq<SourceRow>)
    requires PortSound(boolColumns, disk) && Possible(true, disk, Grow(below, above))
    ensures PortSound(boolColumns, disk.(source := Grown(below, disk.source, above)))
  {
    GrowthIsOutside(disk, below, above);
    NextRowIdGrows(disk, below, above);
    PrevRowIdShrinks(disk, below, above);
    if disk.target.progress.Some? {
      GrowthKeepsPortedExactly(boolColumns, below, disk.source, above, disk.target);
    }
  }

  /** No row is ever missing or doubled, at whatever point the process last died and however the source has grown since. */
  lemma {:induction false} PortingIsExactlyOnce(
      boolColumns: set<nat>, appendOnly: bool, disks: seq<Disk>, steps: seq<Durable>, n: nat)
    requires PortRun(boolColumns, appendOnly, disks, steps) && n < |disks|
    ensures PortSound(boolColumns, disks[n])
  {
    if n > 0 {
      PortingIsExactlyOnce(boolColumns, appendOnly, disks, steps, n - 1);
      var disk := disks[n - 1];
      match steps[n - 1]
      case Truncate(_) =>
      case InsertProgress => assert Covered(disk.source, Progress(1, 0)) == [];
      case CommitBatch(batchSize) =>
        CommitKeepsPorted(boolColumns, disk.source, batchSize, disk.target);
        ForwardNotAhead(disk.source, disk.target.progress.value.forward, batchSize);
        BackwardNotAhead(disk.source, disk.target.progress.value.backward, batchSize);
      case Grow(below, above) => GrowthKeepsSound(boolColumns, disk, below, above);
    }
  }

  // ---------------------------------------------------------------- the porter

  /** The Postgres side of one table. */
  class PostgresTable {
    var target: Target

    constructor ()
      ensures target == Target(multiset{}, None)
    {
      target := Target(multiset{}, None);
    }
  }

  /** Finds out where to carry on; a table that is not append-only starts over. */
  method SetupTable(pg: PostgresTable, boolColumns: set<nat>, source: seq<SourceRow>, appendOnly: bool) returns (progress: Progress)
    requires SortedByRowId(source) && Ported(boolColumns, source, pg.target)
    modifies pg
    ensures pg.target.progress == Some(progress)
    ensures Ported(boolColumns, source, pg.target)
    ensures appendOnly && old(pg.target).progress.Some? ==> pg.target == old(pg.target)
    ensures !(appendOnly && old(pg.target).progress.Some?) ==> pg.target == Target(multiset{}, Some(Progress(1, 0)))
  {
    if !appendOnly {
      pg.target := Target(multiset{}, None);
    }
    if pg.target.progress.None? {
      pg.target := pg.target.(progress := Some(Progress(1, 0)));
      assert Covered(source, Progress(1, 0)) == [];
    }
    progress := pg.target.progress.value;
  }

  /** Selects the next rows of each sweep; a sweep that found nothing is not tried again. */
  method SelectRows(source: seq<SourceRow>, progress: Progress, batchSize: nat, doForward: bool, doBackward: bool)
      returns (forwards: seq<SourceRow>, backwards: seq<SourceRow>)
    requires SortedByRowId(source)
    requires !doForward ==> SelectForward(source, progress.forward, batchSize) == []
    requires !doBackward ==> SelectBackward(source, progress.backward, batchSize) == []
    ensures (forwards, backwards) == NextRows(source, progress, batchSize)
  {
    forwards, backwards := [], [];
    if doForward {
      forwards := SelectForward(source, progress.forward, batchSize);
    }
    if doBackward {
      backwards := SelectBackward(source, progress.backward, batchSize);
    }
  }

  /** Inserts the converted rows and moves the progress row, in one transaction. */
  method InsertRows(pg: PostgresTable, boolColumns: set<nat>, progress: Progress,
                    forwards: seq<SourceRow>, backwards: seq<SourceRow>) returns (next: Progress)
    modifies pg
    ensures next == Progress(Above(forwards, progress.forward), Under(backwards, progress.backward))
    ensures pg.target == Target(old(pg.target).rows + ConvertedBag(boolColumns, forwards + backwards), Some(next))
  {
    var forward, backward := progress.forward, progress.backward;
    if forwards != [] {
      forward := forwards[|forwards| - 1].rowid + 1;
    }
    if backwards != [] {
      backward := backwards[|backwards| - 1].rowid - 1;
    }
    var rows := ConvertRows(boolColumns, forwards + backwards);
    BagOfConverted(boolColumns, forwards + backwards);
    next := Progress(forward, backward);
    pg.target := Target(pg.target.rows + multiset(rows), Some(next));
  }

  /** One turn of the loop: the invariant holds again, fewer rows are left, and an exhausted sweep stays exhausted. */
  lemma CommitAdvances(boolColumns: set<nat>, source: seq<SourceRow>, batchSize: nat, target: Target)
    requires SortedByRowId(source) && batchSize >= 1 && target.progress.Some?
    requires Ported(boolColumns, source, target) && !Swept(source, target.progress.value, batchSize)
    ensures var progress, next := target.progress.value, NextProgress(source, target.progress.value, batchSize);
            && next.backward < next.forward && Uncovered(source, next) < Uncovered(source, progress)
            && Ported(boolColumns, source, Commit(boolColumns, source, batchSize, target))
            && (SelectForward(source, progress.forward, batchSize) == [] ==> next.forward == progress.forward)
            && (SelectBackward(source, progress.backward, batchSize) == [] ==> next.backward == progress.backward)
  {
    CommitMakesProgress(source, target.progress.value, batchSize);
    CommitKeepsPorted(boolColumns, source, batchSize, target);
  }

  /**
   * Sweeps over the source rows from the given position, until nothing is left or the process dies
   * after `lifetime` commits.
   */
  method HandleTable(pg: PostgresTable, boolColumns: set<nat>, source: seq<SourceRow>, batchSize: nat,
                     position: Progress, lifetime: nat) returns (finished: bool)
    requires SortedByRowId(source)
    requires pg.target.progress == Some(position) && Ported(boolColumns, source, pg.target)
    modifies pg
    ensures pg.target.progress.Some? && Ported(boolColumns, source, pg.target)
    ensures finished && batchSize >= 1 ==> pg.target.rows == ConvertedBag(boolColumns, source)
    ensures batchSize == 0 ==> finished && pg.target == old(pg.target)
    ensures lifetime >= |source| ==> finished
  {
    var progress, commits := position, 0;
    var doForward, doBackward := true, true;
    while true
      invariant pg.target.progress == Some(progress) && Ported(boolColumns, source, pg.target)
      invariant !doForward ==> SelectForward(source, progress.forward, batchSize) == []
      invariant !doBackward ==> SelectBackward(source, progress.backward, batchSize) == []
      invariant commits <= lifetime && commits + Uncovered(source, progress) <= |source|
      invariant batchSize == 0 ==> pg.target == old(pg.target)
      decreases Uncovered(source, progress)
    {
      ghost var before := pg.target;
      var forwards, backwards := SelectRows(source, progress, batchSize, doForward, doBackward);
      doForward, doBackward := forwards != [], backwards != [];
      if forwards == [] && backwards == [] {
        if batchSize >= 1 {
          SweptMeansComplete(source, progress, batchSize);
        }
        return true;
      }
      CommitAdvances(boolColumns, source, batchSize, before);
      if commits == lifetime {
        return false;
      }
      progress := InsertRows(pg, boolColumns, progress, forwards, backwards);
      assert pg.target == Commit(boolColumns, source, batchSize, before);
      commits := commits + 1;
    }
  }

  /** A process: it finds out where to carry on, and sweeps until it is done or dies. */
  method PortTable(pg: PostgresTable, boolColumns: set<nat>, source: seq<SourceRow>, appendOnly: bool, batchSize: nat, lifetime: nat)
      returns (finished: bool)
    requires SortedByRowId(source) && Ported(boolColumns, source, pg.target)
    modifies pg
    ensures Ported(boolColumns, source, pg.target)
    ensures finished && batchSize >= 1 ==> pg.target.rows == ConvertedBag(boolColumns, source)
    ensures lifetime >= |source| ==> finished
  {
    var position := SetupTable(pg, boolColumns, source, appendOnly);
    finished := HandleTable(pg, boolColumns, source, batchSize, position, lifetime);
  }

  /** Ports a table through a series of processes, each of which may die early. */
  method PortThroughCrashes(boolColumns: set<nat>, source: seq<SourceRow>, appendOnly: bool, batchSize: nat, lifetimes: seq<nat>)
      returns (pg: PostgresTable, finished: bool)
    requires SortedByRowId(source)
    ensures Ported(boolColumns, source, pg.target)
    ensures finished && batchSize >= 1 ==> pg.target.rows == ConvertedBag(boolColumns, source)
    ensures lifetimes != [] && lifetimes[|lifetimes| - 1] >= |source| ==> finished
  {
    pg := new PostgresTable();
    finished := false;
    for i := 0 to |lifetimes|
      invariant fresh(pg) && Ported(boolColumns, source, pg.target)
      invariant finished && batchSize >= 1 ==> pg.target.rows == ConvertedBag(boolColumns, source)
      invariant i > 0 && lifetimes[i - 1] >= |source| ==> finished
    {
      if finished {
        return;
      }
      finished := PortTable(pg, boolColumns, source, appendOnly, batchSize, lifetimes[i]);
    }
  }
}
