/** Copying tables in waves, so that each is copied after the tables its foreign keys refer to. */
module PortWaves {
  type Table = string

  type Constraints = map<Table, set<Table>>

  function Dependencies(constraints: Constraints, table: Table): set<Table> {
    if table in constraints then constraints[table] else {}
  }

  /** The tables still to be ported that depend only on tables already ported. */
  function Ready(constraints: Constraints, remaining: set<Table>, ported: set<Table>): set<Table> {
    set table | table in remaining && Dependencies(constraints, table) <= ported
  }

  /** What is ported after a number of waves. */
  function PortedAfter(constraints: Constraints, tables: set<Table>, n: nat): (ported: set<Table>)
    ensures ported <= tables
  {
    if n == 0 then {} else Next(constraints, tables, PortedAfter(constraints, tables, n - 1))
  }

  /** What is ported after one wave more. */
  function Next(constraints: Constraints, tables: set<Table>, ported: set<Table>): set<Table> {
    set table | table in tables && (table in ported || Dependencies(constraints, table) <= ported)
  }

  /** The tables ported in one wave. */
  function Wave(constraints: Constraints, tables: set<Table>, i: nat): set<Table> {
    Starts(constraints, tables, PortedAfter(constraints, tables, i))
  }

  /** The tables that can be ported next. */
  function Starts(constraints: Constraints, tables: set<Table>, ported: set<Table>): set<Table> {
    set table | table in tables && table !in ported && Dependencies(constraints, table) <= ported
  }

  /** Every group of tables to port has one that depends on no table of the group, and on none that is not ported at all. */
  ghost predicate Portable(constraints: Constraints, tables: set<Table>) {
    forall group: set<Table> {:trigger HasEntrance(constraints, tables, group)} |
      group != {} && group <= tables :: HasEntrance(constraints, tables, group)
  }

  ghost predicate HasEntrance(constraints: Constraints, tables: set<Table>, group: set<Table>) {
    exists table :: IsEntrance(constraints, tables, group, table)
  }

  predicate IsEntrance(constraints: Constraints, tables: set<Table>, group: set<Table>, table: Table) {
    table in group && Dependencies(constraints, table) <= tables - group
  }

  /** So whatever has been ported, some table left is ready. */
  lemma SomeTableIsReady(constraints: Constraints, tables: set<Table>, ported: set<Table>) returns (table: Table)
    requires Portable(constraints, tables) && ported < tables
    ensures table in Starts(constraints, tables, ported)
  {
    var left :| left in tables && left !in ported;
    assert left in tables - ported;
    assert HasEntrance(constraints, tables, tables - ported);
    table :| IsEntrance(constraints, tables, tables - ported, table);
  }

  /** Ports wave after wave, until no table is left. */
  method PortInWaves(constraints: Constraints, tables: set<Table>) returns (waves: seq<set<Table>>)
    requires Portable(constraints, tables)
    ensures PortedAfter(constraints, tables, |waves|) == tables
    ensures AreTheWaves(constraints, tables, waves)
  {
    waves := [];
    var toPort, ported := tables, {};
    while toPort != {}
      invariant ported == PortedAfter(constraints, tables, |waves|) && toPort == tables - ported
      invariant AreTheWaves(constraints, tables, waves)
      decreases |toPort|
    {
      var wave := Ready(constraints, toPort, ported);
      NextWave(constraints, tables, waves, toPort, ported);
      toPort := toPort - wave;
      ported := ported + wave;
      waves := waves + [wave];
    }
  }

  ghost predicate AreTheWaves(constraints: Constraints, tables: set<Table>, waves: seq<set<Table>>) {
    forall i | 0 <= i < |waves| :: waves[i] == Wave(constraints, tables, i)
  }

  /** One turn of the loop. */
  lemma NextWave(constraints: Constraints, tables: set<Table>, waves: seq<set<Table>>, toPort: set<Table>, ported: set<Table>)
    requires Portable(constraints, tables) && AreTheWaves(constraints, tables, waves)
    requires ported == PortedAfter(constraints, tables, |waves|) && toPort == tables - ported && toPort != {}
    ensures var wave := Ready(constraints, toPort, ported);
            && ported + wave == PortedAfter(constraints, tables, |waves + [wave]|)
            && toPort - wave == tables - (ported + wave)
            && |toPort - wave| < |toPort|
            && AreTheWaves(constraints, tables, waves + [wave])
  {
    WaveIsReady(constraints, tables, toPort, ported);
    WaveIsNext(constraints, tables, waves);
    WaveShrinks(constraints, tables, toPort, ported);
  }

  /** The tables that are ready are those of the next wave. */
  lemma WaveIsReady(constraints: Constraints, tables: set<Table>, toPort: set<Table>, ported: set<Table>)
    requires ported <= tables && toPort == tables - ported
    ensures Ready(constraints, toPort, ported) == Starts(constraints, tables, ported)
    ensures ported + Ready(constraints, toPort, ported) == Next(constraints, tables, ported)
  {
  }

  lemma WaveIsNext(constraints: Constraints, tables: set<Table>, waves: seq<set<Table>>)
    requires AreTheWaves(constraints, tables, waves)
    ensures AreTheWaves(constraints, tables, waves + [Wave(constraints, tables, |waves|)])
  {
  }

  /** A wave leaves fewer tables to port. */
  lemma WaveShrinks(constraints: Constraints, tables: set<Table>, toPort: set<Table>, ported: set<Table>)
    requires Portable(constraints, tables) && ported <= tables && toPort == tables - ported && toPort != {}
    ensures var wave := Ready(constraints, toPort, ported);
            |toPort - wave| < |toPort| && toPort - wave == tables - (ported + wave)
  {
    var table := SomeTableIsReady(constraints, tables, ported);
    SmallerSet(toPort - Ready(constraints, toPort, ported), toPort);
  }

  lemma SmallerSet<T>(a: set<T>, b: set<T>)
    requires a < b
    ensures |a| < |b|
  {
    var x :| x in b && x !in a;
    SubsetSize(a, b - {x});
  }

  lemma {:induction false} SubsetSize<T>(a: set<T>, b: set<T>)
    requires a <= b
    ensures |a| <= |b|
  {
    if a != {} {
      var x :| x in a;
      SubsetSize(a - {x}, b - {x});
    }
  }

  lemma NextGrows(constraints: Constraints, tables: set<Table>, ported: set<Table>)
    requires ported <= tables
    ensures ported <= Next(constraints, tables, ported)
  {
  }

  lemma {:induction false} PortedStays(constraints: Constraints, tables: set<Table>, m: nat, n: nat)
    requires m <= n
    ensures PortedAfter(constraints, tables, m) <= PortedAfter(constraints, tables, n)
  {
    if m < n {
      PortedStays(constraints, tables, m, n - 1);
      NextGrows(constraints, tables, PortedAfter(constraints, tables, n - 1));
    }
  }

  /** A wave ports what was not ported before it, and it stays ported. */
  lemma WavePorts(constraints: Constraints, tables: set<Table>, i: nat, table: Table, n: nat)
    requires table in Wave(constraints, tables, i)
    ensures table in PortedAfter(constraints, tables, n) <==> n > i
  {
    assert table in PortedAfter(constraints, tables, i + 1);
    if n > i {
      PortedStays(constraints, tables, i + 1, n);
    } else {
      PortedStays(constraints, tables, n, i);
    }
  }

  /** Each table is ported in exactly one wave, after all the tables it depends on. */
  lemma PortedExactlyOnce(constraints: Constraints, tables: set<Table>, n: nat, table: Table) returns (i: nat)
    requires table in PortedAfter(constraints, tables, n)
    ensures i < n && table in Wave(constraints, tables, i)
    ensures table in constraints ==> constraints[table] <= PortedAfter(constraints, tables, i)
    ensures forall j: nat | table in Wave(constraints, tables, j) :: j == i
  {
    i := PortedInSomeWave(constraints, tables, n, table);
    forall j: nat | table in Wave(constraints, tables, j)
      ensures j == i
    {
      WavePorts(constraints, tables, i, table, j);
      WavePorts(constraints, tables, j, table, i);
    }
  }

  lemma {:induction false} PortedInSomeWave(constraints: Constraints, tables: set<Table>, n: nat, table: Table) returns (i: nat)
    requires table in PortedAfter(constraints, tables, n)
    ensures i < n && table in Wave(constraints, tables, i)
  {
    if table in PortedAfter(constraints, tables, n - 1) {
      i := PortedInSomeWave(constraints, tables, n - 1, table);
    } else {
      i := n - 1;
    }
  }

  // ---------------------------------------------------------------- when the waves come to an end

  /** A group without an entrance is never entered. */
  lemma {:induction false} NeverEntered(constraints: Constraints, tables: set<Table>, group: set<Table>, n: nat)
    requires group <= tables && !HasEntrance(constraints, tables, group)
    ensures PortedAfter(constraints, tables, n) !! group
  {
    if n > 0 {
      NeverEntered(constraints, tables, group, n - 1);
      var before := PortedAfter(constraints, tables, n - 1);
      assert before <= tables - group;
      forall table | table in group
        ensures table !in PortedAfter(constraints, tables, n)
      {
        if Dependencies(constraints, table) <= before {
          assert IsEntrance(constraints, tables, group, table);
        }
      }
    }
  }

  /** While tables are left, each wave ports at least one. */
  lemma WavesMakeProgress(constraints: Constraints, tables: set<Table>, n: nat)
    requires Portable(constraints, tables)
    ensures PortedAfter(constraints, tables, n) == tables || |PortedAfter(constraints, tables, n)| >= n
  {
    if PortedAfter(constraints, tables, n) != tables {
      var chain := WaveChain(constraints, tables, n);
      ChainGrows(chain, n);
    }
  }

  /** What is ported, wave by wave, while tables are left. */
  lemma {:induction false} WaveChain(constraints: Constraints, tables: set<Table>, n: nat) returns (chain: seq<set<Table>>)
    requires Portable(constraints, tables) && PortedAfter(constraints, tables, n) != tables
    ensures |chain| == n + 1 && chain[n] == PortedAfter(constraints, tables, n)
    ensures forall i | 0 < i < |chain| :: chain[i - 1] < chain[i]
  {
    if n == 0 {
      chain := [{}];
    } else {
      PortedStays(constraints, tables, n - 1, n);
      WaveIsNotEmpty(constraints, tables, n);
      chain := WaveChain(constraints, tables, n - 1);
      chain := chain + [PortedAfter(constraints, tables, n)];
    }
  }

  lemma WaveIsNotEmpty(constraints: Constraints, tables: set<Table>, n: nat)
    requires Portable(constraints, tables) && n > 0 && PortedAfter(constraints, tables, n - 1) != tables
    ensures PortedAfter(constraints, tables, n - 1) < PortedAfter(constraints, tables, n)
  {
    var before := PortedAfter(constraints, tables, n - 1);
    var table := SomeTableIsReady(constraints, tables, before);
    NextGrows(constraints, tables, before);
    assert table in Next(constraints, tables, before) && table !in before;
  }

  lemma {:induction false} ChainGrows<T>(chain: seq<set<T>>, n: nat)
    requires n < |chain| && forall i | 0 < i < |chain| :: chain[i - 1] < chain[i]
    ensures |chain[n]| >= n
  {
    if n > 0 {
      ChainGrows(chain, n - 1);
      SmallerSet(chain[n - 1], chain[n]);
    }
  }

  /** The loop over the waves terminates exactly when every group of tables has an entrance. */
  lemma WavesTerminateExactly(constraints: Constraints, tables: set<Table>)
    ensures (exists n :: PortedAfter(constraints, tables, n) == tables) <==> Portable(constraints, tables)
  {
    if Portable(constraints, tables) {
      WavesMakeProgress(constraints, tables, |tables| + 1);
      SubsetSize(PortedAfter(constraints, tables, |tables| + 1), tables);
      assert PortedAfter(constraints, tables, |tables| + 1) == tables;
    } else {
      var group :| group != {} && group <= tables && !HasEntrance(constraints, tables, group);
      forall n
        ensures PortedAfter(constraints, tables, n) != tables
      {
        NeverEntered(constraints, tables, group, n);
        var table :| table in group;
      }
    }
  }

  // ---------------------------------------------------------------- cycles

  /** Every dependency of a table to port is itself to be ported. */
  ghost predicate Closed(constraints: Constraints, tables: set<Table>) {
    forall table | table in tables && table in constraints :: constraints[table] <= tables
  }

  predicate DependsOn(constraints: Constraints, table: Table, other: Table) {
    table in constraints && other in constraints[table]
  }

  /** Each table of a walk depends on the next. */
  ghost predicate Walk(constraints: Constraints, tables: set<Table>, walk: seq<Table>) {
    && (forall i | 0 <= i < |walk| :: walk[i] in tables)
    && (forall i | 0 < i < |walk| :: DependsOn(constraints, walk[i - 1], walk[i]))
  }

  ghost predicate Cycle(constraints: Constraints, tables: set<Table>, walk: seq<Table>) {
    Walk(constraints, tables, walk) && |walk| >= 2 && walk[0] == walk[|walk| - 1]
  }

  ghost predicate Acyclic(constraints: Constraints, tables: set<Table>) {
    forall walk :: !Cycle(constraints, tables, walk)
  }

  /** In a closed group without an entrance one can walk on forever. */
  lemma {:induction false} WalkOn(constraints: Constraints, tables: set<Table>, group: set<Table>, n: nat) returns (walk: seq<Table>)
    requires Closed(constraints, tables) && group <= tables && group != {}
    requires !HasEntrance(constraints, tables, group)
    ensures |walk| == n + 1 && Walk(constraints, tables, walk)
    ensures forall i | 0 <= i < |walk| :: walk[i] in group
  {
    if n == 0 {
      var table :| table in group;
      walk := [table];
    } else {
      var before := WalkOn(constraints, tables, group, n - 1);
      var last := before[n - 1];
      assert !IsEntrance(constraints, tables, group, last);
      var next :| next in Dependencies(constraints, last) && next in group;
      walk := before + [next];
    }
  }

  /** A walk longer than the group it stays in comes back to some table. */
  lemma {:induction false} Pigeonhole<T>(xs: seq<T>, group: set<T>) returns (i: nat, j: nat)
    requires forall k | 0 <= k < |xs| :: xs[k] in group
    requires |xs| > |group|
    ensures i < j < |xs| && xs[i] == xs[j]
  {
    var n := |xs| - 1;
    if k :| 0 <= k < n && xs[k] == xs[n] {
      i, j := k, n;
    } else {
      i, j := Pigeonhole(xs[..n], group - {xs[n]});
    }
  }

  lemma PortableIsClosed(constraints: Constraints, tables: set<Table>)
    requires Portable(constraints, tables)
    ensures Closed(constraints, tables)
  {
    forall table | table in tables
      ensures Dependencies(constraints, table) <= tables
    {
      assert HasEntrance(constraints, tables, {table});
      var entrance :| IsEntrance(constraints, tables, {table}, entrance);
    }
  }

  /** A closed group without an entrance holds a cycle. */
  lemma NoEntranceMeansCycle(constraints: Constraints, tables: set<Table>, group: set<Table>)
    requires Closed(constraints, tables) && group <= tables && group != {}
    requires !HasEntrance(constraints, tables, group)
    ensures !Acyclic(constraints, tables)
  {
    var walk := WalkOn(constraints, tables, group, |group|);
    var i, j := Pigeonhole(walk, group);
    assert Cycle(constraints, tables, walk[i..j + 1]);
  }

  /** The waves come to an end exactly when no constraint leads outside the tables to port or around in a circle. */
  lemma PortableExactly(constraints: Constraints, tables: set<Table>)
    ensures Portable(constraints, tables) <==> Closed(constraints, tables) && Acyclic(constraints, tables)
  {
    if Portable(constraints, tables) {
      PortableIsClosed(constraints, tables);
      forall walk | Cycle(constraints, tables, walk)
        ensures false
      {
        CycleHasNoEntrance(constraints, tables, walk);
      }
    } else if Closed(constraints, tables) {
      var group: set<Table> :| group != {} && group <= tables && !HasEntrance(constraints, tables, group);
      NoEntranceMeansCycle(constraints, tables, group);
    }
  }

  lemma CycleHasNoEntrance(constraints: Constraints, tables: set<Table>, walk: seq<Table>)
    requires Cycle(constraints, tables, walk)
    ensures !Portable(constraints, tables)
  {
    var group := set i | 0 <= i < |walk| :: walk[i];
    assert walk[0] in group;
    forall table | table in group
      ensures !IsEntrance(constraints, tables, group, table)
    {
      var i :| 0 <= i < |walk| && walk[i] == table;
      var k := if i == |walk| - 1 then 0 else i;
      assert walk[k] == table && walk[k + 1] in Dependencies(constraints, table) && walk[k + 1] in group;
    }
    assert !HasEntrance(constraints, tables, group);
  }
}
