/**
 * Invariants of the replay loop: what holds of every state it reaches, and
 * how the counters and the access map can evolve over a capture.
 */
module ReplayInvariants {
  import opened Bytes
  import opened Capture
  import Catalog
  import opened Replay
  import opened ReplayFacts

  /** The number of cells of `m` classified `k`. */
  function CountOf(m: seq<Access>, k: Access): (n: nat)
    ensures n <= |m|
  {
    if m == [] then 0
    else CountOf(m[..|m| - 1], k) + (if m[|m| - 1] == k then 1 else 0)
  }

  /** Reclassifying one cell moves it from one tally to the other. */
  lemma {:induction false} CountOfUpdate(m: seq<Access>, i: nat, v: Access, k: Access)
    requires i < |m|
    ensures CountOf(m[i := v], k) ==
      CountOf(m, k) - (if m[i] == k then 1 else 0) + (if v == k then 1 else 0)
  {
    var n := |m| - 1;
    if i == n {
      assert m[i := v][..n] == m[..n];
    } else {
      assert m[i := v][..n] == m[..n][i := v];
      CountOfUpdate(m[..n], i, v, k);
    }
  }

  /**
   * What every reachable state satisfies: a cell never accessed holds the
   * fill byte, a cell not written holds the fill byte in the writes-only
   * image, every accessed cell was counted as discovered when first
   * accessed, and every written cell was counted as written.
   */
  predicate Coherent(c: Config, s: State)
  {
    Wf(c, s) &&
    (forall i :: 0 <= i < c.capacity && s.mapping[i] == Untouched ==> s.flash[i] == FILL) &&
    (forall i :: 0 <= i < c.capacity && s.mapping[i] != Written ==> s.writes[i] == FILL) &&
    s.bytesSniffed >= c.capacity - CountOf(s.mapping, Untouched) &&
    s.bytesWritten >= CountOf(s.mapping, Written)
  }

  lemma {:induction false} CountOfAll(n: nat, k: Access, v: Access)
    ensures CountOf(seq(n, _ => v), k) == if v == k then n else 0
  {
    if n > 0 {
      assert seq(n, _ => v)[..n - 1] == seq(n - 1, _ => v);
      CountOfAll(n - 1, k, v);
    }
  }

  lemma InitialCoherent(c: Config)
    requires ValidConfig(c)
    ensures Coherent(c, Initial(c))
  {
    CountOfAll(c.capacity, Untouched, Untouched);
    CountOfAll(c.capacity, Written, Untouched);
  }

  lemma StoreReadCoherent(c: Config, s: State, value: Byte)
    requires Coherent(c, s)
    ensures StoreRead(c, s, value).Ok? ==> Coherent(c, StoreRead(c, s, value).value)
  {
    if Target(c, s).Ok? {
      var i := Target(c, s).value;
      var t := StoreRead(c, s, value).value;
      if s.mapping[i] != Written {
        CountOfUpdate(s.mapping, i, Read, Untouched);
        CountOfUpdate(s.mapping, i, Read, Written);
      }
    }
  }

  lemma StoreWriteCoherent(c: Config, s: State, value: Byte)
    requires Coherent(c, s)
    ensures StoreWrite(c, s, value).Ok? ==> Coherent(c, StoreWrite(c, s, value).value)
  {
    if Target(c, s).Ok? {
      var i := Target(c, s).value;
      CountOfUpdate(s.mapping, i, Written, Untouched);
      CountOfUpdate(s.mapping, i, Written, Written);
    }
  }

  lemma StepCoherent(c: Config, s: State, row: Row)
    requires Coherent(c, s)
    ensures Step(c, s, row).Ok? ==> Coherent(c, Step(c, s, row).value)
  {
    StoreReadCoherent(c, s, row.miso);
    StoreWriteCoherent(c, s, row.mosi);
  }

  /** Every state a capture leads to from the initial state is coherent. */
  lemma {:induction false} RunCoherent(c: Config, s: State, rows: seq<Row>)
    requires Coherent(c, s)
    ensures Run(c, s, rows).Ok? ==> Coherent(c, Run(c, s, rows).value)
    decreases |rows|
  {
    if rows != [] {
      StepCoherent(c, s, rows[0]);
      if Step(c, s, rows[0]).Ok? {
        RunCoherent(c, Step(c, s, rows[0]).value, rows[1..]);
      }
    }
  }

  /** `row` is a Read Data or Fast Read sample that stores a byte read from the device. */
  predicate StoresRead(c: Config, s: State, row: Row)
  {
    IsDigits(row.id) && !Opens(s, row) && ReadsEnabled(c.filter) && s.currAddrByte == c.addrLen &&
    (s.command == READ_DATA || (s.command == FAST_READ && !s.dummyFastRead))
  }

  /** `row` is a Page Program sample that stores a byte programmed into the device. */
  predicate StoresWrite(c: Config, s: State, row: Row)
  {
    IsDigits(row.id) && !Opens(s, row) && WritesEnabled(c.filter) && s.currAddrByte == c.addrLen &&
    s.command == PAGE_PROGRAM
  }

  /** The number of read data samples a replay of `rows` from `s` processes. */
  function ReadSamples(c: Config, s: State, rows: seq<Row>): nat
    requires Wf(c, s)
    decreases |rows|
  {
    if rows == [] then 0
    else
      match Step(c, s, rows[0])
      case Failed(_) => 0
      case Ok(t) => (if StoresRead(c, s, rows[0]) then 1 else 0) + ReadSamples(c, t, rows[1..])
  }

  /** The number of write data samples a replay of `rows` from `s` processes. */
  function WriteSamples(c: Config, s: State, rows: seq<Row>): nat
    requires Wf(c, s)
    decreases |rows|
  {
    if rows == [] then 0
    else
      match Step(c, s, rows[0])
      case Failed(_) => 0
      case Ok(t) => (if StoresWrite(c, s, rows[0]) then 1 else 0) + WriteSamples(c, t, rows[1..])
  }

  /**
   * One row never lowers a counter; it raises the discovered byte count by
   * at most one and only when it stores a data byte, and it raises the
   * written byte count by exactly one when it is a write data sample and
   * leaves it alone otherwise.
   */
  lemma StepCounters(c: Config, s: State, row: Row)
    requires Wf(c, s) && Step(c, s, row).Ok?
    ensures var t := Step(c, s, row).value;
      s.bytesSniffed <= t.bytesSniffed <=
        s.bytesSniffed + (if StoresRead(c, s, row) || StoresWrite(c, s, row) then 1 else 0) &&
      t.bytesWritten == s.bytesWritten + (if StoresWrite(c, s, row) then 1 else 0) &&
      s.unknownCommands <= t.unknownCommands &&
      forall op :: op in s.commandStats ==> s.commandStats[op] <= t.commandStats[op]
  {
  }

  /**
   * Over a whole capture the counters only grow. The discovered byte count
   * grows by at most the number of data samples stored, and the written
   * byte count grows by exactly the number of write data samples, rewrites
   * of a cell included. Neither grows by more than one per row.
   */
  lemma {:induction false} CountersMonotone(c: Config, s: State, rows: seq<Row>)
    requires Wf(c, s) && Run(c, s, rows).Ok?
    ensures var t := Run(c, s, rows).value;
      s.bytesSniffed <= t.bytesSniffed <= s.bytesSniffed + ReadSamples(c, s, rows) + WriteSamples(c, s, rows) &&
      t.bytesWritten == s.bytesWritten + WriteSamples(c, s, rows) &&
      ReadSamples(c, s, rows) + WriteSamples(c, s, rows) <= |rows| &&
      s.unknownCommands <= t.unknownCommands &&
      forall op :: op in s.commandStats ==> s.commandStats[op] <= t.commandStats[op]
    decreases |rows|
  {
    if rows != [] {
      StepCounters(c, s, rows[0]);
      CountersMonotone(c, Step(c, s, rows[0]).value, rows[1..]);
    }
  }

  /** A row never downgrades a written cell, and changes the writes-only image only at written cells. */
  lemma StepKeepsWritten(c: Config, s: State, row: Row)
    requires Wf(c, s) && Step(c, s, row).Ok?
    ensures var t := Step(c, s, row).value;
      (forall i :: 0 <= i < c.capacity && s.mapping[i] == Written ==> t.mapping[i] == Written) &&
      (forall i :: 0 <= i < c.capacity && t.writes[i] != s.writes[i] ==> t.mapping[i] == Written)
  {
  }

  /** Written is sticky over a whole capture: no later read downgrades it. */
  lemma {:induction false} WrittenSticky(c: Config, s: State, rows: seq<Row>)
    requires Wf(c, s) && Run(c, s, rows).Ok?
    ensures var t := Run(c, s, rows).value;
      forall i :: 0 <= i < c.capacity && s.mapping[i] == Written ==> t.mapping[i] == Written
    decreases |rows|
  {
    if rows != [] {
      StepKeepsWritten(c, s, rows[0]);
      WrittenSticky(c, Step(c, s, rows[0]).value, rows[1..]);
    }
  }
}
