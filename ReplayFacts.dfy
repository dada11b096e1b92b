/** What one row, and a whole capture, do to the replay state. */
module ReplayFacts {
  import opened Bytes
  import opened Address
  import opened Capture
  import Catalog
  import opened Replay

  /** No row of `rows` starts a new transaction after `s`. */
  predicate WithinTransaction(s: State, rows: seq<Row>)
  {
    forall i :: 0 <= i < |rows| ==> !Opens(s, rows[i])
  }

  /** Everything the images and the counters consist of, with the per-transaction state left out. */
  predicate SameImages(s: State, t: State)
  {
    s.flash == t.flash && s.writes == t.writes && s.mapping == t.mapping &&
    s.bytesSniffed == t.bytesSniffed && s.bytesWritten == t.bytesWritten &&
    s.unknownCommands == t.unknownCommands && s.commandStats == t.commandStats &&
    s.jedecId == t.jedecId && s.deviceId == t.deviceId
  }

  /** Replaying two captures one after the other is replaying their concatenation. */
  lemma {:induction false} RunConcat(c: Config, s: State, a: seq<Row>, b: seq<Row>)
    requires Wf(c, s)
    ensures Run(c, s, a + b) ==
      match Run(c, s, a)
      case Failed(f) => Failed(f)
      case Ok(t) => Run(c, t, b)
    decreases |a|
  {
    if a == [] {
      assert a + b == b;
    } else {
      assert (a + b)[0] == a[0] && (a + b)[1..] == a[1..] + b;
      if Step(c, s, a[0]).Ok? {
        RunConcat(c, Step(c, s, a[0]).value, a[1..], b);
      }
    }
  }

  // ---------------------------------------------------------------------------
  // Transaction boundaries and the opcode catalog

  /** Header and noise rows, whose id field is not a number, change nothing. */
  lemma NonNumericRowIgnored(c: Config, s: State, row: Row)
    requires Wf(c, s) && !IsDigits(row.id)
    ensures Step(c, s, row) == Ok(s)
  {
  }

  /**
   * A row with a larger packet id starts a transaction: it records the id,
   * takes the opcode from MOSI (NO_OPERATION when it is not catalogued) and
   * resets the per-transaction counters, leaving the images alone.
   */
  lemma NewTransactionResets(c: Config, s: State, row: Row)
    requires Wf(c, s) && Opens(s, row)
    ensures Step(c, s, row).Ok?
    ensures var t := Step(c, s, row).value;
      t.packetId == DecimalValue(row.id) &&
      t.command == (if row.mosi in Catalog.Commands then row.mosi else NO_OPERATION) &&
      t.offset == 0 && t.currAddrByte == 0 && t.currByte == 0 &&
      t.dummyFastRead && t.dummyRpd == 0 &&
      t.addressBytes == s.addressBytes &&
      t.flash == s.flash && t.writes == s.writes && t.mapping == s.mapping &&
      t.jedecId == s.jedecId && t.deviceId == s.deviceId &&
      t.bytesSniffed == s.bytesSniffed && t.bytesWritten == s.bytesWritten
  {
  }

  /**
   * An uncatalogued opcode bumps the unknown counter by one and no opcode
   * counter; a catalogued one bumps exactly its own counter.
   */
  lemma OpcodeCounted(c: Config, s: State, row: Row)
    requires Wf(c, s) && Opens(s, row)
    ensures Step(c, s, row).Ok?
    ensures var t := Step(c, s, row).value;
      if row.mosi !in Catalog.Commands then
        t.unknownCommands == s.unknownCommands + 1 && t.commandStats == s.commandStats
      else
        t.unknownCommands == s.unknownCommands &&
        t.commandStats.Keys == s.commandStats.Keys &&
        t.commandStats[row.mosi] == s.commandStats[row.mosi] + 1 &&
        forall op :: op in s.commandStats && op != row.mosi ==> t.commandStats[op] == s.commandStats[op]
  {
  }

  /**
   * The rest of a transaction whose opcode has no decode branch (an unknown
   * opcode, turned into NO_OPERATION, or any other catalogued one) changes
   * nothing at all.
   */
  lemma {:induction false} PassthroughTransaction(c: Config, s: State, rows: seq<Row>)
    requires Wf(c, s) && WithinTransaction(s, rows)
    requires s.command !in {READ_DATA, FAST_READ, PAGE_PROGRAM, RELEASE_POWER_DOWN, READ_JEDEC_ID}
    ensures Run(c, s, rows) == Ok(s)
  {
    if rows != [] {
      assert !Opens(s, rows[0]);
      assert Step(c, s, rows[0]) == Ok(s);
      assert WithinTransaction(s, rows[1..]) by {
        forall i | 0 <= i < |rows[1..]| ensures !Opens(s, rows[1..][i]) {
          assert rows[1..][i] == rows[i + 1];
        }
      }
      PassthroughTransaction(c, s, rows[1..]);
    }
  }

  // ---------------------------------------------------------------------------
  // Read Data, Fast Read and Page Program

  /**
   * Read Data (0x03). With reads filtered out nothing changes. Otherwise the
   * first `addrLen` samples only collect MOSI address bytes; each later
   * sample stores its MISO byte at `address + offset` in the image from all
   * sources, marks the cell read unless it was written, counts a discovered
   * byte exactly when the cell held the fill byte, and advances `offset`.
   * Nothing else changes: not the writes-only image, the identifiers, the
   * opcode counters or the address state.
   */
  lemma ReadDataSample(c: Config, s: State, row: Row)
    requires Wf(c, s) && s.command == READ_DATA && IsDigits(row.id) && !Opens(s, row)
    ensures var r := Step(c, s, row);
      (!ReadsEnabled(c.filter) ==> r == Ok(s)) &&
      (ReadsEnabled(c.filter) && s.currAddrByte < c.addrLen ==>
        r == Ok(s.(addressBytes := s.addressBytes[s.currAddrByte := row.mosi],
                   currAddrByte := s.currAddrByte + 1))) &&
      (ReadsEnabled(c.filter) && s.currAddrByte == c.addrLen ==>
        match DecodeAddress(s.addressBytes, c.endian)
        case None => r == Failed(AddressTooShort)
        case Some(address) =>
          var i := address + s.offset;
          if i >= c.capacity then r == Failed(CapacityExceeded(i))
          else
            r == Ok(s.(flash := s.flash[i := row.miso],
                       mapping := if s.mapping[i] == Written then s.mapping else s.mapping[i := Read],
                       bytesSniffed := s.bytesSniffed + (if s.flash[i] == FILL then 1 else 0),
                       offset := s.offset + 1)))
  {
  }

  /**
   * Page Program (0x02): like Read Data, but a data sample stores its MOSI
   * byte at the same cell of both images, marks the cell written and counts
   * one more written byte, also when the cell was written before.
   */
  lemma PageProgramSample(c: Config, s: State, row: Row)
    requires Wf(c, s) && s.command == PAGE_PROGRAM && IsDigits(row.id) && !Opens(s, row)
    ensures var r := Step(c, s, row);
      (!WritesEnabled(c.filter) ==> r == Ok(s)) &&
      (WritesEnabled(c.filter) && s.currAddrByte < c.addrLen ==>
        r == Ok(s.(addressBytes := s.addressBytes[s.currAddrByte := row.mosi],
                   currAddrByte := s.currAddrByte + 1))) &&
      (WritesEnabled(c.filter) && s.currAddrByte == c.addrLen ==>
        match DecodeAddress(s.addressBytes, c.endian)
        case None => r == Failed(AddressTooShort)
        case Some(address) =>
          var i := address + s.offset;
          if i >= c.capacity then r == Failed(CapacityExceeded(i))
          else
            r == Ok(s.(writes := s.writes[i := row.mosi],
                       flash := s.flash[i := row.mosi],
                       mapping := s.mapping[i := Written],
                       bytesSniffed := s.bytesSniffed + (if s.flash[i] == FILL then 1 else 0),
                       bytesWritten := s.bytesWritten + 1,
                       offset := s.offset + 1)))
  {
  }

  /**
   * Fast Read (0x0B): the first sample after the address only clears the
   * dummy flag; it stores nothing.
   */
  lemma FastReadDummySample(c: Config, s: State, row: Row)
    requires Wf(c, s) && s.command == FAST_READ && IsDigits(row.id) && !Opens(s, row)
    requires ReadsEnabled(c.filter) && s.currAddrByte == c.addrLen && s.dummyFastRead
    ensures Step(c, s, row) == Ok(s.(dummyFastRead := false))
  {
  }

  /**
   * Fast Read (0x0B) before its data: with filter `w` a sample changes
   * nothing, and until the address is complete a sample only collects its
   * MOSI byte, exactly as Read Data does in the same state.
   */
  lemma FastReadPreamble(c: Config, s: State, row: Row)
    requires Wf(c, s) && s.command == FAST_READ && IsDigits(row.id) && !Opens(s, row)
    ensures var r := Step(c, s, row);
      (!ReadsEnabled(c.filter) ==> r == Ok(s)) &&
      (ReadsEnabled(c.filter) && s.currAddrByte < c.addrLen ==>
        r == Ok(s.(addressBytes := s.addressBytes[s.currAddrByte := row.mosi],
                   currAddrByte := s.currAddrByte + 1)))
    ensures !ReadsEnabled(c.filter) || s.currAddrByte < c.addrLen ==>
      var q := Step(c, s.(command := READ_DATA), row);
      Step(c, s, row).Ok? && q.Ok? && Step(c, s, row).value == q.value.(command := FAST_READ)
  {
  }

  /** `a` is a Fast Read past its dummy sample and `b` the same state as a Read Data. */
  predicate Lagging(a: State, b: State)
  {
    a == b ||
    (a.command == FAST_READ && !a.dummyFastRead && b.command == READ_DATA &&
     b == a.(command := READ_DATA, dummyFastRead := b.dummyFastRead))
  }

  predicate LaggingResult(r: Result<State>, q: Result<State>)
  {
    (r.Failed? && q.Failed? && r.fault == q.fault) ||
    (r.Ok? && q.Ok? && Lagging(r.value, q.value))
  }

  lemma LaggingStep(c: Config, a: State, b: State, row: Row)
    requires Wf(c, a) && Wf(c, b) && Lagging(a, b)
    ensures LaggingResult(Step(c, a, row), Step(c, b, row))
  {
    if a != b && IsDigits(row.id) && DecimalValue(row.id) > a.packetId {
      var id := DecimalValue(row.id);
      assert Open(a, id, row.mosi) == Open(b, id, row.mosi);
    }
  }

  lemma {:induction false} LaggingRun(c: Config, a: State, b: State, rows: seq<Row>)
    requires Wf(c, a) && Wf(c, b) && Lagging(a, b)
    ensures LaggingResult(Run(c, a, rows), Run(c, b, rows))
    decreases |rows|
  {
    if rows != [] {
      LaggingStep(c, a, b, rows[0]);
      match Step(c, a, rows[0])
      case Failed(_) =>
      case Ok(a') => LaggingRun(c, a', Step(c, b, rows[0]).value, rows[1..]);
    }
  }

  /**
   * A Fast Read transaction consumes exactly one more sample than a Read
   * Data transaction before its first data byte: after the address, a Fast
   * Read given a dummy sample and then `rows` ends with the same images,
   * counters and offset, or the same failure, as a Read Data given `rows`.
   */
  lemma FastReadLagsRead(c: Config, s: State, dummy: Row, rows: seq<Row>)
    requires Wf(c, s) && s.command == FAST_READ && s.dummyFastRead
    requires ReadsEnabled(c.filter) && s.currAddrByte == c.addrLen
    requires IsDigits(dummy.id) && !Opens(s, dummy)
    ensures var fast, plain := Run(c, s, [dummy] + rows), Run(c, s.(command := READ_DATA), rows);
      (fast.Failed? <==> plain.Failed?) &&
      (fast.Failed? ==> fast.fault == plain.fault) &&
      (fast.Ok? ==> SameImages(fast.value, plain.value) && fast.value.offset == plain.value.offset)
  {
    var a := s.(dummyFastRead := false);
    FastReadDummySample(c, s, dummy);
    assert ([dummy] + rows)[1..] == rows;
    assert Run(c, s, [dummy] + rows) == Run(c, a, rows);
    LaggingRun(c, a, s.(command := READ_DATA), rows);
  }

  // ---------------------------------------------------------------------------
  // Read JEDEC ID and Release Power-Down / Device ID

  /** The MISO bytes of `rows`. */
  function Misos(rows: seq<Row>): (bytes: seq<Byte>)
    ensures |bytes| == |rows| && forall i :: 0 <= i < |rows| ==> bytes[i] == rows[i].miso
  {
    seq(|rows|, i requires 0 <= i < |rows| => rows[i].miso)
  }

  /** A Read JEDEC ID sample with room left stores its MISO byte at `currByte`. */
  lemma JedecSampleStores(c: Config, s: State, row: Row)
    requires Wf(c, s) && s.command == READ_JEDEC_ID && !Opens(s, row) && IsDigits(row.id)
    requires s.currByte <= 3
    ensures Step(c, s, row) ==
      Ok(s.(jedecId := s.jedecId[s.currByte := row.miso], currByte := s.currByte + 1))
  {
  }

  /**
   * Read JEDEC ID (0x9F): the MISO bytes of the samples after the opcode fill
   * `jedecId` from index 0 on, four of them at most; later samples of the
   * transaction change nothing.
   */
  lemma {:induction false} JedecCaptured(c: Config, s: State, rows: seq<Row>)
    requires Wf(c, s) && s.command == READ_JEDEC_ID && WithinTransaction(s, rows)
    requires forall i :: 0 <= i < |rows| ==> IsDigits(rows[i].id)
    requires s.currByte + |rows| <= 4
    ensures Run(c, s, rows).Ok?
    ensures var t := Run(c, s, rows).value;
      t.jedecId == s.jedecId[..s.currByte] + Misos(rows) + s.jedecId[s.currByte + |rows|..] &&
      t.currByte == s.currByte + |rows| &&
      t.flash == s.flash && t.writes == s.writes && t.mapping == s.mapping
    decreases |rows|
  {
    if rows == [] {
      assert s.jedecId == s.jedecId[..s.currByte] + [] + s.jedecId[s.currByte..];
    } else {
      JedecSampleStores(c, s, rows[0]);
      var t := s.(jedecId := s.jedecId[s.currByte := rows[0].miso], currByte := s.currByte + 1);
      assert Run(c, s, rows) == Run(c, t, rows[1..]);
      assert WithinTransaction(t, rows[1..]) by {
        forall i | 0 <= i < |rows[1..]| ensures !Opens(t, rows[1..][i]) {
          assert rows[1..][i] == rows[i + 1];
        }
      }
      JedecCaptured(c, t, rows[1..]);
      assert Misos(rows) == [rows[0].miso] + Misos(rows[1..]);
      SpliceOne(s.jedecId, s.currByte, rows[0].miso, Misos(rows[1..]));
    }
  }

  /** Writing `b` at `k` and then `m` after it is writing `[b] + m` at `k`. */
  lemma SpliceOne(js: seq<Byte>, k: nat, b: Byte, m: seq<Byte>)
    requires k + 1 + |m| <= |js|
    ensures js[k := b][..k + 1] + m + js[k := b][k + 1 + |m|..] == js[..k] + ([b] + m) + js[k + 1 + |m|..]
  {
    assert js[k := b][..k + 1] == js[..k] + [b];
    assert js[k := b][k + 1 + |m|..] == js[k + 1 + |m|..];
  }

  /** Once four JEDEC id bytes are in, the rest of the transaction changes nothing. */
  lemma JedecFull(c: Config, s: State, row: Row)
    requires Wf(c, s) && s.command == READ_JEDEC_ID && !Opens(s, row) && s.currByte > 3
    ensures Step(c, s, row) == Ok(s)
  {
  }

  /**
   * Release Power-Down / Device ID (0xAB): while fewer than three dummy
   * samples have passed, the samples of the transaction only count dummy
   * samples, so a transaction with fewer than four samples after the opcode
   * reports no device id.
   */
  lemma {:induction false} NoDeviceIdBeforeFourthSample(c: Config, s: State, rows: seq<Row>)
    requires Wf(c, s) && s.command == RELEASE_POWER_DOWN && WithinTransaction(s, rows)
    requires s.dummyRpd + |rows| <= 3
    ensures Run(c, s, rows).Ok?
    ensures var t := Run(c, s, rows).value;
      t.deviceId == s.deviceId && SameImages(s, t) && t.dummyRpd <= 3
    decreases |rows|
  {
    if rows != [] {
      assert !Opens(s, rows[0]);
      var t := Step(c, s, rows[0]).value;
      assert t == s || t == s.(dummyRpd := s.dummyRpd + 1);
      assert WithinTransaction(t, rows[1..]) by {
        forall i | 0 <= i < |rows[1..]| ensures !Opens(t, rows[1..][i]) {
          assert rows[1..][i] == rows[i + 1];
        }
      }
      NoDeviceIdBeforeFourthSample(c, t, rows[1..]);
    }
  }

  /** After three dummy samples, every further sample's MISO byte becomes the device id. */
  lemma DeviceIdAfterThreeDummies(c: Config, s: State, row: Row)
    requires Wf(c, s) && s.command == RELEASE_POWER_DOWN && IsDigits(row.id) && !Opens(s, row)
    ensures s.dummyRpd == 3 ==> Step(c, s, row) == Ok(s.(deviceId := row.miso))
    ensures s.dummyRpd != 3 ==> Step(c, s, row) == Ok(s.(dummyRpd := s.dummyRpd + 1))
  {
  }
}
