/** A small capture replayed end to end. */
module Scenario {
  import opened Bytes
  import opened Address
  import opened Capture
  import Catalog
  import opened Replay
  import opened ReplayFacts
  import Trim

  /** 32 cells, three address bytes sent high byte first, reads and writes replayed. */
  function ExampleConfig(): Config { Config(3, Msb, ReadsAndWrites, 32) }

  /** A header row, then transaction 0: Read JEDEC ID answered with 0x11 0x22 0x33. */
  function IdentifyRows(): seq<Row>
  {
    [Row("Time [s]", "Packet ID", 0, 0),
     Row("0.10", "0", 0x9F, 0xFF), Row("0.11", "0", 0, 0x11), Row("0.12", "0", 0, 0x22),
     Row("0.13", "0", 0, 0x33)]
  }

  /** Transaction 1: Read Data of address 0x000010 answered with 0xAA 0xBB. */
  function ReadRows(): seq<Row>
  {
    [Row("0.20", "1", 0x03, 0xFF), Row("0.21", "1", 0x00, 0xFF), Row("0.22", "1", 0x00, 0xFF),
     Row("0.23", "1", 0x10, 0xFF), Row("0.24", "1", 0x00, 0xAA), Row("0.25", "1", 0x00, 0xBB)]
  }

  lemma IdentifyPhase()
    ensures var c := ExampleConfig();
      var r := Run(c, Initial(c), IdentifyRows());
      r.Ok? && r.value.packetId == 0 && r.value.jedecId[..3] == [0x11, 0x22, 0x33] &&
      r.value.flash == Initial(c).flash && r.value.mapping == Initial(c).mapping &&
      r.value.bytesSniffed == 0 && r.value.bytesWritten == 0
  {
    var c, rows := ExampleConfig(), IdentifyRows();
    var s0 := Initial(c);
    assert !IsDigits(rows[0].id) by { assert !('0' <= rows[0].id[0] <= '9'); }
    assert Step(c, s0, rows[0]) == Ok(s0);
    assert DecimalValue("0") == 0;
    assert READ_JEDEC_ID in Catalog.Commands;
    var s1 := Step(c, s0, rows[1]).value;
    assert s1.command == READ_JEDEC_ID && s1.currByte == 0 && s1.packetId == 0;
    assert Run(c, s0, rows) == Run(c, s1, rows[2..]);
    JedecCaptured(c, s1, rows[2..]);
    assert Misos(rows[2..]) == [0x11, 0x22, 0x33];
  }

  lemma ReadPhase(s: State)
    requires Wf(ExampleConfig(), s) && s.packetId == 0
    requires s.flash[0x10] == FILL && s.flash[0x11] == FILL
    requires s.mapping[0x10] == Untouched && s.mapping[0x11] == Untouched
    ensures var r := Run(ExampleConfig(), s, ReadRows());
      r.Ok? && r.value.flash[0x10] == 0xAA && r.value.flash[0x11] == 0xBB &&
      r.value.mapping[0x10] == Read && r.value.mapping[0x11] == Read &&
      r.value.bytesSniffed == s.bytesSniffed + 2 && r.value.bytesWritten == s.bytesWritten
  {
    var c, rows := ExampleConfig(), ReadRows();
    assert DecimalValue("1") == 1;
    assert READ_DATA in Catalog.Commands;
    var s1 := Step(c, s, rows[0]).value;
    assert s1.command == READ_DATA && s1.packetId == 1 && s1.currAddrByte == 0 && s1.offset == 0;
    var s2 := Step(c, s1, rows[1]).value;
    var s3 := Step(c, s2, rows[2]).value;
    var s4 := Step(c, s3, rows[3]).value;
    assert s4.addressBytes == [0, 0, 0x10] && s4.currAddrByte == 3;
    assert DecodeAddress(s4.addressBytes, Msb) == Some(0x10);
    var s5 := Step(c, s4, rows[4]).value;
    assert s5.flash[0x10] == 0xAA && s5.offset == 1 && s5.bytesSniffed == s.bytesSniffed + 1;
    var s6 := Step(c, s5, rows[5]).value;
    assert Run(c, s5, rows[5..]) == Ok(s6);
    assert Run(c, s4, rows[4..]) == Ok(s6);
    assert Run(c, s3, rows[3..]) == Ok(s6);
    assert Run(c, s2, rows[2..]) == Ok(s6);
    assert Run(c, s1, rows[1..]) == Ok(s6);
  }

  /**
   * A header row, a Read JEDEC ID answered with 0x11 0x22 0x33 and a Read
   * Data of address 0x000010 answered with 0xAA 0xBB give the JEDEC id
   * 0x11 0x22 0x33, store 0xAA and 0xBB at 0x10 and 0x11, mark both cells
   * read and count two discovered bytes.
   */
  lemma ExampleReplay()
    ensures var c := ExampleConfig();
      var r := Run(c, Initial(c), IdentifyRows() + ReadRows());
      r.Ok? && r.value.jedecId[..3] == [0x11, 0x22, 0x33] &&
      r.value.flash[0x10] == 0xAA && r.value.flash[0x11] == 0xBB &&
      r.value.mapping[0x10] == Read && r.value.mapping[0x11] == Read &&
      r.value.bytesSniffed == 2 && r.value.bytesWritten == 0
  {
    var c := ExampleConfig();
    IdentifyPhase();
    RunConcat(c, Initial(c), IdentifyRows(), ReadRows());
    var s := Run(c, Initial(c), IdentifyRows()).value;
    ReadPhase(s);
    var t := Run(c, s, ReadRows()).value;
    assert t.jedecId == s.jedecId;
  }

  /**
   * A capture that only identifies the chip leaves the image from all
   * sources as fill bytes, so it trims to nothing and the script never
   * reaches its summary.
   */
  lemma IdentifyOnlyTrimsToNothing()
    ensures var c := ExampleConfig();
      var r := Run(c, Initial(c), IdentifyRows());
      r.Ok? && Trim.TrimLength(r.value.flash) == 0
  {
    var c := ExampleConfig();
    IdentifyPhase();
    Trim.AllFillTrimsToZero(Initial(c).flash);
  }
}
