/**
 * The replay loop as the script runs it: globals updated in place, image
 * buffers and small byte arrays mutated cell by cell. Every method is proved
 * against the functions of module Replay.
 */
module Sniffer {
  import opened Bytes
  import opened Address
  import opened Capture
  import Catalog
  import opened Replay
  import Trim

  /** The result `fault` reports when the new state is `s`. */
  function Outcome(fault: Option<Fault>, s: State): Result<State>
  {
    match fault
    case None => Ok(s)
    case Some(f) => Failed(f)
  }

  /** The script's globals for one run over a capture. */
  class Rebuilder {
    const config: Config
    const addressBytes: array<Byte>
    const flash: array<Byte>
    const writes: array<Byte>
    const mapping: array<Access>
    const jedecId: array<Byte>
    var packetId: int
    var command: Byte
    var currByte: nat
    var currAddrByte: nat
    var offset: nat
    var dummyFastRead: bool
    var dummyRpd: nat
    var deviceId: Byte
    var bytesSniffed: nat
    var bytesWritten: nat
    var unknownCommands: nat
    var commandStats: map<Byte, nat>

    ghost predicate Valid()
      reads this, addressBytes, flash, writes, mapping, jedecId
    {
      addressBytes != flash && addressBytes != writes && addressBytes != jedecId &&
      flash != writes && flash != jedecId && writes != jedecId &&
      Wf(config, Model())
    }

    /** The loop state the fields and arrays hold. */
    ghost function Model(): State
      reads this, addressBytes, flash, writes, mapping, jedecId
    {
      State(packetId, command, currByte, currAddrByte, offset, dummyFastRead, dummyRpd,
            addressBytes[..], flash[..], writes[..], mapping[..], jedecId[..], deviceId,
            bytesSniffed, bytesWritten, unknownCommands, commandStats)
    }

    /** The module-level initialisation: fill-byte images, zero counters. */
    constructor (c: Config)
      requires ValidConfig(c)
      ensures Valid() && config == c && Model() == Initial(c)
      ensures fresh(addressBytes) && fresh(flash) && fresh(writes) && fresh(mapping) && fresh(jedecId)
    {
      config := c;
      addressBytes := new Byte[c.addrLen](_ => 0);
      flash := new Byte[c.capacity](_ => FILL);
      writes := new Byte[c.capacity](_ => FILL);
      mapping := new Access[c.capacity](_ => Untouched);
      jedecId := new Byte[5](_ => 0);
      packetId, command, currByte, currAddrByte, offset := -1, NO_OPERATION, 0, 0, 0;
      dummyFastRead, dummyRpd, deviceId := true, 0, 0;
      bytesSniffed, bytesWritten, unknownCommands := 0, 0, 0;
      commandStats := Catalog.ZeroStats();
      new;
      assert addressBytes[..] == seq(c.addrLen, _ => 0);
      assert flash[..] == seq(c.capacity, _ => FILL);
      assert writes[..] == seq(c.capacity, _ => FILL);
      assert mapping[..] == seq(c.capacity, _ => Untouched);
      assert jedecId[..] == seq(5, _ => 0);
    }

    /** Start transaction `id` with opcode `op`. */
    method Open(id: int, op: Byte)
      requires Valid()
      modifies this
      ensures Valid() && Model() == Replay.Open(old(Model()), id, op)
    {
      packetId := id;
      currByte, currAddrByte, offset := 0, 0, 0;
      dummyFastRead, dummyRpd := true, 0;
      if op !in Catalog.Commands {
        unknownCommands := unknownCommands + 1;
        command := NO_OPERATION;
      } else {
        command := op;
        commandStats := commandStats[op := commandStats[op] + 1];
      }
    }

    method CollectAddressByte(b: Byte)
      requires Valid() && currAddrByte < config.addrLen
      modifies this`currAddrByte, addressBytes
      ensures Valid() && Model() == Replay.CollectAddressByte(config, old(Model()), b)
    {
      addressBytes[currAddrByte] := b;
      currAddrByte := currAddrByte + 1;
    }

    /** Store a byte read from the device at `address + offset`. */
    method StoreRead(value: Byte) returns (fault: Option<Fault>)
      requires Valid()
      modifies this`bytesSniffed, this`offset, flash, mapping
      ensures Valid()
      ensures Replay.StoreRead(config, old(Model()), value) == Outcome(fault, Model())
      ensures fault.Some? ==> Model() == old(Model())
    {
      var address := DecodeAddress(addressBytes[..], config.endian);
      if address.None? {
        return Some(AddressTooShort);
      }
      var i := address.value + offset;
      if i >= flash.Length {
        return Some(CapacityExceeded(i));
      }
      if flash[i] == FILL {
        bytesSniffed := bytesSniffed + 1;
      }
      flash[i] := value;
      if mapping[i] != Written {
        mapping[i] := Read;
      }
      offset := offset + 1;
      fault := None;
    }

    /** Store a byte programmed into the device at `address + offset`. */
    method StoreWrite(value: Byte) returns (fault: Option<Fault>)
      requires Valid()
      modifies this`bytesSniffed, this`bytesWritten, this`offset, flash, writes, mapping
      ensures Valid()
      ensures Replay.StoreWrite(config, old(Model()), value) == Outcome(fault, Model())
      ensures fault.Some? ==> Model() == old(Model())
    {
      var address := DecodeAddress(addressBytes[..], config.endian);
      if address.None? {
        return Some(AddressTooShort);
      }
      var i := address.value + offset;
      if i >= flash.Length {
        return Some(CapacityExceeded(i));
      }
      if flash[i] == FILL {
        bytesSniffed := bytesSniffed + 1;
      }
      writes[i] := value;
      flash[i] := value;
      bytesWritten := bytesWritten + 1;
      mapping[i] := Written;
      offset := offset + 1;
      fault := None;
    }

    /** One pass of the loop body. */
    method Step(row: Row) returns (fault: Option<Fault>)
      requires Valid()
      modifies this, addressBytes, flash, writes, mapping, jedecId
      ensures Valid()
      ensures Replay.Step(config, old(Model()), row) == Outcome(fault, Model())
      ensures fault.Some? ==> Model() == old(Model())
    {
      fault := None;
      if !IsDigits(row.id) {
        return;
      }
      var id := DecimalValue(row.id);
      if id > packetId {
        Open(id, row.mosi);
      } else if command == READ_DATA {
        if ReadsEnabled(config.filter) {
          if currAddrByte == config.addrLen {
            fault := StoreRead(row.miso);
          } else {
            CollectAddressByte(row.mosi);
          }
        }
      } else if command == FAST_READ {
        if ReadsEnabled(config.filter) {
          if currAddrByte == config.addrLen {
            if dummyFastRead {
              dummyFastRead := false;
            } else {
              fault := StoreRead(row.miso);
            }
          } else {
            CollectAddressByte(row.mosi);
          }
        }
      } else if command == PAGE_PROGRAM {
        if WritesEnabled(config.filter) {
          if currAddrByte == config.addrLen {
            fault := StoreWrite(row.mosi);
          } else {
            CollectAddressByte(row.mosi);
          }
        }
      } else if command == RELEASE_POWER_DOWN {
        if dummyRpd == 3 {
          deviceId := row.miso;
        } else {
          dummyRpd := dummyRpd + 1;
        }
      } else if command == READ_JEDEC_ID {
        if currByte <= 3 {
          jedecId[currByte] := row.miso;
          currByte := currByte + 1;
        }
      }
    }

    /** The `for packet in packets` loop; an `IndexError` ends it. */
    method Parse(rows: seq<Row>) returns (fault: Option<Fault>)
      requires Valid()
      modifies this, addressBytes, flash, writes, mapping, jedecId
      ensures Valid()
      ensures Run(config, old(Model()), rows) == Outcome(fault, Model())
    {
      var k := 0;
      while k < |rows|
        invariant k <= |rows| && Valid()
        invariant Run(config, old(Model()), rows) == Run(config, Model(), rows[k..])
      {
        assert rows[k..][0] == rows[k] && rows[k..][1..] == rows[k + 1..];
        fault := Step(rows[k]);
        if fault.Some? {
          return;
        }
        k := k + 1;
      }
      fault := None;
    }

    /** The two images cut after their last byte that is not the fill byte. */
    method TrimmedImages() returns (image: seq<Byte>, writesImage: seq<Byte>)
      requires Valid()
      ensures image == flash[..Trim.TrimLength(flash[..])]
      ensures writesImage == writes[..Trim.TrimLength(writes[..])]
    {
      var n := Trim.TrimmedLength(flash);
      var w := Trim.TrimmedLength(writes);
      image, writesImage := flash[..n], writes[..w];
    }
  }

  /**
   * What a run leaves for the output files and the summary. The summary is
   * `None` when the script never reaches it: the percentage line divides by
   * the trimmed length of the image from all sources, so an image of only
   * fill bytes ends the script with a division by zero after both files
   * are written.
   */
  datatype Report =
    | Rebuilt(image: seq<Byte>, writesImage: seq<Byte>, mapping: seq<Access>,
              bytesSniffed: nat, bytesWritten: nat, jedecId: seq<Byte>, deviceId: Byte,
              summary: Option<seq<Catalog.SummaryRow>>)
    | Crashed(fault: Fault)

  /**
   * The whole script minus its I/O: replay the capture into fresh buffers,
   * then trim both images and select the summary rows.
   */
  method Rebuild(c: Config, rows: seq<Row>) returns (report: Report)
    requires ValidConfig(c)
    ensures match Run(c, Initial(c), rows)
      case Failed(f) => report == Crashed(f)
      case Ok(s) =>
        report.Rebuilt? &&
        report.image == s.flash[..Trim.TrimLength(s.flash)] &&
        report.writesImage == s.writes[..Trim.TrimLength(s.writes)] &&
        report.mapping == s.mapping &&
        report.bytesSniffed == s.bytesSniffed && report.bytesWritten == s.bytesWritten &&
        report.jedecId == s.jedecId && report.deviceId == s.deviceId &&
        (report.summary.None? <==> Trim.TrimLength(s.flash) == 0) &&
        (report.summary.Some? ==>
          report.summary.value == Catalog.Summary(s.commandStats, s.unknownCommands))
  {
    var r := new Rebuilder(c);
    var fault := r.Parse(rows);
    if fault.Some? {
      return Crashed(fault.value);
    }
    var image, writesImage := r.TrimmedImages();
    report := Rebuilt(image, writesImage, r.mapping[..], r.bytesSniffed, r.bytesWritten,
                      r.jedecId[..], r.deviceId,
                      if |image| == 0 then None
                      else Some(Catalog.Summary(r.commandStats, r.unknownCommands)));
  }
}
