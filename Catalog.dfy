/**
 * The opcode catalog (`commands`) with its per-opcode instance counters
 * (`command_stats`), and the selection of counters the summary table shows.
 */
module Catalog {
  import opened Bytes

  /** The description of `op` in the catalog (`commands`), or `None` when it is not catalogued. */
  function Description(op: Byte): Option<string>
  {
    match op
    case 0x00 => Some("No Operation")
    case 0x01 => Some("Write Status Register 1")
    case 0x02 => Some("Page Program")
    case 0x03 => Some("Read Data")
    case 0x04 => Some("Write Disable")
    case 0x05 => Some("Read Status Register 1")
    case 0x06 => Some("Write Enable")
    case 0x07 => Some("Read Status Register 2")
    case 0x0B => Some("Fast Read Data")
    case 0x0C => Some("Fast Read Data (4-byte address)")
    case 0x11 => Some("Write Status Register 3")
    case 0x12 => Some("Page Program (4-byte address)")
    case 0x13 => Some("Read Data (4-byte address)")
    case 0x14 => Some("AutoBoot Register Read")
    case 0x15 => Some("AutoBoot Register Write")
    case 0x16 => Some("Bank Register Read")
    case 0x17 => Some("Bank Register Write")
    case 0x20 => Some("Sector Erase (4K)")
    case 0x2B => Some("Read Security Register")
    case 0x2F => Some("Program Security Register")
    case 0x32 => Some("Page Program (Quad I/O)")
    case 0x33 => Some("Read Status Register 3")
    case 0x34 => Some("Page Program (Quad I/O, 4-byte address)")
    case 0x35 => Some("Enter QPI Mode")
    case 0x38 => Some("Page Program (Quad I/O)")
    case 0x52 => Some("Block Erase (32KB)")
    case 0x42 => Some("Program Security Register / One Time Program (OTP) array")
    case 0x48 => Some("Read Security Register")
    case 0x4B => Some("Read Unique ID / One Time Program (OTP) Array")
    case 0x50 => Some("Write Enable for Volatile Status Register")
    case 0x5A => Some("Read Serial Flash Discoverable Parameters (SFDP) Register")
    case 0x60 => Some("Chip Erase")
    case 0x66 => Some("Enable Reset")
    case 0x68 => Some("Write Protect Selection")
    case 0xC7 => Some("Chip Erase")
    case 0xD8 => Some("Block Erase (64KB)")
    case 0x90 => Some("Read Manufacturer ID / Device ID")
    case 0x92 => Some("Read Manufacturer ID / Device ID (Dual I/O)")
    case 0x94 => Some("Read Manufacturer ID / Device ID (Quad I/O)")
    case 0x99 => Some("Reset Device")
    case 0x9F => Some("Read JEDEC ID")
    case 0xAB => Some("Release Power-Down / Device ID")
    case 0xB9 => Some("Power Down")
    case 0xE0 => Some("Read Dynamic Protection Bit (DYB)")
    case 0xE1 => Some("Write Dynamic Protection Bit (DYB)")
    case 0xE2 => Some("Read Persistent Protection Bit (PPB)")
    case 0xE3 => Some("Program Persistent Protection Bit (PPB)")
    case 0xE4 => Some("Erase Persistent Protection Bit (PPB)")
    case 0xE7 => Some("Password Read")
    case 0xE8 => Some("Password Program")
    case 0xE9 => Some("Password Unlock")
    case _ => None
  }

  /** The catalog as a map: every opcode the decoder recognises, with its description. */
  const Commands: map<Byte, string> := map op: Byte | Description(op).Some? :: Description(op).value

  /** The initial `command_stats`: one zero counter per catalogued opcode. */
  function ZeroStats(): (stats: map<Byte, nat>)
    ensures stats.Keys == Commands.Keys
    ensures forall op :: op in stats ==> stats[op] == 0
  {
    map op | op in Commands :: 0
  }

  /** One line of the summary table. */
  datatype SummaryRow = Known(op: Byte, count: nat, description: string) | Unknown(count: nat)

  /** The table rows for the catalogued opcodes `from`..0xFF whose counter is positive, in opcode order. */
  function KnownRows(stats: map<Byte, nat>, from: nat): (rows: seq<SummaryRow>)
    decreases 256 - from
  {
    if from >= 256 then []
    else
      var rest := KnownRows(stats, from + 1);
      if from in Commands && from in stats && stats[from] > 0
      then [Known(from, stats[from], Commands[from])] + rest
      else rest
  }

  /** The summary table: the catalogued opcodes seen at least once, then an unknown-opcode line when there were any. */
  function Summary(stats: map<Byte, nat>, unknown: nat): seq<SummaryRow>
  {
    KnownRows(stats, 0) + (if unknown > 0 then [Unknown(unknown)] else [])
  }

  lemma {:induction false} KnownRowsExact(stats: map<Byte, nat>, from: nat, row: SummaryRow)
    ensures row in KnownRows(stats, from) <==>
      row.Known? && from <= row.op && row.op in Commands && row.op in stats && row.count == stats[row.op] > 0 &&
      row.description == Commands[row.op]
    decreases 256 - from
  {
    if from < 256 {
      KnownRowsExact(stats, from + 1, row);
    }
  }

  /**
   * The table lists exactly the catalogued opcodes whose counter is positive,
   * each with its own count and description, and an unknown-opcode line
   * exactly when unknown opcodes were seen.
   */
  lemma SummaryRowsExact(stats: map<Byte, nat>, unknown: nat, row: SummaryRow)
    ensures row in Summary(stats, unknown) <==>
      (row.Known? && row.op in Commands && row.op in stats && row.count == stats[row.op] > 0 &&
       row.description == Commands[row.op]) ||
      (row == Unknown(unknown) && unknown > 0)
  {
    KnownRowsExact(stats, 0, row);
  }
}
