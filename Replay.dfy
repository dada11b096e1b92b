/**
 * The capture-replay loop as a function of its state: one call of `Step` is
 * one pass of the `for packet in packets` loop body, `Run` is the whole loop.
 * `State` holds every variable the loop body reads or writes.
 */
module Replay {
  import opened Bytes
  import opened Address
  import opened Capture
  import Catalog

  /** The `--filter` option: `r`, `w` or `rw`. */
  datatype Filter = ReadsOnly | WritesOnly | ReadsAndWrites

  predicate ReadsEnabled(f: Filter) { f == ReadsOnly || f == ReadsAndWrites }
  predicate WritesEnabled(f: Filter) { f == WritesOnly || f == ReadsAndWrites }

  /**
   * The options fixed for a run: `--addrlen`, `--endian`, `--filter`, and the
   * size of the three image buffers (`FLASH_PADDED_SIZE`).
   */
  datatype Config = Config(addrLen: nat, endian: Endian, filter: Filter, capacity: nat)

  /** `--addrlen` only accepts 2, 3 or 4. */
  predicate ValidConfig(c: Config) { 2 <= c.addrLen <= 4 }

  /** A cell of `mapping_image`: 0 never accessed, 1 read, 2 written. */
  datatype Access = Untouched | Read | Written

  const NO_OPERATION: Byte := 0x00
  const PAGE_PROGRAM: Byte := 0x02
  const READ_DATA: Byte := 0x03
  const FAST_READ: Byte := 0x0B
  const READ_JEDEC_ID: Byte := 0x9F
  const RELEASE_POWER_DOWN: Byte := 0xAB

  /** The variables of the replay loop. */
  datatype State = State(
    packetId: int,                  // id of the current transaction
    command: Byte,                  // its opcode, or NO_OPERATION when unknown
    currByte: nat,                  // JEDEC id bytes received so far
    currAddrByte: nat,              // address bytes received so far
    offset: nat,                    // data bytes stored so far
    dummyFastRead: bool,            // Fast Read dummy sample still expected
    dummyRpd: nat,                  // 0xAB dummy samples seen
    addressBytes: seq<Byte>,
    flash: seq<Byte>,               // image from reads and writes
    writes: seq<Byte>,              // image from writes only
    mapping: seq<Access>,
    jedecId: seq<Byte>,
    deviceId: Byte,
    bytesSniffed: nat,
    bytesWritten: nat,
    unknownCommands: nat,
    commandStats: map<Byte, nat>)

  /** Why the script stops with an `IndexError`. */
  datatype Fault =
    | AddressTooShort               // `address_bytes[2]` with `--addrlen 2`
    | CapacityExceeded(index: nat)  // `address + offset` past the image buffers

  datatype Result<T> = Ok(value: T) | Failed(fault: Fault)

  /** The shape every reachable state has. */
  predicate Wf(c: Config, s: State)
  {
    ValidConfig(c) &&
    |s.addressBytes| == c.addrLen && s.currAddrByte <= c.addrLen &&
    |s.flash| == c.capacity && |s.writes| == c.capacity && |s.mapping| == c.capacity &&
    |s.jedecId| == 5 && s.commandStats.Keys == Catalog.Commands.Keys
  }

  /** The state before the first row. */
  function Initial(c: Config): (s: State)
    requires ValidConfig(c)
    ensures Wf(c, s)
  {
    State(-1, NO_OPERATION, 0, 0, 0, true, 0, seq(c.addrLen, _ => 0),
          seq(c.capacity, _ => FILL), seq(c.capacity, _ => FILL), seq(c.capacity, _ => Untouched),
          seq(5, _ => 0), 0, 0, 0, 0, Catalog.ZeroStats())
  }

  /** A row with a larger packet id starts transaction `id` with opcode `op`. */
  function Open(s: State, id: int, op: Byte): State
    requires s.commandStats.Keys == Catalog.Commands.Keys
  {
    var t := s.(packetId := id, currByte := 0, currAddrByte := 0, offset := 0,
                dummyFastRead := true, dummyRpd := 0);
    if op !in Catalog.Commands then
      t.(command := NO_OPERATION, unknownCommands := s.unknownCommands + 1)
    else
      t.(command := op, commandStats := s.commandStats[op := s.commandStats[op] + 1])
  }

  /** An address-phase sample of a read or program transaction. */
  function CollectAddressByte(c: Config, s: State, b: Byte): State
    requires Wf(c, s) && s.currAddrByte < c.addrLen
  {
    s.(addressBytes := s.addressBytes[s.currAddrByte := b], currAddrByte := s.currAddrByte + 1)
  }

  /** `address + offset`: the cell the next data byte of the transaction goes to. */
  function Target(c: Config, s: State): (r: Result<nat>)
    ensures r.Ok? ==> r.value < c.capacity
  {
    match DecodeAddress(s.addressBytes, c.endian)
    case None => Failed(AddressTooShort)
    case Some(address) =>
      if address + s.offset < c.capacity then Ok(address + s.offset)
      else Failed(CapacityExceeded(address + s.offset))
  }

  /** A data sample of Read or Fast Read: the MISO byte goes into the image from all sources. */
  function StoreRead(c: Config, s: State, value: Byte): Result<State>
    requires Wf(c, s)
  {
    match Target(c, s)
    case Failed(f) => Failed(f)
    case Ok(i) =>
      Ok(s.(bytesSniffed := if s.flash[i] == FILL then s.bytesSniffed + 1 else s.bytesSniffed,
            flash := s.flash[i := value],
            mapping := if s.mapping[i] != Written then s.mapping[i := Read] else s.mapping,
            offset := s.offset + 1))
  }

  /** A data sample of Page Program: the MOSI byte goes into both images. */
  function StoreWrite(c: Config, s: State, value: Byte): Result<State>
    requires Wf(c, s)
  {
    match Target(c, s)
    case Failed(f) => Failed(f)
    case Ok(i) =>
      Ok(s.(bytesSniffed := if s.flash[i] == FILL then s.bytesSniffed + 1 else s.bytesSniffed,
            writes := s.writes[i := value],
            flash := s.flash[i := value],
            bytesWritten := s.bytesWritten + 1,
            mapping := s.mapping[i := Written],
            offset := s.offset + 1))
  }

  /** A later sample of a Read Data (0x03) transaction. */
  function ReadSample(c: Config, s: State, row: Row): Result<State>
    requires Wf(c, s)
  {
    if !ReadsEnabled(c.filter) then Ok(s)
    else if s.currAddrByte == c.addrLen then StoreRead(c, s, row.miso)
    else Ok(CollectAddressByte(c, s, row.mosi))
  }

  /** A later sample of a Fast Read (0x0B) transaction: one dummy sample follows the address. */
  function FastReadSample(c: Config, s: State, row: Row): Result<State>
    requires Wf(c, s)
  {
    if !ReadsEnabled(c.filter) then Ok(s)
    else if s.currAddrByte == c.addrLen then
      if s.dummyFastRead then Ok(s.(dummyFastRead := false)) else StoreRead(c, s, row.miso)
    else Ok(CollectAddressByte(c, s, row.mosi))
  }

  /** A later sample of a Page Program (0x02) transaction. */
  function ProgramSample(c: Config, s: State, row: Row): Result<State>
    requires Wf(c, s)
  {
    if !WritesEnabled(c.filter) then Ok(s)
    else if s.currAddrByte == c.addrLen then StoreWrite(c, s, row.mosi)
    else Ok(CollectAddressByte(c, s, row.mosi))
  }

  /** A later sample of Release Power-Down / Device ID (0xAB). */
  function PowerDownSample(s: State, b: Byte): State
  {
    if s.dummyRpd == 3 then s.(deviceId := b) else s.(dummyRpd := s.dummyRpd + 1)
  }

  /** A later sample of Read JEDEC ID (0x9F). */
  function JedecSample(s: State, b: Byte): State
    requires |s.jedecId| == 5
  {
    if s.currByte <= 3 then s.(jedecId := s.jedecId[s.currByte := b], currByte := s.currByte + 1)
    else s
  }

  /** `row` starts a new transaction: its packet id is a number larger than the current one. */
  predicate Opens(s: State, row: Row)
  {
    IsDigits(row.id) && DecimalValue(row.id) > s.packetId
  }

  /** One pass of the loop body over `row`. */
  function Step(c: Config, s: State, row: Row): (r: Result<State>)
    requires Wf(c, s)
    ensures r.Ok? ==> Wf(c, r.value)
  {
    if !IsDigits(row.id) then Ok(s)
    else if Opens(s, row) then Ok(Open(s, DecimalValue(row.id), row.mosi))
    else if s.command == READ_DATA then ReadSample(c, s, row)
    else if s.command == FAST_READ then FastReadSample(c, s, row)
    else if s.command == PAGE_PROGRAM then ProgramSample(c, s, row)
    else if s.command == RELEASE_POWER_DOWN then Ok(PowerDownSample(s, row.miso))
    else if s.command == READ_JEDEC_ID then Ok(JedecSample(s, row.miso))
    else Ok(s)
  }

  /** The whole loop; the first `IndexError` ends the run. */
  function Run(c: Config, s: State, rows: seq<Row>): (r: Result<State>)
    requires Wf(c, s)
    ensures r.Ok? ==> Wf(c, r.value)
    decreases |rows|
  {
    if rows == [] then Ok(s)
    else
      match Step(c, s, rows[0])
      case Failed(f) => Failed(f)
      case Ok(t) => Run(c, t, rows[1..])
  }
}
