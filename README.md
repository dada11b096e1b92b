# sniffROM replay core in Dafny

sniffROM rebuilds the contents of an SPI flash chip from a logic-analyser
export of the bus. Each row of the export is one sample: a time, a packet id,
the MOSI byte and the MISO byte. The script groups rows into transactions by
packet id and takes the opcode from the first MOSI byte. It replays Read Data
(0x03), Fast Read (0x0B) and Page Program (0x02) into two images: one built
from all sources and one built from writes only. A third buffer classifies
every cell as untouched, read or written. Read JEDEC ID (0x9F) and Release
Power-Down / Device ID (0xAB) fill in the chip's identifiers. Per-opcode,
unknown-opcode, discovered-byte and written-byte counters are kept. Finally,
trailing fill bytes (0xFF) are trimmed from both images.

Layout:

- `Bytes.dfy`: bytes, the fill value `FILL`, `Option`.
- `Address.dfy`: the address formula, with its inverse and round-trip lemmas.
- `Catalog.dfy`: the opcode catalog, the zeroed per-opcode counters and the
  selection of summary rows.
- `Capture.dfy`: a capture row, and the numeric test and parse of its packet id.
- `Replay.dfy`: the loop as functions. `State` holds every variable of the
  loop. `Step` is one pass of the loop body and `Run` is the whole loop.
- `ReplayFacts.dfy`: what one row, and a run of rows, does. This covers
  transaction opening, opcode counting, each decode branch, and the one-sample
  lag of Fast Read behind Read Data.
- `ReplayInvariants.dfy`: invariants of every reachable state. Counters only
  grow, and a written cell stays written.
- `Scenario.dfy`: a worked capture, replayed end to end.
- `Trim.dfy`: the trim point of an image, and the trimming loop.
- `Sniffer.dfy`: the imperative model. Class `Rebuilder` keeps the script's
  globals in fields and its buffers in arrays. Its `Step` and `Parse` methods
  are proved equal to `Replay.Step` and `Replay.Run`. `Rebuild` is the whole
  script without its I/O.

Behaviour of the code that the model reproduces and makes explicit:

- With `--filter w`, a Read Data or Fast Read transaction does nothing at all.
  Its address bytes are not even collected. Page Program with `--filter r`
  behaves the same way (`ReplayFacts.ReadDataSample`, `ReplayFacts.FastReadPreamble`,
  `ReplayFacts.PageProgramSample`).
- The line that reports the discovered percentage divides by the trimmed
  length of the image from all sources. When that image holds only fill bytes
  (an empty capture, or one with only identification or status commands) the
  script stops there with a division by zero, after writing both output files
  and before the summary. `Sniffer.Rebuild` then reports no summary
  (`Scenario.IdentifyOnlyTrimsToNothing` gives such a capture).
- Only address bytes 0..2 are used. With `--addrlen 4` the fourth byte is
  ignored (`Address.ExtraBytesIgnored`). With `--addrlen 2` the first data
  sample reads `address_bytes[2]` and the script stops with an `IndexError`,
  which is the fault `AddressTooShort`.
- An index `address + offset` beyond the buffers is an `IndexError` in the
  script, which is the fault `CapacityExceeded`. The check happens before
  anything is stored, so the state is left as it was and the run ends
  (`Run` returns `Failed`).
- Read JEDEC ID stores four MISO bytes (`curr_byte <= 3`) into `jedec_id[0..3]`.
- For Release Power-Down / Device ID, every sample after the third dummy
  sample overwrites the device id, not just the fourth one.
- A byte counts as discovered when the image cell held the fill byte before
  the store, whatever the access map says. A repeated read of a cell that
  holds 0xFF is therefore counted again. The invariant
  `ReplayInvariants.Coherent` still shows that every accessed cell was counted
  at least once.

## Model

| member | source | states |
|---|---|---|
| `Address.DecodeAddress` | sniffROM.py:217-220 | msb gives b0·65536 + b1·256 + b2 and lsb gives b2·65536 + b1·256 + b0; the result is below 2^24; fewer than three address bytes give no address |
| `Address.AddressRoundTrip` | sniffROM.py:217-220 | decoding the three bytes sent for any 24-bit address, in either order, gives that address back |
| `Address.BytesRoundTrip` | sniffROM.py:217-220 | three address bytes are recovered from the address they decode to, so decoding is injective |
| `Address.ExtraBytesIgnored` | sniffROM.py:216-220 | with more than three address bytes (`--addrlen 4`) the address depends only on the first three |
| `Catalog.ZeroStats` | sniffROM.py:70-121 | the initial per-opcode counters have one zero entry for exactly the catalogued opcodes |
| `Catalog.SummaryRowsExact` | sniffROM.py:340-344 | the summary lists exactly the catalogued opcodes whose counter is positive, with that count and description, plus an Unknown line exactly when unknown opcodes were seen |
| `Replay.Initial` | sniffROM.py:165-176 | the start state has buffers of the configured size, `addrlen` address bytes, a five-byte JEDEC id and a counter per catalogued opcode |
| `Replay.Target` | sniffROM.py:218-222 | the cell a data byte goes to is always inside the buffers; anything else is a fault |
| `Replay.Step` | sniffROM.py:180-303 | one row keeps the state well formed: buffer sizes, address-byte count at most `addrlen`, counter keys |
| `Replay.Run` | sniffROM.py:178-303 | the whole loop keeps the state well formed |
| `ReplayFacts.RunConcat` | sniffROM.py:178-180 | replaying two captures in a row is replaying their concatenation; a fault in the first ends the run |
| `ReplayFacts.NonNumericRowIgnored` | sniffROM.py:181-181 | a row whose id field is not all digits changes nothing |
| `ReplayFacts.NewTransactionResets` | sniffROM.py:187-199 | a larger packet id records the id, takes the opcode from MOSI (0x00 when unknown), resets offset, address-byte and JEDEC counters, sets the Fast Read dummy flag and clears the 0xAB dummy count, and leaves images and byte counters alone |
| `ReplayFacts.OpcodeCounted` | sniffROM.py:201-208 | an unknown opcode adds exactly 1 to the unknown counter and leaves every opcode counter unchanged; a known one adds 1 to its own counter only |
| `ReplayFacts.PassthroughTransaction` | sniffROM.py:201-299 | the remaining rows of a transaction whose opcode has no decode branch (an unknown one included) change nothing |
| `ReplayFacts.ReadDataSample` | sniffROM.py:212-235 | Read Data: with filter `w` nothing changes; the first `addrlen` samples only collect MOSI address bytes; each later sample stores MISO at address+offset in the all-sources image only, marks the cell read unless written, counts a discovered byte exactly when the cell held 0xFF, and advances offset, changing nothing else; a bad address or index is a fault |
| `ReplayFacts.PageProgramSample` | sniffROM.py:263-286 | Page Program: each data sample stores MOSI at the same cell of both images, marks it written, counts a written byte even on a rewrite, counts a discovered byte exactly when the cell held 0xFF, advances offset and changes nothing else; address samples only collect MOSI bytes; with filter `r` nothing changes |
| `ReplayFacts.FastReadPreamble` | sniffROM.py:236-262 | Fast Read before its data: with filter `w` nothing changes; until the address is complete a sample only collects its MOSI byte; in both cases the result is Read Data's result in the same state, with the command kept |
| `ReplayFacts.FastReadDummySample` | sniffROM.py:236-242 | the first Fast Read sample after the address only clears the dummy flag |
| `ReplayFacts.FastReadLagsRead` | sniffROM.py:236-262 | after the address, a Fast Read given one extra sample ends with the same images, counters and offset, or the same fault, as a Read Data given the rest |
| `ReplayFacts.JedecCaptured` | sniffROM.py:295-299 | the MISO bytes of up to four samples after 0x9F fill `jedec_id` from index 0, leaving the other bytes and the images unchanged |
| `ReplayFacts.JedecFull` | sniffROM.py:297-303 | after four JEDEC bytes, further samples of the transaction change nothing |
| `ReplayFacts.NoDeviceIdBeforeFourthSample` | sniffROM.py:287-294 | while fewer than four samples follow 0xAB, the device id and the images stay as they were |
| `ReplayFacts.DeviceIdAfterThreeDummies` | sniffROM.py:287-294 | after three dummy samples, each further sample's MISO byte becomes the device id; before that a sample only counts a dummy |
| `ReplayInvariants.InitialCoherent` | sniffROM.py:165-173 | the start state is coherent |
| `ReplayInvariants.StoreReadCoherent` | sniffROM.py:222-230 | a read store keeps the state coherent |
| `ReplayInvariants.StoreWriteCoherent` | sniffROM.py:273-282 | a write store keeps the state coherent |
| `ReplayInvariants.StepCoherent` | sniffROM.py:180-303 | every row keeps the state coherent: untouched cells hold 0xFF in both images, unwritten cells hold 0xFF in the writes-only image, discovered bytes at least the accessed cells, written bytes at least the written cells |
| `ReplayInvariants.RunCoherent` | sniffROM.py:178-303 | every state reached by a capture is coherent |
| `ReplayInvariants.StepCounters` | sniffROM.py:201-281 | one row never lowers a counter; the discovered byte count rises by at most one and only on a data sample; the written byte count rises by exactly one on a write data sample and not otherwise |
| `ReplayInvariants.CountersMonotone` | sniffROM.py:171-303 | over a capture every counter only grows; the discovered byte count grows by at most the number of data samples stored, the written byte count by exactly the number of write data samples (rewrites included), and there is at most one data sample per row |
| `ReplayInvariants.StepKeepsWritten` | sniffROM.py:229-282 | one row never downgrades a written cell and changes the writes-only image only at cells it marks written |
| `ReplayInvariants.WrittenSticky` | sniffROM.py:229-282 | over a whole capture a written cell stays written |
| `Scenario.ExampleReplay` | sniffROM.py:178-235 | a header, a 0x9F answered 11 22 33 and a 0x03 of address 0x10 answered AA BB give JEDEC id 11 22 33, AA and BB at 0x10 and 0x11, both cells read, two discovered bytes |
| `Trim.TrimLengthIsTrimPoint` | sniffROM.py:313-317 | the trimmed length n is at most the size, every byte from n on is 0xFF, n is 0 or byte n-1 is not 0xFF, and no other n has these properties |
| `Trim.AllFillTrimsToZero` | sniffROM.py:313-314 | an all-0xFF buffer trims to length 0 |
| `Trim.SingleContentByte` | sniffROM.py:313-314 | a buffer whose only non-0xFF byte is at k trims to k+1 |
| `Trim.TrimmedLength` | sniffROM.py:313-317 | the trimming loop stops at the trim point of the buffer |
| `Sniffer.Rebuilder.constructor` | sniffROM.py:165-176 | fresh buffers whose state is the start state |
| `Sniffer.Rebuilder.Open` | sniffROM.py:187-208 | opening a transaction updates the fields as `Replay.Open` says |
| `Sniffer.Rebuilder.CollectAddressByte` | sniffROM.py:233-235 | stores an address byte at `curr_addr_byte` and advances it |
| `Sniffer.Rebuilder.StoreRead` | sniffROM.py:216-232 | the in-place read store equals `Replay.StoreRead`; on a fault nothing changed |
| `Sniffer.Rebuilder.StoreWrite` | sniffROM.py:267-283 | the in-place write store equals `Replay.StoreWrite`; on a fault nothing changed |
| `Sniffer.Rebuilder.Step` | sniffROM.py:180-303 | the in-place loop body equals `Replay.Step`, whose properties are proved above |
| `Sniffer.Rebuilder.Parse` | sniffROM.py:178-303 | the in-place loop equals `Replay.Run`, stopping at the first fault |
| `Sniffer.Rebuilder.TrimmedImages` | sniffROM.py:313-323 | each image is cut at its own trim point, independently of the other |
| `Sniffer.Rebuild` | sniffROM.py:165-345 | a faulting capture yields its fault; otherwise the outputs are the trimmed images, the access map, the counters and the ids of the run's final state, and the summary rows exactly when the trimmed image is not empty (an empty one is the division by zero at :327-328) |
| `Scenario.IdentifyOnlyTrimsToNothing` | sniffROM.py:313-328 | a capture of only a Read JEDEC ID leaves an all-fill image that trims to length 0, the case with no summary |

## Left out

- Argument parsing (sniffROM.py:154-163) is left out. `--addrlen`, `--endian` and `--filter` are fields of `Config`, and only 2, 3 and 4 are accepted as address lengths.
- Opening the export and CSV splitting (sniffROM.py:178-179) are left out. A row arrives already split into fields. Rows with fewer than four fields, and MOSI/MISO fields that are not hex bytes, are not modelled.
- The time field is carried in `Row` but never parsed (sniffROM.py:182). It is only printed.
- All verbose output is left out: `dump`, `print_data`, and the `-v` messages about transactions, identifiers and re-accessed cells. This is formatting only and does not change state.
- Writing `output.bin` and `out_write.bin`, and the bare `except` around it (sniffROM.py:319-325), are I/O. `Rebuild` returns the two trimmed images instead.
- The percentage line (sniffROM.py:327-328) uses floating point, so its value is not modelled; only its division by zero on an empty trimmed image is, as the missing summary of `Sniffer.Rebuild`.
- Printing the summary table is left out. Its rows are modelled in ascending opcode order. The script iterates a Python 2 dict, whose order is not modelled.
- The matplotlib graph and `plot_func` (sniffROM.py:131-133, 348-368) are a foreign library and UI. `Rebuild` returns the access map that the graph would show.
- `FLASH_PADDED_SIZE` (20,000,000) is replaced by the `capacity` field of `Config`.
- The `IndexError` traceback is not modelled. A fault ends the run and nothing is written.
- `Trim.TrimmedLength` tests the end before the byte. The script tests the byte first: at end 0 it reads the last byte through Python's negative indexing, which cannot change the outcome.
