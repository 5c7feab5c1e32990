# WB2LASMI: a write-back, direct-mapped Wishbone-to-LASMI cache, in Dafny

This project models `WB2LASMI` from Migen (`migen/bus/wishbone2lasmi.py`) and proves properties of the model. `WB2LASMI` is a write-back, direct-mapped cache. Its front end is a narrow Wishbone slave. Its back end is a wide, pipelined LASMI master with fixed read and write latencies. The model has four parts:

- **Configuration** (`geometry.dfy`, module `Geometry`). These are the constructor's width checks and the derived field widths. A front-end word address splits as TAG | LINE | OFFSET. `Configure` returns the layout or the error that construction would raise.
- **Data path** (`lanemux.dfy`, module `LaneMux`). This is the width adapter:
  - A line is a sequence of `2^offsetBits` chunks of one front-end word each, listed in bit order. Each chunk is a sequence of bytes.
  - Lane numbering is reversed (`reverse=True`): the word at offset `o` lives in chunk `n-1-o`. Writes and reads use the same mapping.
  - A front-end write replicates the word across all chunks and enables only the `sel` bytes of lane `adr_offset`.
  - A read picks lane `adr_offset_r` out of the registered line.
- **One clock cycle as pure functions** (`controller.dfy`, module `Controller`). This part holds:
  - the 9-state FSM, including both delayed-entry chains;
  - the next values of the data store, the tag store and the registers (`Next`);
  - the outputs driven during the cycle (`Out`);
  - `Run`, which applies many cycles.
  
  Per-state properties are in `cycle.dfy` (module `Cycle`). Multi-cycle properties are in `transactions.dfy` (module `Transactions`): exact delay latency, clean and dirty miss sequences, read after write, and the cold zero-tag hit.
- **The hardware object** (`cache.dfy`, module `Wb2Lasmi`). Class `Cache` holds the two memories as arrays and the FSM state and port registers as fields. `Step` is one clock cycle, proved equal to `Next`/`Out`. `Build` runs the configuration checks and makes a cache out of reset.

How the supporting Migen pieces are modelled:

- **Memory ports.** Migen's default write-first ports register the address. Their read data in the next cycle is the memory at that address, after that edge's write. `lineR` is that registered address, shared by both ports because both are given `adr_line`.
- **Combinational defaults.** A combinational signal that no state drives is 0.
- **The tag record.** It is a plain `(tag, dirty)` pair. The tag store has no valid bit, exactly as in the code, so a cold line whose zero tag matches the request is a hit on never-filled data (`ColdZeroTagHit`).

Facts about the code that the model keeps:

- **Field widths.** The code computes `tagbits = aw + offsetbits - linebits`. So the three fields together are `offsetbits` bits wider than the `aw + offsetbits` address bits (`FieldWidths`). Splitting an address below `2^(aw+offsetbits)` and re-composing it still gives the address back.
- **Back-end address.** `Cat(adr_line, tag)` is `linebits + tagbits` wide. It is cut to the `aw` bits of `lasmim.adr`, and `Out` applies that cut.
- **An example geometry.** For an 8-bit front end, a 32-bit back end, 16 words and 8 address bits, the code gives offset 2, line 2 and tag 8 bits (`ConfigureExample`).
- **Cold-line hits.** With no valid bit, a zero tag hits on a never-filled line (`ColdZeroTagHit`).
- **Reset state.** The FSM is built with no explicit reset state. Migen's FSM (not part of this model) resets to the first state given an action. Both `delayed_enter` calls come before IDLE's action, and a non-zero delay gives the chain's first state an action. So the reset state is EVICT_DATAD when `write_latency > 1`, otherwise REFILL_DATAD when `read_latency > 1`, and IDLE only when both latencies are 1 (`ResetState`). From EVICT_DATAD the FSM passes through EVICT_DATA and a refill of the line under the bus address before it first reaches IDLE. From REFILL_DATAD it writes `dat_r` into that line and re-tests.
- **Bus signals in TEST_HIT.** `ack` and the tag write do not look at `cyc`/`stb`. Only the data store's front-end write enable does. The model does the same.

## Model

| member | source | states |
|---|---|---|
| `Geometry.CeilLog2` | migen/bus/wishbone2lasmi.py:24-26 | the bit length of n-1 used by log2_int: the least r with n <= 2^r |
| `Geometry.Log2Int` | migen/bus/wishbone2lasmi.py:24-26 | log2_int: 0 maps to 0; any other accepted n is exactly 2^r |
| `Geometry.Log2IntOfPow2` | migen/bus/wishbone2lasmi.py:24-26 | every power of two is accepted, with its exponent |
| `Geometry.Configure` | migen/bus/wishbone2lasmi.py:16-28 | an accepted configuration has dw >= data_width, dw a multiple of data_width, both latencies >= 1, dw = 2^offsetbits * data_width, cachesize = 2^(offsetbits+linebits), tagbits = aw + offsetbits - linebits; too narrow a back end or a non-multiple width is rejected with that error |
| `Geometry.ConfigureAccepts` | migen/bus/wishbone2lasmi.py:16-28 | every configuration with a power-of-two width ratio and cache size, at least one line bit, aw + offsetbits > linebits (a non-empty tag field) and latencies >= 1 is accepted with the expected field widths |
| `Geometry.ConfigureExample` | migen/bus/wishbone2lasmi.py:22-28 | 16 words, 8-bit words, 32-bit lines, 8 address bits: offset 2, line 2, tag 8 bits |
| `Geometry.FieldWidths` | migen/bus/wishbone2lasmi.py:24-27 | offsetbits + linebits + tagbits = addressbits + offsetbits; line and tag together are aw + offsetbits wide |
| `Geometry.SplitCompose` | migen/bus/wishbone2lasmi.py:22-28 | splitting any address below 2^addressbits into (offset, line, tag) and concatenating gives it back |
| `Geometry.ComposeSplit` | migen/bus/wishbone2lasmi.py:22-28 | concatenating in-range fields and splitting gives the fields back |
| `Geometry.NoOffsetField` | migen/bus/wishbone2lasmi.py:37-38 | with offsetbits = 0 there is no offset field: the offset is always 0 and line and tag come from the low address bits |
| `Geometry.AdrOffset` | migen/bus/wishbone2lasmi.py:28 | the LINE OFFSET slice of the address fits in offsetbits |
| `Geometry.AdrLine` | migen/bus/wishbone2lasmi.py:28 | the LINE NUMBER slice fits in linebits, so it addresses one of the 2^linebits memory words |
| `Geometry.AdrTag` | migen/bus/wishbone2lasmi.py:28 | the TAG slice fits in tagbits, the width of the tag record's field |
| `Geometry.BackEndAdr` | migen/bus/wishbone2lasmi.py:77 | Cat(line, tag): an in-range line is the low linebits of the result and the tag is the bits above it |
| `Geometry.BackEndAdrOfRequest` | migen/bus/wishbone2lasmi.py:76-77 | Cat(adr_line, adr_tag), cut to aw bits, is the back-end line that holds the requested word |
| `LaneMux.Chunk` | migen/bus/wishbone2lasmi.py:51 | lane o of n lives in chunk n-1-o (reverse lane numbering), which is within the line |
| `LaneMux.Replicate` | migen/bus/wishbone2lasmi.py:49 | the front-end word is copied into every chunk of the line |
| `LaneMux.ZeroLine` | migen/bus/wishbone2lasmi.py:31 | memory content out of reset: every byte 0 |
| `LaneMux.FullMask` | migen/bus/wishbone2lasmi.py:47 | every byte enable of the line set |
| `LaneMux.NoMask` | migen/bus/wishbone2lasmi.py:48-53 | no byte enable set: the default when no write is selected |
| `LaneMux.LaneMask` | migen/bus/wishbone2lasmi.py:51 | the displacer's byte enables: byte j of chunk c is enabled exactly when c is lane o's chunk and sel[j] |
| `LaneMux.MaskedWrite` | migen/bus/wishbone2lasmi.py:32 | a byte-granular memory write: each byte takes the new value where its enable is set and keeps the old one elsewhere |
| `LaneMux.Choose` | migen/bus/wishbone2lasmi.py:58 | the chooser with reverse=True: lane o reads chunk n-1-o, so lane 0 is the most significant word of the line |
| `LaneMux.Merge` | migen/bus/wishbone2lasmi.py:49-51 | each byte is the new one where sel is set, the old one elsewhere |
| `LaneMux.WriteWord` | migen/bus/wishbone2lasmi.py:48-53 | a front-end write changes exactly the sel bytes of lane adr_offset to the written bytes; every other byte of the line keeps its value |
| `LaneMux.ChooseAfterWrite` | migen/bus/wishbone2lasmi.py:49-58 | reading lane o after the write gives the old word merged with the written bytes; every other lane reads as before |
| `LaneMux.MaskedWriteExtremes` | migen/bus/wishbone2lasmi.py:45-47 | a write with every byte enabled replaces the whole line; with none it leaves it |
| `Controller.ResetState` | migen/bus/wishbone2lasmi.py:82-88 | the FSM's reset state is a valid state, and it is IDLE exactly when both latencies are 1 |
| `Controller.Initial` | migen/bus/wishbone2lasmi.py:30-41 | the machine out of reset (the FSM's reset state, both stores zero, registers 0) satisfies the machine invariant |
| `Controller.TagOut` | migen/bus/wishbone2lasmi.py:64-70 | the tag port's registered read data, whose tag fits in tagbits |
| `Controller.DataOut` | migen/bus/wishbone2lasmi.py:31-32 | the data port's registered read data, a line of 2^offsetbits words of data_width/8 bytes |
| `Controller.Hit` | migen/bus/wishbone2lasmi.py:92 | the tag comparison; once the ports hold the request's line, it holds exactly when that line's record carries the request's tag |
| `Controller.FrontWrite` | migen/bus/wishbone2lasmi.py:50 | the front-end write enable holds only in TEST_HIT on a tag match, and never without cyc, stb and we |
| `Controller.NextState` | migen/bus/wishbone2lasmi.py:85-136 | the FSM transition keeps every delay counter within 1..latency-1 |
| `Controller.NextData` | migen/bus/wishbone2lasmi.py:43-53 | the data store after the edge keeps its size and line shape |
| `Controller.NextTags` | migen/bus/wishbone2lasmi.py:62-78 | the tag store after the edge keeps its size, and every stored tag fits in tagbits |
| `Controller.Next` | migen/bus/wishbone2lasmi.py:30-136 | one clock edge takes a valid machine to a valid machine |
| `Controller.Out` | migen/bus/wishbone2lasmi.py:43-78 | the outputs have the widths of their signals, and the back-end address fits in aw bits |
| `Controller.Run` | migen/bus/wishbone2lasmi.py:82-136 | any number of cycles keep the machine valid |
| `Cycle.IdleWaitsForRequest` | migen/bus/wishbone2lasmi.py:88-90 | IDLE moves to TEST_HIT exactly when cyc & stb, and acknowledges, strobes and writes nothing |
| `Cycle.AckExactlyOnHit` | migen/bus/wishbone2lasmi.py:91-93 | ack is asserted if and only if the state is TEST_HIT and the registered tag equals adr_tag |
| `Cycle.HitCompletes` | migen/bus/wishbone2lasmi.py:91-98 | a hit acknowledges and returns to IDLE; with we it rewrites the same tag as dirty; on a cyc & stb & we cycle it writes the sel bytes of lane adr_offset, otherwise the data store is unchanged |
| `Cycle.MissRouting` | migen/bus/wishbone2lasmi.py:99-105 | a mismatch goes to EVICT_REQUEST exactly when the stored dirty bit is set, otherwise to REFILL_WRTAG, without ack and without writes |
| `Cycle.DataWriteDiscipline` | migen/bus/wishbone2lasmi.py:43-53 | only the addressed line can change; the front end changes it only in the acknowledged write cycle and then only the sel bytes of lane adr_offset; otherwise only REFILL_DATA writes it |
| `Cycle.ReadDataIsRegisteredLane` | migen/bus/wishbone2lasmi.py:40-41 | the read data is lane adr_offset_r of the line the port registered in the previous cycle, as written at that edge |
| `Cycle.EvictRequestHolds` | migen/bus/wishbone2lasmi.py:108-112 | EVICT_REQUEST drives stb and we at Cat(adr_line, stored tag) and stays until req_ack |
| `Cycle.EvictDataDrivesLine` | migen/bus/wishbone2lasmi.py:54-57 | EVICT_DATA drives the registered line with every byte-enable bit set, then goes to REFILL_WRTAG |
| `Cycle.RefillWrTagSetsAddress` | migen/bus/wishbone2lasmi.py:121-125 | REFILL_WRTAG writes adr_tag with dirty cleared; next cycle the registered tag is the new one, so the back-end address is the requested line's |
| `Cycle.RefillRequestHolds` | migen/bus/wishbone2lasmi.py:126-129 | REFILL_REQUEST drives stb without we and stays until req_ack |
| `Cycle.RefillDataCaptures` | migen/bus/wishbone2lasmi.py:133-136 | REFILL_DATA writes every byte lane of the line with lasmim.dat_r and returns to TEST_HIT |
| `Cycle.WaitingIsQuiet` | migen/bus/wishbone2lasmi.py:113-115 | the wait and delay states acknowledge, strobe and write nothing |
| `Cycle.DelayChainStep` | migen/bus/wishbone2lasmi.py:85-86 | dat_ack starts the delay chain with latency-1 cycles to go (none for latency 1); each delay state counts one down |
| `Transactions.EvictDelayExact` | migen/bus/wishbone2lasmi.py:85 | after dat_ack in EVICT_WAIT_DATA_ACK, EVICT_DATA is entered after exactly write_latency-1 extra cycles of delay states, with the stores unchanged |
| `Transactions.RefillDelayExact` | migen/bus/wishbone2lasmi.py:86 | after dat_ack in REFILL_WAIT_DATA_ACK, REFILL_DATA is entered after exactly read_latency-1 extra cycles of delay states, with the stores unchanged |
| `Transactions.SettledStep` | migen/bus/wishbone2lasmi.py:88-136 | with the address held, the refill-path invariant is kept by every cycle, and TEST_HIT then hits |
| `Transactions.EvictingStep` | migen/bus/wishbone2lasmi.py:108-125 | with the address held, an eviction keeps the old record and line until it reaches the refill path |
| `Transactions.SettledRun` | migen/bus/wishbone2lasmi.py:88-136 | the refill-path invariant holds after any run with the address held |
| `Transactions.EvictRun` | migen/bus/wishbone2lasmi.py:108-136 | after any run with the address held, the machine is still evicting the old line or is on the refill path |
| `Transactions.CleanMissNeverEvicts` | migen/bus/wishbone2lasmi.py:99-136 | a clean miss goes to REFILL_WRTAG; with the address held it never visits an EVICT_* state, and every return to TEST_HIT acknowledges |
| `Transactions.DirtyMissWritesBackOldLine` | migen/bus/wishbone2lasmi.py:99-125 | a dirty miss goes to EVICT_REQUEST; with the address held, eviction requests go to Cat(line, old tag), EVICT_DATA drives the line as it was at the miss with all bytes enabled, and after eviction the refill invariant holds |
| `Transactions.ReadAfterWrite` | migen/bus/wishbone2lasmi.py:40-58 | after an acknowledged write, a new request to the same address hits and reads the old lane with the sel bytes replaced by the written ones |
| `Transactions.ColdZeroTagHit` | migen/bus/wishbone2lasmi.py:63 | in IDLE with both stores as reset left them (the reset state when both latencies are 1), a request with tag 0 hits on a never-filled line and reads zeros; any other tag takes the refill path |
| `Transactions.ResetEvictChain` | migen/bus/wishbone2lasmi.py:82-85 | with write_latency > 1 the FSM resets to EVICT_DATAD and enters EVICT_DATA after write_latency-1 cycles, whatever the inputs, with the stores still zero |
| `Transactions.ResetRefillChain` | migen/bus/wishbone2lasmi.py:82-86 | with write_latency 1 and read_latency > 1 the FSM resets to REFILL_DATAD and enters REFILL_DATA after read_latency-1 cycles, with the stores still zero |
| `Wb2Lasmi.Cache.constructor` | migen/bus/wishbone2lasmi.py:30-41 | a fresh cache out of reset: both arrays allocated and zero, the FSM in its reset state |
| `Wb2Lasmi.Cache.Build` | migen/bus/wishbone2lasmi.py:9-28 | returns a cache exactly when the configuration is accepted, and otherwise the same error |
| `Wb2Lasmi.Cache.WriteDataPort` | migen/bus/wishbone2lasmi.py:43-53 | the in-place data-store write equals the specified next data store |
| `Wb2Lasmi.Cache.WriteTagPort` | migen/bus/wishbone2lasmi.py:74-76 | the in-place tag-store write equals the specified next tag store |
| `Wb2Lasmi.Cache.Step` | migen/bus/wishbone2lasmi.py:30-136 | one cycle in place: the new registers and arrays are `Next` of the old ones, the outputs are `Out`, and validity is kept |

## Left out

- Migen infrastructure (`FSM`, `Memory`, `Record`, `split`, `displacer`, `chooser`, `Replicate`, `Cat`, `log2_int`) is not modelled as code. Its semantics are written out directly: write-first memory ports, 0 defaults, and reversed lane order in the displacer and chooser.
- `Controller.ResetState`: relies on Migen's rule that an FSM with no explicit reset state resets to the first state given an action. Migen's FSM source is not part of this model.
- The Wishbone and LASMI interface definitions are not modelled. The LASMI `req_ack`, `dat_ack` and `dat_r` are free inputs of every cycle.
- The packed bit layout of the tag record is replaced by a `(tag, dirty)` pair.
- HDL generation, simulation, and timing inside a cycle are not modelled. The model has one transition per clock.
- Liveness against a back end that never acknowledges is not modelled. The code has no timeout, so the model simply waits.
- `Geometry.Configure`: requires the front-end width to be a multiple of 8, as does `Wb2Lasmi.Cache.Build`. The Wishbone `sel` signal has one bit per byte and the data port writes in 8-bit units, so other widths have no byte lanes. The constructor's behaviour for them is not modelled.
- `Geometry.Configure`: a line or tag field of zero width makes `split` return `None`, and the code then fails while assigning it. The code has no check for a negative width. The model rejects both with `NoLineField` / `NoTagField`.
- Wishbone address bits above the split fields are ignored, as the slices ignore them. The front end's own address width is not modelled.
- Front-end protocol obligations (holding the request until `ack`) are not assumed by `Step`. They appear only as the held-address preconditions of the transaction lemmas.
