/**
 * One clock cycle of the cache controller, as pure functions of the state
 * before the edge and the inputs sampled in the cycle.
 *
 * Memories are modelled as Migen's default (write-first) ports: the port
 * registers the address it is given, and its read data in the next cycle is
 * the memory content at that registered address, so a write is seen by the
 * read of the following cycle. Combinational signals that no state drives
 * are 0.
 */
module Controller {
  import opened Arith
  import opened Geometry
  import opened LaneMux

  /** The control FSM. EvictDelay(k) and RefillDelay(k) are the states of the
      delayed-entry chains, k being the number of cycles left before EVICT_DATA
      (REFILL_DATA) is entered; the first of them is EVICT_DATAD (REFILL_DATAD). */
  datatype State =
    | Idle
    | TestHit
    | EvictRequest
    | EvictWaitDataAck
    | EvictDelay(left: nat)
    | EvictData
    | RefillWrTag
    | RefillRequest
    | RefillWaitDataAck
    | RefillDelay(left: nat)
    | RefillData

  predicate IsEvict(s: State) {
    s.EvictRequest? || s.EvictWaitDataAck? || s.EvictDelay? || s.EvictData?
  }

  /** One record of the tag store. There is no valid bit. */
  datatype TagEntry = TagEntry(tag: nat, dirty: bool)

  /** The signals sampled in one cycle: the Wishbone request and the LASMI acknowledgements and read data. */
  datatype Inputs = Inputs(
    cyc: bool, stb: bool, we: bool, sel: seq<bool>, adr: nat, datW: seq<Byte>,
    reqAck: bool, datAck: bool, lasmiDatR: Line)

  /** The signals the cache drives in one cycle. */
  datatype Outputs = Outputs(
    ack: bool, datR: seq<Byte>,
    lasmiStb: bool, lasmiWe: bool, lasmiAdr: nat, lasmiDatW: Line, lasmiDatWe: Mask)

  /** The registers: the FSM state, both memories, the address of both memory
      ports as registered in the previous cycle, and adr_offset_r. */
  datatype Machine = Machine(
    state: State, data: seq<Line>, tags: seq<TagEntry>, lineR: nat, offsetR: nat)

  function LaneCount(g: Layout): nat { Pow2(g.offsetBits) }
  function WordBytes(g: Layout): nat { g.dataWidth / 8 }
  function LineCount(g: Layout): nat { Pow2(g.lineBits) }

  /** The inputs have the widths of their signals. */
  predicate Fits(g: Layout, i: Inputs) {
    |i.sel| == WordBytes(g) && |i.datW| == WordBytes(g) &&
    Shaped(i.lasmiDatR, LaneCount(g), WordBytes(g))
  }

  predicate StateOk(g: Layout, s: State) {
    match s
    case EvictDelay(k) => 1 <= k < g.writeLatency
    case RefillDelay(k) => 1 <= k < g.readLatency
    case _ => true
  }

  /** The registers have the sizes and widths of the hardware. */
  predicate Valid(g: Layout, m: Machine) {
    && Consistent(g) && StateOk(g, m.state)
    && |m.data| == LineCount(g)
    && (forall i :: 0 <= i < |m.data| ==> Shaped(m.data[i], LaneCount(g), WordBytes(g)))
    && |m.tags| == LineCount(g)
    && (forall i :: 0 <= i < |m.tags| ==> m.tags[i].tag < Pow2(g.tagBits))
    && m.lineR < LineCount(g) && m.offsetR < LaneCount(g)
  }

  /** The FSM's state out of reset. Migen's FSM resets to the first state
      given an action. Both delayed_enter calls come before IDLE's action, and
      each gives the first state of its chain an action when its delay is not
      0; so the reset state is EVICT_DATAD when write_latency > 1, otherwise
      REFILL_DATAD when read_latency > 1, and IDLE only when both are 1. */
  function ResetState(g: Layout): (s: State)
    requires Consistent(g)
    ensures StateOk(g, s)
    ensures s == Idle <==> g.writeLatency == 1 && g.readLatency == 1
  {
    if g.writeLatency > 1 then EvictDelay(g.writeLatency - 1)
    else if g.readLatency > 1 then RefillDelay(g.readLatency - 1)
    else Idle
  }

  /** The registers out of reset: memories and registers zero, the FSM in its reset state. */
  function Initial(g: Layout): (m: Machine)
    requires Consistent(g)
    ensures Valid(g, m)
  {
    Machine(ResetState(g),
      seq(LineCount(g), _ => ZeroLine(LaneCount(g), WordBytes(g))),
      seq(LineCount(g), _ => TagEntry(0, false)),
      0, 0)
  }

  /** Registered read data of the tag store. */
  function TagOut(g: Layout, m: Machine): (r: TagEntry)
    requires Valid(g, m)
    ensures r.tag < Pow2(g.tagBits)
  {
    m.tags[m.lineR]
  }

  /** Registered read data of the data store. */
  function DataOut(g: Layout, m: Machine): (r: Line)
    requires Valid(g, m)
    ensures Shaped(r, LaneCount(g), WordBytes(g))
  {
    m.data[m.lineR]
  }

  /** The tag comparison of TEST_HIT. Once the ports hold the request's line,
      it tells whether that line's record carries the request's tag. */
  predicate Hit(g: Layout, m: Machine, i: Inputs): (r: bool)
    requires Valid(g, m)
    ensures m.lineR == AdrLine(g, i.adr) ==>
      (r <==> m.tags[AdrLine(g, i.adr)].tag == AdrTag(g, i.adr))
  {
    TagOut(g, m).tag == AdrTag(g, i.adr)
  }

  /** The front-end write enable of the data store: cyc & stb & we & ack. */
  predicate FrontWrite(g: Layout, m: Machine, i: Inputs): (r: bool)
    requires Valid(g, m)
    ensures r ==> m.state == TestHit && Hit(g, m, i)
    ensures !(i.cyc && i.stb && i.we) ==> !r
  {
    i.cyc && i.stb && i.we && m.state == TestHit && Hit(g, m, i)
  }

  /** The FSM's next state, from the state, the registered tag record and the inputs. */
  function NextState(g: Layout, s: State, tagOut: TagEntry, i: Inputs): (r: State)
    requires Consistent(g) && StateOk(g, s)
    ensures StateOk(g, r)
  {
    match s
    case Idle => if i.cyc && i.stb then TestHit else Idle
    case TestHit =>
      if tagOut.tag == AdrTag(g, i.adr) then Idle
      else if tagOut.dirty then EvictRequest
      else RefillWrTag
    case EvictRequest => if i.reqAck then EvictWaitDataAck else EvictRequest
    case EvictWaitDataAck =>
      if !i.datAck then EvictWaitDataAck
      else if g.writeLatency == 1 then EvictData
      else EvictDelay(g.writeLatency - 1)
    case EvictDelay(k) => if k <= 1 then EvictData else EvictDelay(k - 1)
    case EvictData => RefillWrTag
    case RefillWrTag => RefillRequest
    case RefillRequest => if i.reqAck then RefillWaitDataAck else RefillRequest
    case RefillWaitDataAck =>
      if !i.datAck then RefillWaitDataAck
      else if g.readLatency == 1 then RefillData
      else RefillDelay(g.readLatency - 1)
    case RefillDelay(k) => if k <= 1 then RefillData else RefillDelay(k - 1)
    case RefillData => TestHit
  }

  /** The data store after the edge: the whole line from the back-end in
      REFILL_DATA, the front-end word under its byte selects on an acknowledged
      write, otherwise unchanged. */
  function NextData(g: Layout, m: Machine, i: Inputs): (d: seq<Line>)
    requires Valid(g, m) && Fits(g, i)
    ensures |d| == LineCount(g)
    ensures forall k :: 0 <= k < |d| ==> Shaped(d[k], LaneCount(g), WordBytes(g))
  {
    var line := AdrLine(g, i.adr);
    if m.state == RefillData then
      m.data[line := i.lasmiDatR]
    else if FrontWrite(g, m, i) then
      m.data[line := WriteWord(LaneCount(g), WordBytes(g), m.data[line], AdrOffset(g, i.adr), i.sel, i.datW)]
    else m.data
  }

  /** The tag store after the edge: the request's tag, dirty, on a hit with we
      set; the request's tag, clean, in REFILL_WRTAG; otherwise unchanged. */
  function NextTags(g: Layout, m: Machine, i: Inputs): (t: seq<TagEntry>)
    requires Valid(g, m)
    ensures |t| == LineCount(g)
    ensures forall k :: 0 <= k < |t| ==> t[k].tag < Pow2(g.tagBits)
  {
    var line := AdrLine(g, i.adr);
    if m.state == TestHit && Hit(g, m, i) && i.we then
      m.tags[line := TagEntry(AdrTag(g, i.adr), true)]
    else if m.state == RefillWrTag then
      m.tags[line := TagEntry(AdrTag(g, i.adr), false)]
    else m.tags
  }

  /** The registers after one clock edge. */
  function Next(g: Layout, m: Machine, i: Inputs): (r: Machine)
    requires Valid(g, m) && Fits(g, i)
    ensures Valid(g, r)
  {
    Machine(NextState(g, m.state, TagOut(g, m), i), NextData(g, m, i), NextTags(g, m, i),
            AdrLine(g, i.adr), AdrOffset(g, i.adr))
  }

  /** The outputs driven during the cycle. */
  function Out(g: Layout, m: Machine, i: Inputs): (o: Outputs)
    requires Valid(g, m) && Fits(g, i)
    ensures |o.datR| == WordBytes(g)
    ensures Shaped(o.lasmiDatW, LaneCount(g), WordBytes(g))
    ensures Shaped(o.lasmiDatWe, LaneCount(g), WordBytes(g))
    ensures o.lasmiAdr < Pow2(g.aw)
  {
    var n, wb := LaneCount(g), WordBytes(g);
    Outputs(
      m.state == TestHit && Hit(g, m, i),
      Choose(DataOut(g, m), m.offsetR),
      m.state == EvictRequest || m.state == RefillRequest,
      m.state == EvictRequest,
      BackEndAdr(g, AdrLine(g, i.adr), TagOut(g, m).tag) % Pow2(g.aw),
      if m.state == EvictData then DataOut(g, m) else ZeroLine(n, wb),
      if m.state == EvictData then FullMask(n, wb) else NoMask(n, wb))
  }

  predicate AllFit(g: Layout, ins: seq<Inputs>) {
    forall k :: 0 <= k < |ins| ==> Fits(g, ins[k])
  }

  /** The registers after one edge per element of ins, the first element first. */
  function Run(g: Layout, m: Machine, ins: seq<Inputs>): (r: Machine)
    requires Valid(g, m) && AllFit(g, ins)
    ensures Valid(g, r)
    decreases |ins|
  {
    if ins == [] then m
    else Next(g, Run(g, m, ins[..|ins| - 1]), ins[|ins| - 1])
  }

  lemma RunSnoc(g: Layout, m: Machine, ins: seq<Inputs>, j: nat)
    requires Valid(g, m) && AllFit(g, ins) && j < |ins|
    ensures Run(g, m, ins[..j + 1]) == Next(g, Run(g, m, ins[..j]), ins[j])
  {
    assert ins[..j + 1][..j] == ins[..j];
  }
}
