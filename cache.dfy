/**
 * The cache as an object: the FSM state and port registers as fields, the data
 * store and the tag store as arrays written in place, one call of Step per
 * clock cycle.
 */
module Wb2Lasmi {
  import opened Wrappers
  import opened Arith
  import opened Geometry
  import opened LaneMux
  import opened Controller

  class Cache {
    const g: Layout
    const dataMem: array<Line>
    const tagMem: array<TagEntry>
    var state: State
    /** The address registered by both memory ports in the previous cycle. */
    var lineR: nat
    /** adr_offset_r. */
    var offsetR: nat

    /** The registers as a value. */
    function Abs(): Machine
      reads this, dataMem, tagMem
    {
      Machine(state, dataMem[..], tagMem[..], lineR, offsetR)
    }

    ghost predicate Valid()
      reads this, dataMem, tagMem
    {
      Controller.Valid(g, Abs())
    }

    /** Out of reset: both memories and the port registers zero, the FSM in its reset state. */
    constructor (layout: Layout)
      requires Consistent(layout)
      ensures Valid() && g == layout && Abs() == Initial(layout)
      ensures fresh(dataMem) && fresh(tagMem)
    {
      g := layout;
      dataMem := new Line[LineCount(layout)](_ => ZeroLine(LaneCount(layout), WordBytes(layout)));
      tagMem := new TagEntry[LineCount(layout)](_ => TagEntry(0, false));
      state := ResetState(layout);
      lineR, offsetR := 0, 0;
      new;
      assert dataMem[..] == Initial(layout).data;
      assert tagMem[..] == Initial(layout).tags;
    }

    /** Elaboration: the configuration checks, then a cache out of reset. */
    static method Build(c: Config) returns (r: Result<Cache, ConfigError>)
      requires c.dataWidth % 8 == 0
      ensures r.Ok? <==> Configure(c).Ok?
      ensures r.Err? ==> r.error == Configure(c).error
      ensures r.Ok? ==>
        && r.value.Valid() && r.value.g == Configure(c).value && r.value.Abs() == Initial(r.value.g)
        && fresh(r.value) && fresh(r.value.dataMem) && fresh(r.value.tagMem)
    {
      match Configure(c)
      case Err(e) =>
        r := Err(e);
      case Ok(layout) =>
        var cache := new Cache(layout);
        r := Ok(cache);
    }

    /** The data port's write at the edge: the whole line from the back-end in
        REFILL_DATA, the front-end word under sel on an acknowledged write. */
    method WriteDataPort(ghost m: Machine, i: Inputs, ack: bool)
      requires Controller.Valid(g, m) && Fits(g, i) && m.data == dataMem[..] && m.state == state
      requires ack == (m.state == TestHit && Hit(g, m, i))
      modifies dataMem
      ensures dataMem[..] == NextData(g, m, i)
    {
      var line := AdrLine(g, i.adr);
      if state == RefillData {
        dataMem[line] := i.lasmiDatR;
      } else if i.cyc && i.stb && i.we && ack {
        dataMem[line] := WriteWord(LaneCount(g), WordBytes(g), dataMem[line], AdrOffset(g, i.adr), i.sel, i.datW);
      }
    }

    /** The tag port's write at the edge: the request's tag, dirty, on a hit
        with we set; the request's tag, clean, in REFILL_WRTAG. */
    method WriteTagPort(ghost m: Machine, i: Inputs, ack: bool)
      requires Controller.Valid(g, m) && Fits(g, i) && m.tags == tagMem[..] && m.state == state
      requires ack == (m.state == TestHit && Hit(g, m, i))
      modifies tagMem
      ensures tagMem[..] == NextTags(g, m, i)
    {
      var line, tag := AdrLine(g, i.adr), AdrTag(g, i.adr);
      if ack && i.we {
        tagMem[line] := TagEntry(tag, true);
      } else if state == RefillWrTag {
        tagMem[line] := TagEntry(tag, false);
      }
    }

    /** One clock cycle: drive the outputs for the sampled inputs, then update
        the memories and the registers at the edge. */
    method Step(i: Inputs) returns (o: Outputs)
      requires Valid() && Fits(g, i)
      modifies this, dataMem, tagMem
      ensures Valid()
      ensures Abs() == Next(g, old(Abs()), i)
      ensures o == Out(g, old(Abs()), i)
    {
      ghost var m := Abs();
      var n, wb := LaneCount(g), WordBytes(g);
      var line, offset, tag := AdrLine(g, i.adr), AdrOffset(g, i.adr), AdrTag(g, i.adr);
      var tagOut := tagMem[lineR];
      var dataOut := dataMem[lineR];
      var ack := state == TestHit && tagOut.tag == tag;
      var writeToLasmi := state == EvictData;
      o := Outputs(
        ack, Choose(dataOut, offsetR),
        state == EvictRequest || state == RefillRequest, state == EvictRequest,
        BackEndAdr(g, line, tagOut.tag) % Pow2(g.aw),
        if writeToLasmi then dataOut else ZeroLine(n, wb),
        if writeToLasmi then FullMask(n, wb) else NoMask(n, wb));
      assert o == Out(g, m, i);

      WriteDataPort(m, i, ack);
      WriteTagPort(m, i, ack);
      state := NextState(g, state, tagOut, i);
      lineR, offsetR := line, offset;
    }
  }
}
