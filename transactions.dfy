/** Properties of runs of the controller over several cycles. */
module Transactions {
  import opened Arith
  import opened Geometry
  import opened LaneMux
  import opened Controller
  import opened Cycle

  /** The front-end holds its address over the whole run. */
  predicate Holds(ins: seq<Inputs>, adr: nat) {
    forall k :: 0 <= k < |ins| ==> ins[k].adr == adr
  }

  // ---- delayed entry ----

  lemma {:induction false} EvictDelayPrefix(g: Layout, m: Machine, ins: seq<Inputs>)
    requires Valid(g, m) && AllFit(g, ins) && m.state == EvictWaitDataAck
    requires 1 <= |ins| <= g.writeLatency && ins[0].datAck
    ensures Run(g, m, ins).state ==
      if |ins| == g.writeLatency then EvictData else EvictDelay(g.writeLatency - |ins|)
    ensures Run(g, m, ins).data == m.data && Run(g, m, ins).tags == m.tags
    decreases |ins|
  {
    var front := ins[..|ins| - 1];
    if |ins| == 1 {
      assert front == [];
    } else {
      EvictDelayPrefix(g, m, front);
    }
    EvictDelayLink(g, Run(g, m, front), ins[|ins| - 1], |ins|);
  }

  lemma EvictDelayLink(g: Layout, p: Machine, i: Inputs, j: nat)
    requires Valid(g, p) && Fits(g, i) && 1 <= j <= g.writeLatency
    requires p.state == if j == 1 then EvictWaitDataAck else EvictDelay(g.writeLatency - (j - 1))
    requires j == 1 ==> i.datAck
    ensures Next(g, p, i).state == if j == g.writeLatency then EvictData else EvictDelay(g.writeLatency - j)
    ensures Next(g, p, i).data == p.data && Next(g, p, i).tags == p.tags
  {
    DelayChainStep(g, p, i);
  }

  /** After dat_ack in EVICT_WAIT_DATA_ACK, EVICT_DATA is entered after exactly
      write_latency - 1 extra cycles, spent in delay states that change nothing;
      with a latency of 1 it is entered at once. */
  lemma EvictDelayExact(g: Layout, m: Machine, ins: seq<Inputs>)
    requires Valid(g, m) && AllFit(g, ins) && m.state == EvictWaitDataAck
    requires |ins| == g.writeLatency && ins[0].datAck
    ensures Run(g, m, ins).state == EvictData
    ensures forall j :: 1 <= j < |ins| ==> Run(g, m, ins[..j]).state == EvictDelay(g.writeLatency - j)
    ensures Run(g, m, ins).data == m.data && Run(g, m, ins).tags == m.tags
  {
    forall j | 1 <= j < |ins|
      ensures Run(g, m, ins[..j]).state == EvictDelay(g.writeLatency - j)
    {
      EvictDelayPrefix(g, m, ins[..j]);
    }
    EvictDelayPrefix(g, m, ins);
  }

  lemma {:induction false} RefillDelayPrefix(g: Layout, m: Machine, ins: seq<Inputs>)
    requires Valid(g, m) && AllFit(g, ins) && m.state == RefillWaitDataAck
    requires 1 <= |ins| <= g.readLatency && ins[0].datAck
    ensures Run(g, m, ins).state ==
      if |ins| == g.readLatency then RefillData else RefillDelay(g.readLatency - |ins|)
    ensures Run(g, m, ins).data == m.data && Run(g, m, ins).tags == m.tags
    decreases |ins|
  {
    var front := ins[..|ins| - 1];
    if |ins| == 1 {
      assert front == [];
    } else {
      RefillDelayPrefix(g, m, front);
    }
    RefillDelayLink(g, Run(g, m, front), ins[|ins| - 1], |ins|);
  }

  lemma RefillDelayLink(g: Layout, p: Machine, i: Inputs, j: nat)
    requires Valid(g, p) && Fits(g, i) && 1 <= j <= g.readLatency
    requires p.state == if j == 1 then RefillWaitDataAck else RefillDelay(g.readLatency - (j - 1))
    requires j == 1 ==> i.datAck
    ensures Next(g, p, i).state == if j == g.readLatency then RefillData else RefillDelay(g.readLatency - j)
    ensures Next(g, p, i).data == p.data && Next(g, p, i).tags == p.tags
  {
    DelayChainStep(g, p, i);
  }

  /** After dat_ack in REFILL_WAIT_DATA_ACK, REFILL_DATA is entered after exactly
      read_latency - 1 extra cycles, spent in delay states that change nothing. */
  lemma RefillDelayExact(g: Layout, m: Machine, ins: seq<Inputs>)
    requires Valid(g, m) && AllFit(g, ins) && m.state == RefillWaitDataAck
    requires |ins| == g.readLatency && ins[0].datAck
    ensures Run(g, m, ins).state == RefillData
    ensures forall j :: 1 <= j < |ins| ==> Run(g, m, ins[..j]).state == RefillDelay(g.readLatency - j)
    ensures Run(g, m, ins).data == m.data && Run(g, m, ins).tags == m.tags
  {
    forall j | 1 <= j < |ins|
      ensures Run(g, m, ins[..j]).state == RefillDelay(g.readLatency - j)
    {
      RefillDelayPrefix(g, m, ins[..j]);
    }
    RefillDelayPrefix(g, m, ins);
  }

  // ---- miss handling with the request held ----

  /** After a miss has been routed to the refill path: the ports are on the
      request's line, no eviction state, and once REFILL_WRTAG is past the
      line's record carries the request's tag. */
  ghost predicate Settled(g: Layout, m: Machine, adr: nat) {
    && Valid(g, m) && m.lineR == AdrLine(g, adr) && !IsEvict(m.state)
    && (m.state != RefillWrTag ==> m.tags[AdrLine(g, adr)].tag == AdrTag(g, adr))
  }

  /** During an eviction: the ports are on the request's line, whose record
      and data are still those found at the miss. */
  ghost predicate Evicting(g: Layout, m: Machine, adr: nat, e: TagEntry, l: Line) {
    && Valid(g, m) && m.lineR == AdrLine(g, adr) && IsEvict(m.state)
    && m.tags[AdrLine(g, adr)] == e && m.data[AdrLine(g, adr)] == l
  }

  lemma SettledStep(g: Layout, m: Machine, i: Inputs, adr: nat)
    requires Settled(g, m, adr) && Fits(g, i) && i.adr == adr
    ensures Settled(g, Next(g, m, i), adr)
    ensures m.state == TestHit ==> Out(g, m, i).ack
  {
  }

  lemma EvictingStep(g: Layout, m: Machine, i: Inputs, adr: nat, e: TagEntry, l: Line)
    requires Evicting(g, m, adr, e, l) && Fits(g, i) && i.adr == adr
    ensures Evicting(g, Next(g, m, i), adr, e, l) || Settled(g, Next(g, m, i), adr)
  {
  }

  lemma {:induction false} SettledRun(g: Layout, m: Machine, ins: seq<Inputs>, adr: nat)
    requires Settled(g, m, adr) && AllFit(g, ins) && Holds(ins, adr)
    ensures Settled(g, Run(g, m, ins), adr)
    decreases |ins|
  {
    if ins != [] {
      var front := ins[..|ins| - 1];
      SettledRun(g, m, front, adr);
      SettledStep(g, Run(g, m, front), ins[|ins| - 1], adr);
    }
  }

  lemma {:induction false} EvictRun(g: Layout, m: Machine, ins: seq<Inputs>, adr: nat, e: TagEntry, l: Line)
    requires Evicting(g, m, adr, e, l) && AllFit(g, ins) && Holds(ins, adr)
    ensures Evicting(g, Run(g, m, ins), adr, e, l) || Settled(g, Run(g, m, ins), adr)
    decreases |ins|
  {
    if ins != [] {
      var front := ins[..|ins| - 1];
      EvictRun(g, m, front, adr, e, l);
      var p := Run(g, m, front);
      if Evicting(g, p, adr, e, l) {
        EvictingStep(g, p, ins[|ins| - 1], adr, e, l);
      } else {
        SettledStep(g, p, ins[|ins| - 1], adr);
      }
    }
  }

  /** Running from the first input on is running the rest from the machine after it. */
  lemma {:induction false} RunFirst(g: Layout, m: Machine, ins: seq<Inputs>)
    requires Valid(g, m) && AllFit(g, ins) && |ins| >= 1
    ensures Run(g, m, ins) == Run(g, Next(g, m, ins[0]), ins[1..])
    decreases |ins|
  {
    if |ins| > 1 {
      var front := ins[..|ins| - 1];
      RunFirst(g, m, front);
      assert front[1..] == ins[1..][..|ins| - 2];
    }
  }

  /** A clean miss, with the request held, goes to REFILL_WRTAG; however many
      cycles follow with the address held, the controller is never in an
      EVICT_* state, and whenever it is back in TEST_HIT the request hits and
      is acknowledged. */
  lemma CleanMissNeverEvicts(g: Layout, m: Machine, ins: seq<Inputs>, i: Inputs, adr: nat)
    requires Valid(g, m) && AllFit(g, ins) && Holds(ins, adr) && |ins| >= 1
    requires Fits(g, i) && i.adr == adr
    requires m.state == TestHit && TagOut(g, m).tag != AdrTag(g, adr) && !TagOut(g, m).dirty
    ensures Next(g, m, ins[0]).state == RefillWrTag
    ensures !IsEvict(Run(g, m, ins).state)
    ensures Run(g, m, ins).state == TestHit ==> Out(g, Run(g, m, ins), i).ack
  {
    var m1 := Next(g, m, ins[0]);
    RunFirst(g, m, ins);
    SettledRun(g, m1, ins[1..], adr);
    SettledStep(g, Run(g, m, ins), i, adr);
  }

  /** A dirty miss, with the request held, goes to EVICT_REQUEST. However many
      cycles follow with the address held: in EVICT_REQUEST the controller
      strobes a write at Cat(line, old tag); in EVICT_DATA it drives the line as
      it was at the miss with every byte enabled; and once out of the EVICT_*
      states the line's record carries the request's tag (after REFILL_WRTAG). */
  lemma DirtyMissWritesBackOldLine(g: Layout, m: Machine, ins: seq<Inputs>, i: Inputs, adr: nat)
    requires Valid(g, m) && AllFit(g, ins) && Holds(ins, adr) && |ins| >= 1
    requires Fits(g, i) && i.adr == adr
    requires m.state == TestHit && m.lineR == AdrLine(g, adr)
    requires TagOut(g, m).tag != AdrTag(g, adr) && TagOut(g, m).dirty
    ensures Next(g, m, ins[0]).state == EvictRequest
    ensures Run(g, m, ins).state == EvictRequest ==>
      Out(g, Run(g, m, ins), i).lasmiStb && Out(g, Run(g, m, ins), i).lasmiWe &&
      Out(g, Run(g, m, ins), i).lasmiAdr ==
        BackEndAdr(g, AdrLine(g, adr), m.tags[AdrLine(g, adr)].tag) % Pow2(g.aw)
    ensures Run(g, m, ins).state == EvictData ==>
      Out(g, Run(g, m, ins), i).lasmiDatW == m.data[AdrLine(g, adr)] &&
      Out(g, Run(g, m, ins), i).lasmiDatWe == FullMask(LaneCount(g), WordBytes(g))
    ensures !IsEvict(Run(g, m, ins).state) ==> Settled(g, Run(g, m, ins), adr)
  {
    var line := AdrLine(g, adr);
    var e, l := m.tags[line], m.data[line];
    var m1 := Next(g, m, ins[0]);
    assert Evicting(g, m1, adr, e, l);
    RunFirst(g, m, ins);
    EvictRun(g, m1, ins[1..], adr, e, l);
  }

  // ---- front-end consistency ----

  /** A write acknowledged in TEST_HIT, then a new request to the same address:
      the re-test hits and the read data is the old lane with the selected
      bytes replaced by the written ones. */
  lemma ReadAfterWrite(g: Layout, m: Machine, w: Inputs, i1: Inputs, r: Inputs)
    requires Valid(g, m) && Fits(g, w) && Fits(g, i1) && Fits(g, r)
    requires m.state == TestHit && Hit(g, m, w) && w.cyc && w.stb && w.we
    requires i1.adr == w.adr && i1.cyc && i1.stb && r.adr == w.adr
    ensures Next(g, Next(g, m, w), i1).state == TestHit
    ensures Out(g, Next(g, Next(g, m, w), i1), r).ack
    ensures Out(g, Next(g, Next(g, m, w), i1), r).datR ==
      Merge(Choose(m.data[AdrLine(g, w.adr)], AdrOffset(g, w.adr)), w.datW, w.sel)
  {
    ChooseAfterWrite(LaneCount(g), WordBytes(g), m.data[AdrLine(g, w.adr)], AdrOffset(g, w.adr), w.sel, w.datW);
  }

  /** Known behaviour (there is no valid bit): in IDLE with both stores as
      reset left them, a request whose tag is 0 hits on a line that was never
      filled and reads zeros; any other tag takes the clean-miss (refill) path.
      Out of reset the FSM is in this IDLE when both latencies are 1. */
  lemma ColdZeroTagHit(g: Layout, m: Machine, i0: Inputs, i1: Inputs)
    requires Valid(g, m) && m.state == Idle && m.data == Initial(g).data && m.tags == Initial(g).tags
    requires Fits(g, i0) && Fits(g, i1) && i0.cyc && i0.stb && i1.adr == i0.adr
    ensures Next(g, m, i0).state == TestHit
    ensures AdrTag(g, i0.adr) == 0 ==>
      Out(g, Next(g, m, i0), i1).ack &&
      forall j :: 0 <= j < WordBytes(g) ==> Out(g, Next(g, m, i0), i1).datR[j] == 0
    ensures AdrTag(g, i0.adr) != 0 ==>
      !Out(g, Next(g, m, i0), i1).ack &&
      Next(g, Next(g, m, i0), i1).state == RefillWrTag
  {
  }

  // ---- out of reset ----

  lemma {:induction false} EvictCountdown(g: Layout, m: Machine, ins: seq<Inputs>)
    requires Valid(g, m) && AllFit(g, ins) && m.state.EvictDelay? && |ins| <= m.state.left
    ensures Run(g, m, ins).state ==
      if |ins| == m.state.left then EvictData else EvictDelay(m.state.left - |ins|)
    ensures Run(g, m, ins).data == m.data && Run(g, m, ins).tags == m.tags
    decreases |ins|
  {
    if |ins| > 0 {
      var front := ins[..|ins| - 1];
      EvictCountdown(g, m, front);
      DelayChainStep(g, Run(g, m, front), ins[|ins| - 1]);
    }
  }

  lemma {:induction false} RefillCountdown(g: Layout, m: Machine, ins: seq<Inputs>)
    requires Valid(g, m) && AllFit(g, ins) && m.state.RefillDelay? && |ins| <= m.state.left
    ensures Run(g, m, ins).state ==
      if |ins| == m.state.left then RefillData else RefillDelay(m.state.left - |ins|)
    ensures Run(g, m, ins).data == m.data && Run(g, m, ins).tags == m.tags
    decreases |ins|
  {
    if |ins| > 0 {
      var front := ins[..|ins| - 1];
      RefillCountdown(g, m, front);
      DelayChainStep(g, Run(g, m, front), ins[|ins| - 1]);
    }
  }

  /** With a write latency above 1 the FSM comes out of reset in EVICT_DATAD
      and enters EVICT_DATA after write_latency - 1 cycles, whatever the
      inputs, with both stores still as reset left them. */
  lemma ResetEvictChain(g: Layout, ins: seq<Inputs>)
    requires Consistent(g) && g.writeLatency > 1 && AllFit(g, ins) && |ins| == g.writeLatency - 1
    ensures Initial(g).state == EvictDelay(g.writeLatency - 1)
    ensures Run(g, Initial(g), ins).state == EvictData
    ensures Run(g, Initial(g), ins).data == Initial(g).data
    ensures Run(g, Initial(g), ins).tags == Initial(g).tags
  {
    EvictCountdown(g, Initial(g), ins);
  }

  /** With a write latency of 1 and a read latency above 1 the FSM comes out
      of reset in REFILL_DATAD and enters REFILL_DATA after read_latency - 1
      cycles, whatever the inputs, with both stores still as reset left them. */
  lemma ResetRefillChain(g: Layout, ins: seq<Inputs>)
    requires Consistent(g) && g.writeLatency == 1 && g.readLatency > 1
    requires AllFit(g, ins) && |ins| == g.readLatency - 1
    ensures Initial(g).state == RefillDelay(g.readLatency - 1)
    ensures Run(g, Initial(g), ins).state == RefillData
    ensures Run(g, Initial(g), ins).data == Initial(g).data
    ensures Run(g, Initial(g), ins).tags == Initial(g).tags
  {
    RefillCountdown(g, Initial(g), ins);
  }
}
