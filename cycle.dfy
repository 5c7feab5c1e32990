/** What the controller does in one cycle, state by state. */
module Cycle {
  import opened Arith
  import opened Geometry
  import opened LaneMux
  import opened Controller

  /** IDLE moves to TEST_HIT exactly when cyc and stb are both high, and drives nothing. */
  lemma IdleWaitsForRequest(g: Layout, m: Machine, i: Inputs)
    requires Valid(g, m) && Fits(g, i) && m.state == Idle
    ensures Next(g, m, i).state == (if i.cyc && i.stb then TestHit else Idle)
    ensures !Out(g, m, i).ack && !Out(g, m, i).lasmiStb
    ensures Next(g, m, i).data == m.data && Next(g, m, i).tags == m.tags
  {
  }

  /** The front-end is acknowledged exactly in TEST_HIT when the registered tag equals adr_tag. */
  lemma AckExactlyOnHit(g: Layout, m: Machine, i: Inputs)
    requires Valid(g, m) && Fits(g, i)
    ensures Out(g, m, i).ack <==> m.state == TestHit && TagOut(g, m).tag == AdrTag(g, i.adr)
  {
  }

  /** A hit acknowledges and returns to IDLE; with we set it rewrites the tag
      record as the same tag, dirty; on a write cycle it stores the selected
      bytes of the front-end word at lane adr_offset of the line. */
  lemma HitCompletes(g: Layout, m: Machine, i: Inputs)
    requires Valid(g, m) && Fits(g, i) && m.state == TestHit && Hit(g, m, i)
    ensures Out(g, m, i).ack && Next(g, m, i).state == Idle
    ensures Next(g, m, i).tags ==
      if i.we then m.tags[AdrLine(g, i.adr) := TagEntry(TagOut(g, m).tag, true)] else m.tags
    ensures Next(g, m, i).data ==
      if i.cyc && i.stb && i.we then
        m.data[AdrLine(g, i.adr) := WriteWord(LaneCount(g), WordBytes(g), m.data[AdrLine(g, i.adr)],
                                              AdrOffset(g, i.adr), i.sel, i.datW)]
      else m.data
  {
  }

  /** A miss is never acknowledged and writes nothing; it goes to EVICT_REQUEST
      exactly when the stored record is dirty, otherwise to REFILL_WRTAG. */
  lemma MissRouting(g: Layout, m: Machine, i: Inputs)
    requires Valid(g, m) && Fits(g, i) && m.state == TestHit && !Hit(g, m, i)
    ensures Next(g, m, i).state == if TagOut(g, m).dirty then EvictRequest else RefillWrTag
    ensures IsEvict(Next(g, m, i).state) <==> TagOut(g, m).dirty
    ensures !Out(g, m, i).ack && !Out(g, m, i).lasmiStb
    ensures Next(g, m, i).data == m.data && Next(g, m, i).tags == m.tags
  {
  }

  /** Only the addressed line can change. The front-end changes it only in the
      acknowledged write cycle, and then only the sel bytes of lane adr_offset;
      otherwise only REFILL_DATA writes it. */
  lemma DataWriteDiscipline(g: Layout, m: Machine, i: Inputs)
    requires Valid(g, m) && Fits(g, i)
    ensures forall k :: 0 <= k < LineCount(g) && k != AdrLine(g, i.adr) ==>
      Next(g, m, i).data[k] == m.data[k]
    ensures Next(g, m, i).data[AdrLine(g, i.adr)] != m.data[AdrLine(g, i.adr)] ==>
      m.state == RefillData || (Out(g, m, i).ack && i.cyc && i.stb && i.we)
    ensures m.state != RefillData && Out(g, m, i).ack && i.cyc && i.stb && i.we ==>
      forall c, j :: 0 <= c < LaneCount(g) && 0 <= j < WordBytes(g) ==>
        Next(g, m, i).data[AdrLine(g, i.adr)][c][j] ==
          if c == Chunk(LaneCount(g), AdrOffset(g, i.adr)) && i.sel[j] then i.datW[j]
          else m.data[AdrLine(g, i.adr)][c][j]
  {
  }

  /** The Wishbone read data is the lane picked by adr_offset_r out of the
      line the data port registered in the previous cycle. */
  lemma ReadDataIsRegisteredLane(g: Layout, m: Machine, i: Inputs, prev: Machine, p: Inputs)
    requires Valid(g, prev) && Fits(g, p) && m == Next(g, prev, p) && Fits(g, i)
    ensures Out(g, m, i).datR ==
      Choose(Next(g, prev, p).data[AdrLine(g, p.adr)], AdrOffset(g, p.adr))
  {
  }

  /** EVICT_REQUEST strobes a write at Cat(adr_line, stored tag) until req_ack. */
  lemma EvictRequestHolds(g: Layout, m: Machine, i: Inputs)
    requires Valid(g, m) && Fits(g, i) && m.state == EvictRequest
    ensures Out(g, m, i).lasmiStb && Out(g, m, i).lasmiWe
    ensures Out(g, m, i).lasmiAdr == BackEndAdr(g, AdrLine(g, i.adr), TagOut(g, m).tag) % Pow2(g.aw)
    ensures Next(g, m, i).state == if i.reqAck then EvictWaitDataAck else EvictRequest
    ensures Next(g, m, i).data == m.data && Next(g, m, i).tags == m.tags
  {
  }

  /** EVICT_DATA drives the registered line with every byte enabled, then goes to REFILL_WRTAG. */
  lemma EvictDataDrivesLine(g: Layout, m: Machine, i: Inputs)
    requires Valid(g, m) && Fits(g, i) && m.state == EvictData
    ensures Out(g, m, i).lasmiDatW == DataOut(g, m)
    ensures Out(g, m, i).lasmiDatWe == FullMask(LaneCount(g), WordBytes(g))
    ensures !Out(g, m, i).lasmiStb
    ensures Next(g, m, i).state == RefillWrTag
    ensures Next(g, m, i).data == m.data && Next(g, m, i).tags == m.tags
  {
  }

  /** REFILL_WRTAG records adr_tag as clean; in the next cycle the registered
      tag is the new one, so the back-end address is the requested line's. */
  lemma RefillWrTagSetsAddress(g: Layout, m: Machine, i: Inputs, i2: Inputs)
    requires Valid(g, m) && Fits(g, i) && Fits(g, i2) && m.state == RefillWrTag
    requires i2.adr == i.adr
    ensures Next(g, m, i).tags == m.tags[AdrLine(g, i.adr) := TagEntry(AdrTag(g, i.adr), false)]
    ensures Next(g, m, i).data == m.data
    ensures Next(g, m, i).state == RefillRequest
    ensures TagOut(g, Next(g, m, i)) == TagEntry(AdrTag(g, i.adr), false)
    ensures Out(g, Next(g, m, i), i2).lasmiAdr == i.adr / Pow2(g.offsetBits) % Pow2(g.aw)
  {
    BackEndAdrOfRequest(g, i.adr);
  }

  /** REFILL_REQUEST strobes a read (we low) until req_ack. */
  lemma RefillRequestHolds(g: Layout, m: Machine, i: Inputs)
    requires Valid(g, m) && Fits(g, i) && m.state == RefillRequest
    ensures Out(g, m, i).lasmiStb && !Out(g, m, i).lasmiWe
    ensures Next(g, m, i).state == if i.reqAck then RefillWaitDataAck else RefillRequest
    ensures Next(g, m, i).data == m.data && Next(g, m, i).tags == m.tags
  {
  }

  /** REFILL_DATA writes all byte lanes of the line with the back-end read data and re-tests. */
  lemma RefillDataCaptures(g: Layout, m: Machine, i: Inputs)
    requires Valid(g, m) && Fits(g, i) && m.state == RefillData
    ensures Next(g, m, i).data == m.data[AdrLine(g, i.adr) :=
      MaskedWrite(LaneCount(g), WordBytes(g), m.data[AdrLine(g, i.adr)], i.lasmiDatR,
                  FullMask(LaneCount(g), WordBytes(g)))]
    ensures Next(g, m, i).data[AdrLine(g, i.adr)] == i.lasmiDatR
    ensures Next(g, m, i).tags == m.tags
    ensures Next(g, m, i).state == TestHit
  {
    MaskedWriteExtremes(LaneCount(g), WordBytes(g), m.data[AdrLine(g, i.adr)], i.lasmiDatR);
  }

  /** The waiting and delay states drive nothing and write nothing. */
  lemma WaitingIsQuiet(g: Layout, m: Machine, i: Inputs)
    requires Valid(g, m) && Fits(g, i)
    requires m.state.EvictWaitDataAck? || m.state.EvictDelay? ||
             m.state.RefillWaitDataAck? || m.state.RefillDelay?
    ensures !Out(g, m, i).ack && !Out(g, m, i).lasmiStb && !Out(g, m, i).lasmiWe
    ensures Out(g, m, i).lasmiDatWe == NoMask(LaneCount(g), WordBytes(g))
    ensures Next(g, m, i).data == m.data && Next(g, m, i).tags == m.tags
  {
  }

  /** One cycle along a delayed-entry chain: dat_ack starts it with
      latency - 1 cycles to go (none for a latency of 1), each delay state
      counts one down, and nothing is written meanwhile. */
  lemma DelayChainStep(g: Layout, m: Machine, i: Inputs)
    requires Valid(g, m) && Fits(g, i)
    ensures m.state == EvictWaitDataAck && i.datAck ==>
      Next(g, m, i).state == if g.writeLatency == 1 then EvictData else EvictDelay(g.writeLatency - 1)
    ensures m.state.EvictDelay? ==>
      Next(g, m, i).state == if m.state.left == 1 then EvictData else EvictDelay(m.state.left - 1)
    ensures m.state == RefillWaitDataAck && i.datAck ==>
      Next(g, m, i).state == if g.readLatency == 1 then RefillData else RefillDelay(g.readLatency - 1)
    ensures m.state.RefillDelay? ==>
      Next(g, m, i).state == if m.state.left == 1 then RefillData else RefillDelay(m.state.left - 1)
    ensures m.state.EvictWaitDataAck? || m.state.EvictDelay? ||
            m.state.RefillWaitDataAck? || m.state.RefillDelay? ==>
      Next(g, m, i).data == m.data && Next(g, m, i).tags == m.tags
  {
  }
}
