/**
 * Construction-time configuration of the cache: the width checks and the
 * split of a front-end word address into TAG | LINE NUMBER | LINE OFFSET.
 */
module Geometry {
  import opened Wrappers
  import opened Arith

  /** The parameters the constructor sees: cachesize (in front-end words), the
      front-end word width, the back-end data and address widths, and the two
      back-end latencies. */
  datatype Config = Config(
    cacheSize: nat, dataWidth: nat, dw: nat, aw: nat,
    writeLatency: int, readLatency: int)

  /** Why construction is refused, in the order the constructor runs into it. */
  datatype ConfigError =
    | NarrowBackEnd          // back-end data width below the front-end word width
    | ZeroDataWidth          // the modulo with a zero-width front-end word divides by zero
    | NotMultiple            // back-end data width not a multiple of the word width
    | RatioNotPowerOfTwo     // width ratio rejected by the base-2 logarithm
    | SizeNotPowerOfTwo      // cachesize rejected by the base-2 logarithm
    | NoLineField            // the line field would be empty (or of negative width)
    | NoTagField             // the tag field would be empty (or of negative width)
    | LatencyTooSmall        // a back-end latency below 1

  /** A configuration that was accepted, with the field widths derived from it. */
  datatype Layout = Layout(
    cacheSize: nat, dataWidth: nat, dw: nat, aw: nat,
    offsetBits: nat, lineBits: nat, tagBits: nat,
    writeLatency: nat, readLatency: nat)

  /** What every accepted layout satisfies. */
  predicate Consistent(g: Layout) {
    && g.dataWidth > 0 && g.dataWidth % 8 == 0
    && g.dw == Pow2(g.offsetBits) * g.dataWidth
    && g.cacheSize == Pow2(g.offsetBits + g.lineBits)
    && g.lineBits >= 1 && g.tagBits >= 1
    && g.tagBits == g.aw + g.offsetBits - g.lineBits
    && g.writeLatency >= 1 && g.readLatency >= 1
  }

  /** The bit length of n - 1, for n >= 1: the least r with n <= 2^r. */
  function CeilLog2(n: nat): (r: nat)
    ensures n <= Pow2(r)
    ensures r > 0 ==> Pow2(r - 1) < n
    decreases n
  {
    if n <= 1 then 0 else 1 + CeilLog2((n + 1) / 2)
  }

  /** The integer base-2 logarithm that insists on a power of two; 0 maps to 0. */
  function Log2Int(n: nat): (r: Option<nat>)
    ensures n == 0 ==> r == Some(0)
    ensures n > 0 && r.Some? ==> Pow2(r.value) == n
  {
    if n == 0 then Some(0)
    else
      var r := CeilLog2(n);
      if Pow2(r) == n then Some(r) else None
  }

  lemma Log2IntOfPow2(k: nat)
    ensures Log2Int(Pow2(k)) == Some(k)
  {
    CeilLog2OfPow2(k);
  }

  lemma {:induction false} CeilLog2OfPow2(k: nat)
    ensures CeilLog2(Pow2(k)) == k
  {
    if k > 0 {
      var p := Pow2(k - 1);
      assert Pow2(k) == 2 * p;
      assert (2 * p + 1) / 2 == p;
      CeilLog2OfPow2(k - 1);
    }
  }

  /** The constructor's checks and field widths. The front-end word is made
      of whole bytes: the Wishbone interface gives sel one bit per byte, and
      the data port writes in 8-bit units. */
  function Configure(c: Config): (r: Result<Layout, ConfigError>)
    requires c.dataWidth % 8 == 0
    ensures r.Ok? ==>
      && c.dataWidth <= c.dw && c.dataWidth > 0 && c.dw % c.dataWidth == 0
      && c.writeLatency >= 1 && c.readLatency >= 1
      && Consistent(r.value)
      && r.value.cacheSize == c.cacheSize && r.value.dataWidth == c.dataWidth
      && r.value.dw == c.dw && r.value.aw == c.aw
      && r.value.writeLatency == c.writeLatency && r.value.readLatency == c.readLatency
      && r.value.tagBits == c.aw + r.value.offsetBits - r.value.lineBits
    ensures c.dw < c.dataWidth ==> r == Err(NarrowBackEnd)
    ensures c.dataWidth <= c.dw && c.dataWidth > 0 && c.dw % c.dataWidth != 0 ==> r == Err(NotMultiple)
  {
    if c.dw < c.dataWidth then Err(NarrowBackEnd)
    else if c.dataWidth == 0 then Err(ZeroDataWidth)
    else if c.dw % c.dataWidth != 0 then Err(NotMultiple)
    else match Log2Int(c.dw / c.dataWidth)
      case None => Err(RatioNotPowerOfTwo)
      case Some(offsetBits) =>
        match Log2Int(c.cacheSize)
        case None => Err(SizeNotPowerOfTwo)
        case Some(sizeBits) =>
          var lineBits: int := sizeBits - offsetBits;
          var tagBits: int := c.aw + offsetBits - lineBits;
          if lineBits <= 0 then Err(NoLineField)
          else if tagBits <= 0 then Err(NoTagField)
          else if c.writeLatency < 1 || c.readLatency < 1 then Err(LatencyTooSmall)
          else
            var l := Layout(c.cacheSize, c.dataWidth, c.dw, c.aw,
                            offsetBits, lineBits, tagBits, c.writeLatency, c.readLatency);
            AcceptedConsistent(c, l, sizeBits);
            Ok(l)
  }

  /** The widths Configure derives once every check has passed form a consistent layout. */
  lemma AcceptedConsistent(c: Config, l: Layout, sizeBits: nat)
    requires c.dataWidth > 0 && c.dataWidth % 8 == 0 && c.dw % c.dataWidth == 0
    requires Pow2(l.offsetBits) == c.dw / c.dataWidth && Pow2(sizeBits) == c.cacheSize
    requires l.lineBits == sizeBits - l.offsetBits >= 1
    requires l.tagBits == c.aw + l.offsetBits - l.lineBits >= 1
    requires c.writeLatency >= 1 && c.readLatency >= 1
    requires l == Layout(c.cacheSize, c.dataWidth, c.dw, c.aw,
                         l.offsetBits, l.lineBits, l.tagBits, c.writeLatency, c.readLatency)
    ensures Consistent(l)
  {
    assert c.dw == c.dw / c.dataWidth * c.dataWidth;
    assert l.offsetBits + l.lineBits == sizeBits;
  }

  /** Every configuration of the documented shape is accepted, with the expected widths. */
  lemma ConfigureAccepts(c: Config, offsetBits: nat, lineBits: nat)
    requires c.dataWidth > 0 && c.dataWidth % 8 == 0 && c.dw == Pow2(offsetBits) * c.dataWidth
    requires c.cacheSize == Pow2(offsetBits + lineBits)
    requires lineBits >= 1 && c.aw + offsetBits > lineBits
    requires c.writeLatency >= 1 && c.readLatency >= 1
    ensures Configure(c) == Ok(Layout(c.cacheSize, c.dataWidth, c.dw, c.aw,
      offsetBits, lineBits, c.aw + offsetBits - lineBits, c.writeLatency, c.readLatency))
  {
    assert c.dw >= c.dataWidth by { MulLe(1, Pow2(offsetBits), c.dataWidth); }
    DivModUnique(c.dw, c.dataWidth, Pow2(offsetBits), 0);
    Log2IntOfPow2(offsetBits);
    Log2IntOfPow2(offsetBits + lineBits);
  }

  /** The example geometry: 8-bit words, 32-bit lines, 16 words, 8 address bits. */
  lemma ConfigureExample()
    ensures Configure(Config(16, 8, 32, 8, 3, 1)) == Ok(Layout(16, 8, 32, 8, 2, 2, 8, 3, 1))
  {
    assert Pow2(2) == 4 && Pow2(4) == 16;
    ConfigureAccepts(Config(16, 8, 32, 8, 3, 1), 2, 2);
  }

  // ---- the address split ----

  /** Width of the front-end word address the cache decodes. */
  function AddressBits(g: Layout): nat { g.aw + g.offsetBits }

  /** The three slices of an address, least significant first; each fits its field. */
  function AdrOffset(g: Layout, adr: nat): (r: nat)
    ensures r < Pow2(g.offsetBits)
  {
    adr % Pow2(g.offsetBits)
  }

  function AdrLine(g: Layout, adr: nat): (r: nat)
    ensures r < Pow2(g.lineBits)
  {
    adr / Pow2(g.offsetBits) % Pow2(g.lineBits)
  }

  function AdrTag(g: Layout, adr: nat): (r: nat)
    ensures r < Pow2(g.tagBits)
  {
    adr / Pow2(g.offsetBits) / Pow2(g.lineBits) % Pow2(g.tagBits)
  }

  /** TAG | LINE | OFFSET, concatenated from the least significant field up. */
  function Compose(g: Layout, tag: nat, line: nat, offset: nat): nat {
    offset + Pow2(g.offsetBits) * (line + Pow2(g.lineBits) * tag)
  }

  /** The back-end line address Cat(line, tag): line in the low bits. */
  function BackEndAdr(g: Layout, line: nat, tag: nat): (r: nat)
    ensures line < Pow2(g.lineBits) ==> r % Pow2(g.lineBits) == line && r / Pow2(g.lineBits) == tag
  {
    var r := line + Pow2(g.lineBits) * tag;
    if line < Pow2(g.lineBits) then
      DivModUnique(r, Pow2(g.lineBits), tag, line);
      r
    else r
  }

  /** The fields' widths as the constructor derives them: offset and line fill
      the low bits of the address, and the tag field reaches offsetBits past
      the address width. */
  lemma FieldWidths(g: Layout)
    requires Consistent(g)
    ensures g.offsetBits + g.lineBits + g.tagBits == AddressBits(g) + g.offsetBits
    ensures g.lineBits + g.tagBits == g.aw + g.offsetBits
  {
  }

  /** Splitting an address and concatenating the fields gives the address back. */
  lemma SplitCompose(g: Layout, adr: nat)
    requires Consistent(g) && adr < Pow2(AddressBits(g))
    ensures Compose(g, AdrTag(g, adr), AdrLine(g, adr), AdrOffset(g, adr)) == adr
  {
    var P, Q, R := Pow2(g.offsetBits), Pow2(g.lineBits), Pow2(g.tagBits);
    Pow2Add(g.offsetBits, g.lineBits + g.tagBits);
    Pow2Add(g.lineBits, g.tagBits);
    if AddressBits(g) < g.offsetBits + g.lineBits + g.tagBits {
      Pow2Monotone(AddressBits(g), g.offsetBits + g.lineBits + g.tagBits);
    }
    SliceConcat(adr, P, Q, R);
  }

  /** Concatenating in-range fields and splitting again gives the fields back. */
  lemma ComposeSplit(g: Layout, tag: nat, line: nat, offset: nat)
    requires offset < Pow2(g.offsetBits) && line < Pow2(g.lineBits) && tag < Pow2(g.tagBits)
    ensures AdrOffset(g, Compose(g, tag, line, offset)) == offset
    ensures AdrLine(g, Compose(g, tag, line, offset)) == line
    ensures AdrTag(g, Compose(g, tag, line, offset)) == tag
  {
    ConcatSlice(offset, line, tag, Pow2(g.offsetBits), Pow2(g.lineBits), Pow2(g.tagBits));
  }

  /** With no offset bits the offset is always 0: the front-end word is the whole line. */
  lemma NoOffsetField(g: Layout, adr: nat)
    requires g.offsetBits == 0
    ensures AdrOffset(g, adr) == 0
    ensures AdrLine(g, adr) == adr % Pow2(g.lineBits)
    ensures AdrTag(g, adr) == adr / Pow2(g.lineBits) % Pow2(g.tagBits)
  {
  }

  /** The back-end address built from a request's own line and tag, cut to the
      back-end address width, is the back-end line that holds the requested word. */
  lemma BackEndAdrOfRequest(g: Layout, adr: nat)
    requires Consistent(g)
    ensures BackEndAdr(g, AdrLine(g, adr), AdrTag(g, adr)) % Pow2(g.aw) == adr / Pow2(g.offsetBits) % Pow2(g.aw)
  {
    var Q, R, A, P := Pow2(g.lineBits), Pow2(g.tagBits), Pow2(g.aw), Pow2(g.offsetBits);
    var x := adr / P;
    TwoFields(x, Q, R);
    assert BackEndAdr(g, AdrLine(g, adr), AdrTag(g, adr)) == x % (Q * R);
    Pow2Add(g.lineBits, g.tagBits);
    Pow2Add(g.aw, g.offsetBits);
    assert Q * R == A * P;
    ModOfMod(x, A, P);
  }
}
