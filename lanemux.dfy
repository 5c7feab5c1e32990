/**
 * The width adapter between front-end words and back-end lines.
 *
 * A line is a sequence of n chunks of one front-end word each, listed in bit
 * order: chunk c holds bits [c*w, (c+1)*w) of the back-end word. Each chunk
 * is a sequence of bytes, least significant first. Lane numbering is the
 * reverse of bit order: the front-end word at offset o lives in chunk n-1-o,
 * for writes and reads alike.
 */
module LaneMux {

  type Byte = b: nat | b < 256

  /** A back-end line: n chunks of wb bytes. */
  type Line = seq<seq<Byte>>

  /** A byte-enable vector laid out like a line. */
  type Mask = seq<seq<bool>>

  predicate Shaped<T>(x: seq<seq<T>>, n: nat, wb: nat) {
    |x| == n && forall c :: 0 <= c < n ==> |x[c]| == wb
  }

  /** The chunk that holds lane o. */
  function Chunk(n: nat, o: nat): (c: nat)
    requires o < n
    ensures c < n
  {
    n - 1 - o
  }

  /** The front-end word copied into every chunk of a line. */
  function Replicate(n: nat, word: seq<Byte>): (r: Line)
    ensures Shaped(r, n, |word|)
    ensures forall c :: 0 <= c < n ==> r[c] == word
  {
    seq(n, _ => word)
  }

  /** A line of zero bytes: the content of never-written memory. */
  function ZeroLine(n: nat, wb: nat): (r: Line)
    ensures Shaped(r, n, wb)
    ensures forall c, j :: 0 <= c < n && 0 <= j < wb ==> r[c][j] == 0
  {
    seq(n, _ => seq(wb, _ => 0))
  }

  /** Every byte enabled. */
  function FullMask(n: nat, wb: nat): (m: Mask)
    ensures Shaped(m, n, wb)
    ensures forall c, j :: 0 <= c < n && 0 <= j < wb ==> m[c][j]
  {
    seq(n, _ => seq(wb, _ => true))
  }

  /** No byte enabled. */
  function NoMask(n: nat, wb: nat): (m: Mask)
    ensures Shaped(m, n, wb)
    ensures forall c, j :: 0 <= c < n && 0 <= j < wb ==> !m[c][j]
  {
    seq(n, _ => seq(wb, _ => false))
  }

  /** The byte enables of a front-end write: the sel bits at lane o, nothing elsewhere. */
  function LaneMask(n: nat, sel: seq<bool>, o: nat): (m: Mask)
    requires o < n
    ensures Shaped(m, n, |sel|)
    ensures forall c, j :: 0 <= c < n && 0 <= j < |sel| ==> (m[c][j] <==> c == Chunk(n, o) && sel[j])
  {
    seq(n, c => if c == Chunk(n, o) then sel else seq(|sel|, _ => false))
  }

  /** A memory write under a byte mask: enabled bytes take the new value. */
  function MaskedWrite(n: nat, wb: nat, line: Line, value: Line, mask: Mask): (r: Line)
    requires Shaped(line, n, wb) && Shaped(value, n, wb) && Shaped(mask, n, wb)
    ensures Shaped(r, n, wb)
    ensures forall c, j :: 0 <= c < n && 0 <= j < wb ==>
      r[c][j] == (if mask[c][j] then value[c][j] else line[c][j])
  {
    seq(n, c requires 0 <= c < n =>
      seq(wb, j requires 0 <= j < wb => if mask[c][j] then value[c][j] else line[c][j]))
  }

  /** The front-end word of lane o, out of a line: lane 0 is the most
      significant chunk, the last lane the least significant. */
  function Choose(line: Line, o: nat): (r: seq<Byte>)
    requires o < |line|
    ensures r == line[|line| - 1 - o]
  {
    line[Chunk(|line|, o)]
  }

  /** A word with the sel bytes of word written over prior. */
  function Merge(prior: seq<Byte>, word: seq<Byte>, sel: seq<bool>): (r: seq<Byte>)
    requires |prior| == |word| == |sel|
    ensures |r| == |prior|
    ensures forall j :: 0 <= j < |prior| ==> r[j] == (if sel[j] then word[j] else prior[j])
  {
    seq(|prior|, j requires 0 <= j < |prior| => if sel[j] then word[j] else prior[j])
  }

  /** The front-end write path: the word replicated across the line, enabled at lane o by sel. */
  function WriteWord(n: nat, wb: nat, line: Line, o: nat, sel: seq<bool>, word: seq<Byte>): (r: Line)
    requires Shaped(line, n, wb) && o < n && |sel| == wb && |word| == wb
    ensures Shaped(r, n, wb)
    ensures forall c, j :: 0 <= c < n && 0 <= j < wb ==>
      r[c][j] == (if c == Chunk(n, o) && sel[j] then word[j] else line[c][j])
  {
    MaskedWrite(n, wb, line, Replicate(n, word), LaneMask(n, sel, o))
  }

  /** Reading lane o after writing it gives the merged word; every other lane reads as before. */
  lemma ChooseAfterWrite(n: nat, wb: nat, line: Line, o: nat, sel: seq<bool>, word: seq<Byte>)
    requires Shaped(line, n, wb) && o < n && |sel| == wb && |word| == wb
    ensures Choose(WriteWord(n, wb, line, o, sel, word), o) == Merge(Choose(line, o), word, sel)
    ensures forall o' :: 0 <= o' < n && o' != o ==>
      Choose(WriteWord(n, wb, line, o, sel, word), o') == Choose(line, o')
  {
    var r := WriteWord(n, wb, line, o, sel, word);
    assert Choose(r, o) == Merge(Choose(line, o), word, sel);
    forall o' | 0 <= o' < n && o' != o
      ensures Choose(r, o') == Choose(line, o')
    {
      assert Chunk(n, o') != Chunk(n, o);
    }
  }

  /** A write with every byte enabled replaces the line; one with none leaves it. */
  lemma MaskedWriteExtremes(n: nat, wb: nat, line: Line, value: Line)
    requires Shaped(line, n, wb) && Shaped(value, n, wb)
    ensures MaskedWrite(n, wb, line, value, FullMask(n, wb)) == value
    ensures MaskedWrite(n, wb, line, value, NoMask(n, wb)) == line
  {
    var f := MaskedWrite(n, wb, line, value, FullMask(n, wb));
    var z := MaskedWrite(n, wb, line, value, NoMask(n, wb));
    forall c | 0 <= c < n ensures f[c] == value[c] && z[c] == line[c] { }
  }
}
