/**
  Firmware images: the sections of an input, the table of contents (TOC) and the page table that the
  post-processor appends (src/utils/genextbin.c, src/utils/rprcfmt.h), and a reader of the result.
 */
module Image {
  import opened Types
  import opened Bytes
  import P = PageTable
  import opened FirmwareMmu

  const FW_RESOURCE: nat := 0
  const FW_MMU: nat := 3
  const FW_SIGNATURE: nat := 4
  const MMU_PA: nat := 0xB420_0000
  const SIGNATURE_PA: nat := 0xB428_0000
  const NONE: nat := 0xFFFF_FFFF      // -1 as a u32
  const ROWS: nat := 30
  const LIMIT: nat := 0x7000_0000     // keeps every offset an int

  // ---------------------------------------------------------------- sections

  /** A section starts at p: u32 type, u64 da, u32 len, content. */
  predicate HasSection(d: seq<Byte>, p: nat) {
    p + 16 <= |d| && p + 16 + U32(d, p + 12) <= |d|
  }

  function Next(d: seq<Byte>, p: nat): nat
    requires HasSection(d, p)
  {
    p + 16 + U32(d, p + 12)
  }

  /** Whole sections from p to the end of the file. */
  predicate Tiles(d: seq<Byte>, p: nat)
    decreases |d| - p
  {
    p == |d| || (p < |d| && HasSection(d, p) && Tiles(d, Next(d, p)))
  }

  function Content(d: seq<Byte>, p: nat): seq<Byte>
    requires HasSection(d, p)
  {
    d[p + 16..Next(d, p)]
  }

  /** The header: "RPRC", a version, and the length of the text before the first section. */
  predicate HasHeader(d: seq<Byte>) {
    |d| >= 12 && d[..4] == [0x52, 0x50, 0x52, 0x43]
  }

  function First(d: seq<Byte>): nat
    requires HasHeader(d)
  {
    12 + U32(d, 8)
  }

  datatype Check = Clean | BadMagic | Processed | Truncated

  /** The loop of check_image; Truncated where it would read past the end. */
  function CheckSections(d: seq<Byte>, p: nat): Check
    decreases |d| - p
  {
    if p >= |d| then Clean
    else if p + 16 > |d| then Truncated
    else if U32(d, p) == FW_MMU || U32(d, p) == FW_SIGNATURE then Processed
    else CheckSections(d, p + 16 + U32(d, p + 12))
  }

  function CheckImage(d: seq<Byte>): Check {
    if |d| < 12 then Truncated
    else if !HasHeader(d) then BadMagic
    else CheckSections(d, First(d))
  }

  // ---------------------------------------------------------------- resources

  /** Resource i of the section at p: 76 bytes with type, da, pa, len, flags and a name. */
  function Resource(d: seq<Byte>, p: nat, i: nat): P.Region
    requires HasSection(d, p) && 76 * (i + 1) <= U32(d, p + 12)
  {
    var at := p + 16 + 76 * i;
    P.Region(U64(d, at + 4), U64(d, at + 12), U32(d, at + 20))
  }

  /** Carveouts and device memory with a known physical address. */
  predicate IsMemory(d: seq<Byte>, p: nat, i: nat)
    requires HasSection(d, p) && 76 * (i + 1) <= U32(d, p + 12)
  {
    U32(d, p + 16 + 76 * i) <= 1 && Resource(d, p, i).pa != 0
  }

  /** The list after the first n resources of the section at p. */
  function AfterResources(d: seq<Byte>, p: nat, n: nat, added: seq<P.Region>): seq<P.Region>
    requires HasSection(d, p) && 76 * n <= U32(d, p + 12)
  {
    if n == 0 then added
    else
      var before := AfterResources(d, p, n - 1, added);
      if IsMemory(d, p, n - 1) then Added(before, Resource(d, p, n - 1)) else before
  }

  function AfterSection(d: seq<Byte>, p: nat, added: seq<P.Region>): seq<P.Region>
    requires HasSection(d, p)
  {
    if U32(d, p) == FW_RESOURCE then AfterResources(d, p, U32(d, p + 12) / 76, added) else added
  }

  /** The list after all sections from p on. */
  function AfterSections(d: seq<Byte>, p: nat, added: seq<P.Region>): seq<P.Region>
    requires Tiles(d, p)
    decreases |d| - p
  {
    if p == |d| then added else AfterSections(d, Next(d, p), AfterSection(d, p, added))
  }

  // ---------------------------------------------------------------- the table of contents

  datatype Row = Row(id: nat, offset: nat, pa: nat, len: nat)

  predicate RowFits(r: Row) {
    r.id < WORD && r.offset < WORD && r.pa < WORD && r.len < WORD
  }

  /** The rows after the section at p: a new one if its address translates. */
  function AfterRow(d: seq<Byte>, p: nat, added: seq<P.Region>, rows: seq<Row>): seq<Row>
    requires HasSection(d, p)
  {
    match P.VaToPa(Used(AfterSection(d, p, added)), U64(d, p + 4))
    case None => rows
    case Some(pa) => rows + [Row(|rows| + 1, p + 16, pa % WORD, U32(d, p + 12))]
  }

  function Rows(d: seq<Byte>, p: nat, added: seq<P.Region>, rows: seq<Row>): seq<Row>
    requires Tiles(d, p)
    decreases |d| - p
  {
    if p == |d| then rows
    else Rows(d, Next(d, p), AfterSection(d, p, added), AfterRow(d, p, added, rows))
  }

  /** The fwrite of an array of u32. */
  function WordBytes(t: seq<nat>): (s: seq<Byte>)
    ensures |s| == 4 * |t|
  {
    if t == [] then [] else WordBytes(t[..|t| - 1]) + Le32(t[|t| - 1])
  }

  function RowWords(r: Row): (s: seq<nat>)
    ensures |s| == 4
  {
    [r.id, r.offset, r.pa, r.len]
  }

  function RowBytes(r: Row): (s: seq<Byte>)
    ensures |s| == 16
  {
    WordBytes(RowWords(r))
  }

  function TocBytes(rows: seq<Row>): (s: seq<Byte>)
    ensures |s| == 16 * |rows|
  {
    if rows == [] then [] else TocBytes(rows[..|rows| - 1]) + RowBytes(rows[|rows| - 1])
  }

  function SectionHeader(kind: nat, da: nat, len: nat): (s: seq<Byte>)
    ensures |s| == 16
  {
    Le32(kind) + Le64(da) + Le32(len)
  }

  function MmuRow(n: nat, size: nat): Row {
    Row(n + 1, size + 16, MMU_PA, 4 * P.ENTRIES)
  }

  function EndRow(n: nat): Row {
    Row(n + 2, NONE, NONE, NONE)
  }

  /** The input with the page table section and the signature section, which holds the TOC. */
  function Output(d: seq<Byte>, rows: seq<Row>, t: seq<nat>): seq<Byte> {
    var toc := rows + [MmuRow(|rows|, |d|), EndRow(|rows|)];
    d + SectionHeader(FW_MMU, MMU_PA, 4 * P.ENTRIES) + WordBytes(t) +
    SectionHeader(FW_SIGNATURE, SIGNATURE_PA, 16 * |toc| + 0x148) + TocBytes(toc) +
    Le32(|d| + 32 + 4 * |t|)
  }

  // ---------------------------------------------------------------- a reader

  /** Rows from `at` to the one whose offset is -1; None if the file ends first. */
  function ReadRows(o: seq<Byte>, at: nat): Option<seq<Row>>
    decreases |o| - at
  {
    if at + 16 > |o| then None
    else if U32(o, at + 4) == NONE then Some([])
    else
      match ReadRows(o, at + 16)
      case None => None
      case Some(rest) => Some([Row(U32(o, at), U32(o, at + 4), U32(o, at + 8), U32(o, at + 12))] + rest)
  }

  /** The last word of the file is the offset of the TOC. */
  function ReadToc(o: seq<Byte>): Option<seq<Row>> {
    if |o| < 4 then None else ReadRows(o, U32(o, |o| - 4))
  }

  /** A part that the loader must place: a physical address and the bytes for it. */
  datatype Part = Part(pa: nat, content: seq<Byte>)

  /** The parts that rows describe. */
  function Parts(o: seq<Byte>, rows: seq<Row>): seq<Part>
    requires forall i :: 0 <= i < |rows| ==> rows[i].offset + rows[i].len <= |o|
  {
    if rows == [] then []
    else
      var r := rows[|rows| - 1];
      Parts(o, rows[..|rows| - 1]) + [Part(r.pa, o[r.offset..r.offset + r.len])]
  }

  /** The contents of the sections from p on whose addresses translate, without any offsets. */
  function Translated(d: seq<Byte>, p: nat, added: seq<P.Region>): seq<Part>
    requires Tiles(d, p)
    decreases |d| - p
  {
    if p == |d| then []
    else
      var now := AfterSection(d, p, added);
      var rest := Translated(d, Next(d, p), now);
      match P.VaToPa(Used(now), U64(d, p + 4))
      case None => rest
      case Some(pa) => [Part(pa % WORD, Content(d, p))] + rest
  }
}
