/**
  Firmware images as what they mean: sections and resources as values, the bytes that a build tool
  writes for them (src/utils/rprcfmt.h), and what the post-processor must make of them.  Nothing here
  reads a byte; ImageRoundTrip and ImageMeaning connect it to the code.
 */
module ImageSource {
  import opened Bytes
  import P = PageTable

  const ADDRESSES: nat := WORD * WORD    // 64-bit addresses

  /** struct rproc_fw_resource */
  datatype Res = Res(kind: nat, da: nat, pa: nat, len: nat, flags: nat, name: seq<Byte>)

  predicate ResFits(r: Res) {
    r.kind < WORD && r.da < ADDRESSES && r.pa < ADDRESSES && r.len < WORD && r.flags < WORD && |r.name| == 48
  }

  function ResBytes(r: Res): (s: seq<Byte>)
    ensures |r.name| == 48 ==> |s| == 76
  {
    Le32(r.kind) + (Le64(r.da) + (Le64(r.pa) + (Le32(r.len) + (Le32(r.flags) + r.name))))
  }

  function TableBytes(rs: seq<Res>): seq<Byte> {
    if rs == [] then [] else ResBytes(rs[0]) + TableBytes(rs[1..])
  }

  /** A resource table, which may end in fewer bytes than a resource has, or any other section. */
  datatype Section =
    | Resources(da: nat, table: seq<Res>, tail: seq<Byte>)
    | Plain(kind: nat, da: nat, bytes: seq<Byte>)
  {
    function Kind(): nat {
      if Resources? then 0 else kind
    }

    function Content(): seq<Byte> {
      if Resources? then TableBytes(table) + tail else bytes
    }
  }

  predicate SectionFits(s: Section) {
    && s.da < ADDRESSES && |s.Content()| < WORD
    && (s.Resources? ==> |s.tail| < 76 && forall i :: 0 <= i < |s.table| ==> ResFits(s.table[i]))
    && (s.Plain? ==> 0 < s.kind < WORD)
  }

  /** struct rproc_fw_section */
  function SectionBytes(s: Section): seq<Byte> {
    Le32(s.Kind()) + (Le64(s.da) + (Le32(|s.Content()|) + s.Content()))
  }

  function SectionsBytes(ss: seq<Section>): seq<Byte> {
    if ss == [] then [] else SectionBytes(ss[0]) + SectionsBytes(ss[1..])
  }

  datatype File = File(version: nat, text: seq<Byte>, sections: seq<Section>)

  predicate FileFits(f: File) {
    |f.text| < WORD && forall i :: 0 <= i < |f.sections| ==> SectionFits(f.sections[i])
  }

  /** struct rproc_fw_header and the sections. */
  function FileBytes(f: File): seq<Byte> {
    [0x52, 0x50, 0x52, 0x43] + (Le32(f.version) + (Le32(|f.text|) + (f.text + SectionsBytes(f.sections))))
  }

  // ---------------------------------------------------------------- what the sections ask for

  /** A carveout (0) or device memory (1) whose physical address is known. */
  predicate IsMemory(r: Res) {
    (r.kind == 0 || r.kind == 1) && r.pa != 0
  }

  /** The regions that a table asks for, in order: device address, physical address, length. */
  function Memory(rs: seq<Res>): seq<P.Region> {
    if rs == [] then []
    else
      var r := rs[|rs| - 1];
      Memory(rs[..|rs| - 1]) + (if IsMemory(r) then [P.Region(r.da, r.pa, r.len)] else [])
  }

  function SectionMemory(s: Section): seq<P.Region> {
    if s.Resources? then Memory(s.table) else []
  }

  /** All that the sections ask for. */
  function AllMemory(ss: seq<Section>): seq<P.Region> {
    if ss == [] then [] else SectionMemory(ss[0]) + AllMemory(ss[1..])
  }

  /** The list has room for 20. */
  function Listed(rs: seq<P.Region>): seq<P.Region> {
    if |rs| <= 20 then rs else rs[..20]
  }

  /** A list is searched up to a region without length. */
  function Searched(rs: seq<P.Region>): seq<P.Region> {
    if rs == [] || rs[0].len == 0 then [] else [rs[0]] + Searched(rs[1..])
  }
}
