/**
  From the meaning of an image to the output: the bytes of any image are read as its sections and
  resources, so each section that lies in a declared memory has its part in the output.
 */
module ImageMeaning {
  import opened Types
  import opened Bytes
  import P = PageTable
  import M = FirmwareMmu
  import I = Image
  import opened ImageSource

  // ---------------------------------------------------------------- bytes in place

  /** These bytes stand in the file at p. */
  predicate Has(d: seq<Byte>, p: nat, w: seq<Byte>) {
    p + |w| <= |d| && d[p..p + |w|] == w
  }

  lemma HasBoth(d: seq<Byte>, p: nat, a: seq<Byte>, b: seq<Byte>)
    requires Has(d, p, a + b)
    ensures Has(d, p, a) && Has(d, p + |a|, b)
  {
    var w := d[p..p + |a + b|];
    assert w[..|a|] == a && w[|a|..] == b;
    assert d[p..p + |a|] == w[..|a|];
    assert d[p + |a|..p + |a| + |b|] == w[|a|..];
  }

  lemma HasWord(d: seq<Byte>, p: nat, n: nat, rest: seq<Byte>)
    requires Has(d, p, Le32(n) + rest) && n < WORD
    ensures p + 4 <= |d| && U32(d, p) == n && Has(d, p + 4, rest)
  {
    HasBoth(d, p, Le32(n), rest);
    ReadBack(d, p, n);
  }

  lemma HasLong(d: seq<Byte>, p: nat, n: nat, rest: seq<Byte>)
    requires Has(d, p, Le64(n) + rest) && n < ADDRESSES
    ensures p + 8 <= |d| && U64(d, p) == n && Has(d, p + 8, rest)
  {
    HasBoth(d, p, Le64(n), rest);
    HasBoth(d, p, Le32(n % WORD), Le32(n / WORD));
    HighWord(n);
    ReadBack(d, p, n % WORD);
    ReadBack(d, p + 4, n / WORD);
  }

  lemma HighWord(n: nat)
    requires n < ADDRESSES
    ensures n / WORD < WORD && n % WORD + WORD * (n / WORD) == n
  {
  }

  // ---------------------------------------------------------------- resources

  lemma {:induction false} TableSize(rs: seq<Res>)
    requires forall i :: 0 <= i < |rs| ==> ResFits(rs[i])
    ensures |TableBytes(rs)| == 76 * |rs|
  {
    if rs != [] {
      assert ResFits(rs[0]);
      TableSize(rs[1..]);
    }
  }

  lemma {:induction false} HasRes(d: seq<Byte>, p: nat, rs: seq<Res>, i: nat)
    requires (forall k :: 0 <= k < |rs| ==> ResFits(rs[k])) && i < |rs| && Has(d, p, TableBytes(rs))
    ensures Has(d, p + 76 * i, ResBytes(rs[i]))
    decreases i
  {
    assert ResFits(rs[0]);
    HasBoth(d, p, ResBytes(rs[0]), TableBytes(rs[1..]));
    if i > 0 {
      HasRes(d, p + 76, rs[1..], i - 1);
    }
  }

  lemma ResFields(d: seq<Byte>, at: nat, r: Res)
    requires ResFits(r) && Has(d, at, ResBytes(r))
    ensures at + 76 <= |d| && U32(d, at) == r.kind && U64(d, at + 4) == r.da && U64(d, at + 12) == r.pa && U32(d, at + 20) == r.len
  {
    HasWord(d, at, r.kind, Le64(r.da) + (Le64(r.pa) + (Le32(r.len) + (Le32(r.flags) + r.name))));
    HasLong(d, at + 4, r.da, Le64(r.pa) + (Le32(r.len) + (Le32(r.flags) + r.name)));
    HasLong(d, at + 12, r.pa, Le32(r.len) + (Le32(r.flags) + r.name));
    HasWord(d, at + 20, r.len, Le32(r.flags) + r.name);
  }

  // ---------------------------------------------------------------- sections

  /** The section s is encoded at p. */
  predicate Encoded(d: seq<Byte>, p: nat, s: Section) {
    SectionFits(s) && Has(d, p, SectionBytes(s))
  }

  lemma SectionFields(d: seq<Byte>, p: nat, s: Section)
    requires Encoded(d, p, s)
    ensures I.HasSection(d, p) && U32(d, p) == s.Kind() && U64(d, p + 4) == s.da && U32(d, p + 12) == |s.Content()|
    ensures I.Content(d, p) == s.Content() && Has(d, p + 16, s.Content())
  {
    var c := s.Content();
    HasWord(d, p, s.Kind(), Le64(s.da) + (Le32(|c|) + c));
    HasLong(d, p + 4, s.da, Le32(|c|) + c);
    HasWord(d, p + 12, |c|, c);
  }

  /** Resource i of the section is r. */
  predicate ResourceAt(d: seq<Byte>, p: nat, i: nat, r: Res) {
    && I.HasSection(d, p) && 76 * (i + 1) <= U32(d, p + 12)
    && I.Resource(d, p, i) == P.Region(r.da, r.pa, r.len) && (I.IsMemory(d, p, i) <==> IsMemory(r))
  }

  lemma ResourceFields(d: seq<Byte>, p: nat, i: nat, r: Res)
    requires I.HasSection(d, p) && 76 * (i + 1) <= U32(d, p + 12)
    requires ResFits(r) && Has(d, p + 16 + 76 * i, ResBytes(r))
    ensures ResourceAt(d, p, i, r)
  {
    ResFields(d, p + 16 + 76 * i, r);
  }

  lemma ResourceIs(d: seq<Byte>, p: nat, s: Section, i: nat)
    requires Encoded(d, p, s) && s.Resources? && i < |s.table|
    ensures ResourceAt(d, p, i, s.table[i])
  {
    SectionFields(d, p, s);
    TableSize(s.table);
    HasBoth(d, p + 16, TableBytes(s.table), s.tail);
    HasRes(d, p + 16, s.table, i);
    ResourceFields(d, p, i, s.table[i]);
  }

  lemma AddedListed(rs: seq<P.Region>, r: P.Region)
    ensures M.Added(Listed(rs), r) == Listed(rs + [r])
  {
  }

  lemma OneMore(d: seq<Byte>, p: nat, i: nat, r: Res, added: seq<P.Region>, before: seq<P.Region>)
    requires ResourceAt(d, p, i, r) && I.AfterResources(d, p, i, added) == Listed(before)
    ensures I.AfterResources(d, p, i + 1, added) ==
            Listed(before + if IsMemory(r) then [P.Region(r.da, r.pa, r.len)] else [])
  {
    AddedListed(before, P.Region(r.da, r.pa, r.len));
    assert before + [] == before;
  }

  lemma {:induction false} ResourcesAre(d: seq<Byte>, p: nat, s: Section, n: nat, before: seq<P.Region>)
    requires Encoded(d, p, s) && s.Resources? && n <= |s.table|
    ensures I.HasSection(d, p) && 76 * n <= U32(d, p + 12)
    ensures I.AfterResources(d, p, n, Listed(before)) == Listed(before + Memory(s.table[..n]))
    decreases n
  {
    SectionFields(d, p, s);
    TableSize(s.table);
    if n == 0 {
      assert before + [] == before;
    } else {
      ResourcesAre(d, p, s, n - 1, before);
      ResourceIs(d, p, s, n - 1);
      OneMore(d, p, n - 1, s.table[n - 1], Listed(before), before + Memory(s.table[..n - 1]));
      MemoryStep(s.table, n, before);
    }
  }

  lemma MemoryStep(rs: seq<Res>, n: nat, before: seq<P.Region>)
    requires 0 < n <= |rs|
    ensures var r := rs[n - 1];
            before + Memory(rs[..n]) == before + Memory(rs[..n - 1]) + if IsMemory(r) then [P.Region(r.da, r.pa, r.len)] else []
  {
    assert rs[..n][..n - 1] == rs[..n - 1];
  }

  /**
    A section that holds the encodings of some resources adds exactly the regions of those that are
    carveouts or device memory with a physical address, in order, up to 20 in all.
   */
  lemma SectionAdds(d: seq<Byte>, p: nat, s: Section, before: seq<P.Region>)
    requires Encoded(d, p, s)
    ensures I.HasSection(d, p) && I.AfterSection(d, p, Listed(before)) == Listed(before + SectionMemory(s))
  {
    SectionFields(d, p, s);
    if s.Resources? {
      TableSize(s.table);
      assert |s.Content()| / 76 == |s.table|;
      ResourcesAre(d, p, s, |s.table|, before);
      assert s.table[..|s.table|] == s.table;
    } else {
      assert before + [] == before;
    }
  }

  // ---------------------------------------------------------------- whole files

  /** What a section contributes once `rs` has been asked for: its content, if its address is placed. */
  function PlacedPart(s: Section, rs: seq<P.Region>): seq<I.Part> {
    match P.VaToPa(Searched(Listed(rs)), s.da)
    case None => []
    case Some(pa) => [I.Part(pa % WORD, s.Content())]
  }

  /** The parts of the sections after those that have asked for `before`. */
  function PlacedParts(ss: seq<Section>, before: seq<P.Region>): seq<I.Part> {
    if ss == [] then []
    else
      var now := before + SectionMemory(ss[0]);
      PlacedPart(ss[0], now) + PlacedParts(ss[1..], now)
  }

  lemma {:induction false} SearchedIsUsed(rs: seq<P.Region>)
    ensures M.Used(rs) == Searched(rs)
  {
    if rs != [] {
      SearchedIsUsed(rs[1..]);
    }
  }

  /** From p on the file holds the sections ss and nothing else. */
  predicate Holds(d: seq<Byte>, p: nat, ss: seq<Section>) {
    && p + |SectionsBytes(ss)| == |d| && Has(d, p, SectionsBytes(ss))
    && forall i :: 0 <= i < |ss| ==> SectionFits(ss[i])
  }

  lemma HoldsFirst(d: seq<Byte>, p: nat, ss: seq<Section>)
    requires Holds(d, p, ss) && ss != []
    ensures p < |d| && Encoded(d, p, ss[0]) && I.HasSection(d, p) && Holds(d, I.Next(d, p), ss[1..])
  {
    HasBoth(d, p, SectionBytes(ss[0]), SectionsBytes(ss[1..]));
    SectionFields(d, p, ss[0]);
  }

  lemma {:induction false} FileTiles(d: seq<Byte>, p: nat, ss: seq<Section>)
    requires Holds(d, p, ss)
    ensures I.Tiles(d, p)
    decreases |ss|
  {
    if ss != [] {
      HoldsFirst(d, p, ss);
      FileTiles(d, I.Next(d, p), ss[1..]);
    }
  }

  lemma SectionsStep(d: seq<Byte>, p: nat, added: seq<P.Region>)
    requires I.Tiles(d, p) && p < |d|
    ensures I.AfterSections(d, p, added) == I.AfterSections(d, I.Next(d, p), I.AfterSection(d, p, added))
  {
  }

  lemma MemoryFirst(ss: seq<Section>, before: seq<P.Region>)
    requires ss != []
    ensures before + AllMemory(ss) == (before + SectionMemory(ss[0])) + AllMemory(ss[1..])
  {
  }

  lemma {:induction false} ListIs(d: seq<Byte>, p: nat, ss: seq<Section>, before: seq<P.Region>)
    requires Holds(d, p, ss)
    ensures I.Tiles(d, p) && I.AfterSections(d, p, Listed(before)) == Listed(before + AllMemory(ss))
    decreases |ss|
  {
    FileTiles(d, p, ss);
    if ss == [] {
      assert before + [] == before;
    } else {
      HoldsFirst(d, p, ss);
      SectionAdds(d, p, ss[0], before);
      SectionsStep(d, p, Listed(before));
      ListIs(d, I.Next(d, p), ss[1..], before + SectionMemory(ss[0]));
      MemoryFirst(ss, before);
    }
  }

  lemma {:induction false} PartsAre(d: seq<Byte>, p: nat, ss: seq<Section>, before: seq<P.Region>)
    requires Holds(d, p, ss)
    ensures I.Tiles(d, p) && I.Translated(d, p, Listed(before)) == PlacedParts(ss, before)
    decreases |ss|
  {
    FileTiles(d, p, ss);
    if ss != [] {
      var now := before + SectionMemory(ss[0]);
      HoldsFirst(d, p, ss);
      SectionFields(d, p, ss[0]);
      SectionAdds(d, p, ss[0], before);
      SearchedIsUsed(Listed(now));
      PartsAre(d, I.Next(d, p), ss[1..], now);
      TranslatedFirst(d, p, ss[0], Listed(before), Listed(now));
    }
  }

  lemma TranslatedFirst(d: seq<Byte>, p: nat, s: Section, added: seq<P.Region>, now: seq<P.Region>)
    requires I.Tiles(d, p) && p < |d| && I.AfterSection(d, p, added) == now
    requires U64(d, p + 4) == s.da && I.Content(d, p) == s.Content()
    ensures I.Translated(d, p, added) ==
            (match P.VaToPa(M.Used(now), s.da) case None => [] case Some(pa) => [I.Part(pa % WORD, s.Content())]) +
            I.Translated(d, I.Next(d, p), now)
  {
    var rest := I.Translated(d, I.Next(d, p), now);
    assert [] + rest == rest;
  }

  lemma HeaderFields(f: File)
    requires FileFits(f)
    ensures var d := FileBytes(f);
            && I.HasHeader(d) && I.First(d) == 12 + |f.text| <= |d| && Holds(d, I.First(d), f.sections)
  {
    var d := FileBytes(f);
    var rest := f.text + SectionsBytes(f.sections);
    assert Has(d, 0, d);
    HasBoth(d, 0, [0x52, 0x50, 0x52, 0x43], Le32(f.version) + (Le32(|f.text|) + rest));
    HasBoth(d, 4, Le32(f.version), Le32(|f.text|) + rest);
    HasWord(d, 8, |f.text|, rest);
    HasBoth(d, 12, f.text, SectionsBytes(f.sections));
  }

  /**
    Every image is read as it was meant: whole sections, the regions that its tables ask for, and
    the parts of the sections whose addresses those asked for so far place.
   */
  lemma ImageIsRead(f: File)
    requires FileFits(f)
    ensures var d := FileBytes(f);
            && I.HasHeader(d) && I.First(d) <= |d| && I.Tiles(d, I.First(d))
            && I.AfterSections(d, I.First(d), []) == Listed(AllMemory(f.sections))
            && I.Translated(d, I.First(d), []) == PlacedParts(f.sections, [])
  {
    var d := FileBytes(f);
    HeaderFields(f);
    FileTiles(d, I.First(d), f.sections);
    ListIs(d, I.First(d), f.sections, []);
    PartsAre(d, I.First(d), f.sections, []);
    assert [] + AllMemory(f.sections) == AllMemory(f.sections);
  }

  // ---------------------------------------------------------------- a section in a carveout

  lemma {:induction false} SearchedAll(rs: seq<P.Region>)
    requires forall i :: 0 <= i < |rs| ==> rs[i].len > 0
    ensures Searched(rs) == rs
  {
    if rs != [] {
      SearchedAll(rs[1..]);
    }
  }

  lemma {:induction false} FirstHolder(rs: seq<P.Region>, i: nat, va: nat)
    requires i < |rs| && P.In(rs[i], va) && P.Disjoint(rs)
    ensures P.VaToPa(rs, va) == Some(rs[i].pa + (va - rs[i].va))
    decreases i
  {
    if i > 0 {
      FirstHolder(rs[1..], i - 1, va);
    }
  }

  lemma {:induction false} PartInPlaced(ss: seq<Section>, before: seq<P.Region>, k: nat, part: I.Part)
    requires k < |ss| && PlacedPart(ss[k], before + AllMemory(ss[..k + 1])) == [part]
    ensures part in PlacedParts(ss, before)
    decreases k
  {
    var now := before + SectionMemory(ss[0]);
    if k == 0 {
      MemoryFirst(ss[..1], before);
      assert ss[..1][1..] == [] && now + [] == now;
      assert part in PlacedPart(ss[0], now);
    } else {
      MemoryFirst(ss[..k + 1], before);
      assert ss[..k + 1][1..] == ss[1..][..k];
      PartInPlaced(ss[1..], now, k - 1, part);
    }
  }

  /** The content of s, at the offset that it has in the region. */
  function PartIn(s: Section, r: P.Region): I.Part
    requires P.In(r, s.da)
  {
    I.Part((r.pa + (s.da - r.va)) % WORD, s.Content())
  }

  lemma HolderPlaces(s: Section, rs: seq<P.Region>, i: nat)
    requires i < |rs| <= 20 && P.Disjoint(rs) && (forall j :: 0 <= j < |rs| ==> rs[j].len > 0) && P.In(rs[i], s.da)
    ensures PlacedPart(s, rs) == [PartIn(s, rs[i])]
  {
    SearchedAll(rs);
    FirstHolder(rs, i, s.da);
  }

  /**
    A section that lies in one of the memories `rs` asked for up to then has its part among the placed
    ones: its content, at the memory's physical address plus the section's offset in the memory.
   */
  lemma SectionInMemory(ss: seq<Section>, k: nat, rs: seq<P.Region>, i: nat)
    requires k < |ss| && rs == AllMemory(ss[..k + 1])
    requires i < |rs| <= 20 && P.Disjoint(rs) && (forall j :: 0 <= j < |rs| ==> rs[j].len > 0) && P.In(rs[i], ss[k].da)
    ensures PartIn(ss[k], rs[i]) in PlacedParts(ss, [])
  {
    HolderPlaces(ss[k], rs, i);
    PlacedAmong(ss, k, rs, PartIn(ss[k], rs[i]));
  }

  lemma PlacedAmong(ss: seq<Section>, k: nat, rs: seq<P.Region>, part: I.Part)
    requires k < |ss| && rs == AllMemory(ss[..k + 1]) && PlacedPart(ss[k], rs) == [part]
    ensures part in PlacedParts(ss, [])
  {
    assert [] + rs == rs;
    PartInPlaced(ss, [], k, part);
  }

  // ---------------------------------------------------------------- the appended sections

  /** A section header at p. */
  predicate Fields(o: seq<Byte>, p: nat, kind: nat, da: nat, len: nat) {
    p + 16 <= |o| && U32(o, p) == kind && U64(o, p + 4) == da && U32(o, p + 12) == len
  }

  lemma HeaderHas(o: seq<Byte>, p: nat, kind: nat, da: nat, len: nat)
    requires Has(o, p, I.SectionHeader(kind, da, len)) && kind < WORD && da < ADDRESSES && len < WORD
    ensures Fields(o, p, kind, da, len)
  {
    assert I.SectionHeader(kind, da, len) == Le32(kind) + (Le64(da) + (Le32(len) + []));
    HasWord(o, p, kind, Le64(da) + (Le32(len) + []));
    HasLong(o, p + 4, da, Le32(len) + []);
    HasWord(o, p + 12, len, []);
  }

  /** Six pieces in a row. */
  lemma Pieces(o: seq<Byte>, a: seq<Byte>, b: seq<Byte>, c: seq<Byte>, d: seq<Byte>, e: seq<Byte>, f: seq<Byte>)
    requires o == a + b + c + d + e + f
    ensures Has(o, |a|, b) && Has(o, |a| + |b|, c) && Has(o, |a| + |b| + |c|, d) && |f| <= |o| && Has(o, |o| - |f|, f)
  {
  }

  lemma OutputPieces(d: seq<Byte>, rows: seq<I.Row>, t: seq<nat>, len: nat)
    requires len == 16 * (|rows| + 2) + 0x148
    ensures var o, w := I.Output(d, rows, t), I.WordBytes(t);
            && Has(o, |d|, I.SectionHeader(I.FW_MMU, I.MMU_PA, 4 * P.ENTRIES)) && Has(o, |d| + 16, w)
            && Has(o, |d| + 16 + |w|, I.SectionHeader(I.FW_SIGNATURE, I.SIGNATURE_PA, len))
            && |o| >= 4 && Has(o, |o| - 4, Le32(|d| + 32 + |w|))
  {
    var toc := rows + [I.MmuRow(|rows|, |d|), I.EndRow(|rows|)];
    Pieces(I.Output(d, rows, t), d, I.SectionHeader(I.FW_MMU, I.MMU_PA, 4 * P.ENTRIES), I.WordBytes(t),
      I.SectionHeader(I.FW_SIGNATURE, I.SIGNATURE_PA, len), I.TocBytes(toc), Le32(|d| + 32 + 4 * |t|));
  }

  /**
    Behind the input the output has a section of kind 3 with the page table, and the header of one of
    kind 4, after which the TOC starts; its length counts the TOC and the room for a signature.
   */
  lemma AppendedSections(d: seq<Byte>, rows: seq<I.Row>, t: seq<nat>)
    requires |t| == P.ENTRIES && |d| < I.LIMIT && |rows| <= I.ROWS - 2
    ensures var o, n := I.Output(d, rows, t), 16 * (|rows| + 2) + 0x148;
            && Fields(o, |d|, 3, 0xB420_0000, 0x4000) && Has(o, |d| + 16, I.WordBytes(t))
            && Fields(o, |d| + 0x4010, 4, 0xB428_0000, n) && U32(o, |o| - 4) == |d| + 0x4020
  {
    var o, n := I.Output(d, rows, t), 16 * (|rows| + 2) + 0x148;
    OutputPieces(d, rows, t, n);
    HeaderHas(o, |d|, I.FW_MMU, I.MMU_PA, 4 * P.ENTRIES);
    HeaderHas(o, |d| + 0x4010, I.FW_SIGNATURE, I.SIGNATURE_PA, n);
    ReadBack(o, |o| - 4, |d| + 0x4020);
  }
}
