/**
  process_image of src/utils/genextbin.c: one pass over the sections that fills the list of regions
  and the rows of the TOC, then the page table, then the output.
 */
module PostProcessor {
  import opened Types
  import opened Bytes
  import P = PageTable
  import opened FirmwareMmu
  import opened Image
  import R = ImageRoundTrip
  import S = ImageSource
  import ImageMeaning

  lemma {:induction false} ResourcesGrow(d: seq<Byte>, p: nat, n: nat, added: seq<P.Region>)
    requires HasSection(d, p) && 76 * n <= U32(d, p + 12)
    ensures |AfterResources(d, p, n, added)| >= |added|
  {
    if n > 0 {
      ResourcesGrow(d, p, n - 1, added);
    }
  }

  lemma SectionGrows(d: seq<Byte>, p: nat, added: seq<P.Region>)
    requires HasSection(d, p)
    ensures |AfterSection(d, p, added)| >= |added|
  {
    ResourcesGrow(d, p, U32(d, p + 12) / 76, added);
  }

  lemma {:induction false} SectionsGrow(d: seq<Byte>, p: nat, added: seq<P.Region>)
    requires Tiles(d, p)
    ensures |AfterSections(d, p, added)| >= |added|
    decreases |d| - p
  {
    if p < |d| {
      SectionGrows(d, p, added);
      SectionsGrow(d, Next(d, p), AfterSection(d, p, added));
    }
  }

  lemma {:induction false} RowsGrow(d: seq<Byte>, p: nat, added: seq<P.Region>, rows: seq<Row>)
    requires Tiles(d, p)
    ensures |Rows(d, p, added, rows)| >= |rows|
    decreases |d| - p
  {
    if p < |d| {
      RowsGrow(d, Next(d, p), AfterSection(d, p, added), AfterRow(d, p, added, rows));
    }
  }

  /** The 19 regions that fit before the end of the list, and the 28 rows before the two last ones. */
  predicate Roomy(d: seq<Byte>, p: nat, added: seq<P.Region>, rows: seq<Row>) {
    Tiles(d, p) && |AfterSections(d, p, added)| < SLOTS && |Rows(d, p, added, rows)| <= ROWS - 2
  }

  lemma RoomyStep(d: seq<Byte>, p: nat, added: seq<P.Region>, rows: seq<Row>)
    requires Roomy(d, p, added, rows) && p < |d|
    ensures HasSection(d, p) && |AfterSection(d, p, added)| < SLOTS && |AfterRow(d, p, added, rows)| <= ROWS - 2
    ensures Roomy(d, Next(d, p), AfterSection(d, p, added), AfterRow(d, p, added, rows))
  {
    SectionsGrow(d, Next(d, p), AfterSection(d, p, added));
    RowsGrow(d, Next(d, p), AfterSection(d, p, added), AfterRow(d, p, added, rows));
  }

  lemma ResourceStep(d: seq<Byte>, p: nat, i: nat, added: seq<P.Region>)
    requires HasSection(d, p) && 76 * (i + 1) <= U32(d, p + 12)
    ensures IsMemory(d, p, i) ==> Resource(d, p, i) != BLANK
    ensures IsMemory(d, p, i) ==>
      AfterResources(d, p, i + 1, added) == Added(AfterResources(d, p, i, added), Resource(d, p, i))
    ensures !IsMemory(d, p, i) ==> AfterResources(d, p, i + 1, added) == AfterResources(d, p, i, added)
  {
  }

  lemma FinishedToc(d: seq<Byte>, t: seq<nat>)
    requires HasHeader(d) && First(d) <= |d| && Roomy(d, First(d), [], []) && |d| < LIMIT && |t| == P.ENTRIES
    ensures R.ReaderFinds(Output(d, Rows(d, First(d), [], []), t), Translated(d, First(d), []) + [Part(MMU_PA, WordBytes(t))])
  {
    var rows := Rows(d, First(d), [], []);
    R.ReaderRecovers(d, [], t, rows);
    R.FirstRows(d, [], rows);
  }

  /** What the output is worth, whoever reads it. */
  lemma Finished(d: seq<Byte>, t: seq<nat>)
    requires HasHeader(d) && First(d) <= |d| && Roomy(d, First(d), [], []) && |d| < LIMIT
    requires P.AllFit(Used(AfterSections(d, First(d), []))) && P.IsTable(t, Used(AfterSections(d, First(d), [])))
    ensures var rows, rs := Rows(d, First(d), [], []), Used(AfterSections(d, First(d), []));
            var o := Output(d, rows, t);
            && R.ReaderFinds(o, Translated(d, First(d), []) + [Part(MMU_PA, WordBytes(t))])
            && (P.Disjoint(rs) ==> R.WalksAsListed(o, rs))
            && CheckImage(o) == Processed
  {
    var rows, rs := Rows(d, First(d), [], []), Used(AfterSections(d, First(d), []));
    FinishedToc(d, t);
    R.OutputIsProcessed(d, rows, t);
    R.FirstRows(d, [], rows);
    if P.Disjoint(rs) {
      R.OutputWalks(d, rows, rs, t);
    }
  }

  /** What the output is worth for an image f that the input encodes. */
  ghost predicate Fulfils(f: S.File, o: seq<Byte>, t: seq<nat>) {
    var rs := S.Searched(S.Listed(S.AllMemory(f.sections)));
    && R.ReaderFinds(o, ImageMeaning.PlacedParts(f.sections, []) + [Part(MMU_PA, WordBytes(t))])
    && (P.AllFit(rs) && P.Disjoint(rs) ==> R.WalksAsListed(o, rs))
  }

  lemma FinishedImage(f: S.File, d: seq<Byte>, t: seq<nat>)
    requires S.FileFits(f) && d == S.FileBytes(f) && |d| < LIMIT && HasHeader(d) && First(d) <= |d|
    requires Roomy(d, First(d), [], [])
    requires P.AllFit(Used(AfterSections(d, First(d), []))) && P.IsTable(t, Used(AfterSections(d, First(d), [])))
    ensures Fulfils(f, Output(d, Rows(d, First(d), [], []), t), t)
  {
    ImageMeaning.ImageIsRead(f);
    ImageMeaning.SearchedIsUsed(S.Listed(S.AllMemory(f.sections)));
    Finished(d, t);
  }

  class Processor {
    var mmu: Mmu
    var toc: array<Row>
    var sectno: nat

    ghost predicate Valid()
      reads this, mmu, mmu.regions, mmu.l1, toc
    {
      mmu.Valid() && toc.Length == ROWS && sectno <= ROWS
    }

    constructor ()
      ensures Valid() && fresh(mmu) && fresh(mmu.regions) && fresh(mmu.l1) && fresh(toc)
      ensures mmu.added == [] && sectno == 0
    {
      mmu := new Mmu();
      toc := new Row[ROWS](_ => Row(0, 0, 0, 0));
      sectno := 0;
    }

    /** process_resources */
    method ProcessResources(d: seq<Byte>, p: nat)
      requires Valid() && HasSection(d, p)
      modifies mmu, mmu.regions
      ensures Valid() && mmu.added == AfterResources(d, p, U32(d, p + 12) / 76, old(mmu.added))
      ensures mmu.regions == old(mmu.regions) && mmu.l1 == old(mmu.l1)
    {
      var n := U32(d, p + 12) / 76;
      var i := 0;
      while i < n
        invariant i <= n && Valid() && mmu.added == AfterResources(d, p, i, old(mmu.added))
        invariant mmu.regions == old(mmu.regions) && mmu.l1 == old(mmu.l1)
      {
        ResourceStep(d, p, i, old(mmu.added));
        if IsMemory(d, p, i) {
          var ok := mmu.AddMemEntry(Resource(d, p, i));
        }
        i := i + 1;
      }
    }

    /** One turn of the section loop. */
    method ProcessSection(d: seq<Byte>, p: nat, fOffset: nat)
      requires Valid() && HasSection(d, p) && fOffset == p + 16
      requires |AfterSection(d, p, mmu.added)| < SLOTS && |AfterRow(d, p, mmu.added, toc[..sectno])| <= ROWS - 2
      modifies this`sectno, toc, mmu, mmu.regions
      ensures Valid() && mmu.added == AfterSection(d, p, old(mmu.added))
      ensures toc[..sectno] == AfterRow(d, p, old(mmu.added), old(toc[..sectno]))
      ensures mmu.regions == old(mmu.regions) && mmu.l1 == old(mmu.l1)
    {
      ghost var rows := toc[..sectno];
      if U32(d, p) == FW_RESOURCE {
        ProcessResources(d, p);
      }
      assert toc[..sectno] == rows;
      var pa := mmu.Translate(U64(d, p + 4));
      if pa.Some? {
        toc[sectno] := Row(sectno + 1, fOffset, pa.value % WORD, U32(d, p + 12));
        sectno := sectno + 1;
        assert toc[..sectno] == rows + [toc[sectno - 1]];
      }
    }

    method ClearTable()
      requires Valid()
      modifies mmu.l1
      ensures Valid() && mmu.added == old(mmu.added)
      ensures forall k :: 0 <= k < P.ENTRIES ==> mmu.l1[k] == 0
    {
      var k := 0;
      while k < P.ENTRIES
        invariant k <= P.ENTRIES && forall j :: 0 <= j < k ==> mmu.l1[j] == 0
      {
        mmu.l1[k] := 0;
        k := k + 1;
      }
    }

    /** The section loop. */
    method ProcessSections(d: seq<Byte>, first: nat)
      requires Valid() && sectno == 0 && first <= |d| && Roomy(d, first, mmu.added, [])
      modifies this`sectno, toc, mmu, mmu.regions
      ensures Valid() && sectno <= ROWS - 2 && mmu.added == AfterSections(d, first, old(mmu.added))
      ensures toc[..sectno] == Rows(d, first, old(mmu.added), [])
      ensures mmu.regions == old(mmu.regions) && mmu.l1 == old(mmu.l1)
    {
      var p, fOffset := first, first;
      assert toc[..sectno] == [];
      while p < |d|
        invariant p <= |d| && fOffset == p && Valid() && Roomy(d, p, mmu.added, toc[..sectno])
        invariant AfterSections(d, p, mmu.added) == AfterSections(d, first, old(mmu.added))
        invariant Rows(d, p, mmu.added, toc[..sectno]) == Rows(d, first, old(mmu.added), [])
        invariant mmu.regions == old(mmu.regions) && mmu.l1 == old(mmu.l1)
        decreases |d| - p
      {
        RoomyStep(d, p, mmu.added, toc[..sectno]);
        fOffset := fOffset + 16;
        ProcessSection(d, p, fOffset);
        fOffset := fOffset + U32(d, p + 12);
        p := Next(d, p);
      }
    }

    /** The last two rows, and the bytes that are written. */
    method Finish(d: seq<Byte>) returns (o: seq<Byte>)
      requires Valid() && sectno <= ROWS - 2
      modifies toc, this`sectno
      ensures o == Output(d, old(toc[..sectno]), mmu.l1[..])
    {
      ghost var rows := toc[..sectno];
      var fOffset := |d| + 16;
      o := d + SectionHeader(FW_MMU, MMU_PA, 4 * P.ENTRIES) + WordBytes(mmu.l1[..]);
      toc[sectno] := Row(sectno + 1, fOffset, MMU_PA, 4 * P.ENTRIES);
      sectno := sectno + 1;
      toc[sectno] := Row(sectno + 1, NONE, NONE, NONE);
      sectno := sectno + 1;
      assert toc[..sectno] == rows + [MmuRow(|rows|, |d|), EndRow(|rows|)];
      o := o + SectionHeader(FW_SIGNATURE, SIGNATURE_PA, 16 * sectno + 0x148);
      var tocOffset := |o|;
      o := o + TocBytes(toc[..sectno]) + Le32(tocOffset);
    }

    /**
      process_image on a file of whole sections.  A reader of the result finds the translated
      sections and a page table, whose walk agrees with the final list of regions, and check_image
      finds it processed.
     */
    method ProcessImage(d: seq<Byte>) returns (o: Option<seq<Byte>>)
      requires Valid() && sectno == 0 && mmu.added == [] && |d| < LIMIT && |d| >= 12
      requires HasHeader(d) ==> First(d) <= |d| && Roomy(d, First(d), [], [])
      requires HasHeader(d) ==> P.AllFit(Used(AfterSections(d, First(d), [])))
      modifies this, toc, mmu, mmu.regions, mmu.l1
      ensures o.Some? <==> HasHeader(d)
      ensures HasHeader(d) ==> P.IsTable(mmu.l1[..], Used(AfterSections(d, First(d), [])))
      ensures HasHeader(d) ==> o == Some(Output(d, Rows(d, First(d), [], []), mmu.l1[..]))
      ensures HasHeader(d) ==>
        R.ReaderFinds(o.value, Translated(d, First(d), []) + [Part(MMU_PA, WordBytes(mmu.l1[..]))])
      ensures HasHeader(d) && P.Disjoint(Used(AfterSections(d, First(d), []))) ==>
        R.WalksAsListed(o.value, Used(AfterSections(d, First(d), [])))
      ensures HasHeader(d) ==> CheckImage(o.value) == Processed
      ensures forall f: S.File :: S.FileFits(f) && S.FileBytes(f) == d ==> o.Some? && Fulfils(f, o.value, mmu.l1[..])
    {
      ClearTable();
      forall f: S.File | S.FileFits(f) && S.FileBytes(f) == d ensures HasHeader(d) {
        ImageMeaning.HeaderFields(f);
      }
      if d[..4] != [0x52, 0x50, 0x52, 0x43] {
        return None;
      }
      ProcessSections(d, First(d));
      mmu.CreateTtb();
      var out := Finish(d);
      o := Some(out);
      Finished(d, mmu.l1[..]);
      forall f: S.File | S.FileFits(f) && S.FileBytes(f) == d ensures Fulfils(f, out, mmu.l1[..]) {
        FinishedImage(f, d, mmu.l1[..]);
      }
    }
  }
}
