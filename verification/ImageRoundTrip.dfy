/**
  The image writer and the TOC undo each other: a reader of the output recovers the translated
  sections and the page table, and check_image recognises the output.
 */
module ImageRoundTrip {
  import opened Types
  import opened Bytes
  import P = PageTable
  import opened FirmwareMmu
  import opened Image

  // ---------------------------------------------------------------- the rows

  predicate InFile(d: seq<Byte>, rows: seq<Row>) {
    forall i :: 0 <= i < |rows| ==> rows[i].offset + rows[i].len <= |d| && rows[i].pa < WORD
  }

  predicate Numbered(rows: seq<Row>) {
    forall i :: 0 <= i < |rows| ==> rows[i].id == i + 1
  }

  lemma PartsAppend(o: seq<Byte>, rows: seq<Row>, r: Row)
    requires InFile(o, rows) && r.offset + r.len <= |o|
    ensures Parts(o, rows + [r]) == Parts(o, rows) + [Part(r.pa, o[r.offset..r.offset + r.len])]
  {
    assert (rows + [r])[..|rows|] == rows;
  }

  lemma NewRow(d: seq<Byte>, p: nat, pa: nat, rows: seq<Row>)
    requires HasSection(d, p) && InFile(d, rows) && Numbered(rows)
    ensures var next := rows + [Row(|rows| + 1, p + 16, pa % WORD, U32(d, p + 12))];
            && InFile(d, next) && Numbered(next)
            && Parts(d, next) == Parts(d, rows) + [Part(pa % WORD, Content(d, p))]
  {
    PartsAppend(d, rows, Row(|rows| + 1, p + 16, pa % WORD, U32(d, p + 12)));
  }

  /** The part that a section contributes. */
  function PartOf(d: seq<Byte>, p: nat, added: seq<P.Region>): seq<Part>
    requires HasSection(d, p)
  {
    match P.VaToPa(Used(AfterSection(d, p, added)), U64(d, p + 4))
    case None => []
    case Some(pa) => [Part(pa % WORD, Content(d, p))]
  }

  /** The rows that follow `before` describe exactly these parts. */
  predicate Describe(d: seq<Byte>, before: seq<Row>, rows: seq<Row>, parts: seq<Part>) {
    && InFile(d, before) && InFile(d, rows) && Numbered(rows)
    && Parts(d, rows) == Parts(d, before) + parts
  }

  /** One section: its row, if any, describes its content. */
  lemma RowDescribes(d: seq<Byte>, p: nat, added: seq<P.Region>, rows: seq<Row>)
    requires HasSection(d, p) && InFile(d, rows) && Numbered(rows)
    ensures Describe(d, rows, AfterRow(d, p, added, rows), PartOf(d, p, added))
  {
    var pa := P.VaToPa(Used(AfterSection(d, p, added)), U64(d, p + 4));
    if pa.Some? {
      NewRow(d, p, pa.value, rows);
    }
  }

  lemma TranslatedStep(d: seq<Byte>, p: nat, added: seq<P.Region>)
    requires Tiles(d, p) && p < |d|
    ensures Translated(d, p, added) == PartOf(d, p, added) + Translated(d, Next(d, p), AfterSection(d, p, added))
  {
    var rest := Translated(d, Next(d, p), AfterSection(d, p, added));
    assert [] + rest == rest;
  }

  lemma DescribeBoth(d: seq<Byte>, a: seq<Row>, b: seq<Row>, c: seq<Row>, x: seq<Part>, y: seq<Part>)
    requires Describe(d, a, b, x) && Describe(d, b, c, y)
    ensures Describe(d, a, c, x + y)
  {
  }

  lemma RowsStep(d: seq<Byte>, p: nat, added: seq<P.Region>, rows: seq<Row>)
    requires Tiles(d, p) && p < |d|
    ensures Rows(d, p, added, rows) == Rows(d, Next(d, p), AfterSection(d, p, added), AfterRow(d, p, added, rows))
  {
  }

  /** The rows describe exactly the translated sections, in order. */
  lemma {:induction false} RowsDescribe(d: seq<Byte>, p: nat, added: seq<P.Region>, rows: seq<Row>)
    requires Tiles(d, p) && InFile(d, rows) && Numbered(rows)
    ensures Describe(d, rows, Rows(d, p, added, rows), Translated(d, p, added))
    decreases |d| - p
  {
    if p < |d| {
      RowDescribes(d, p, added, rows);
      RowsDescribe(d, Next(d, p), AfterSection(d, p, added), AfterRow(d, p, added, rows));
      RowsStep(d, p, added, rows);
      TranslatedStep(d, p, added);
      DescribeBoth(d, rows, AfterRow(d, p, added, rows), Rows(d, p, added, rows),
        PartOf(d, p, added), Translated(d, Next(d, p), AfterSection(d, p, added)));
    }
  }

  lemma {:induction false} PartsOfPrefix(d: seq<Byte>, o: seq<Byte>, rows: seq<Row>)
    requires InFile(d, rows) && |d| <= |o| && d == o[..|d|]
    ensures InFile(o, rows) && Parts(o, rows) == Parts(d, rows)
    decreases |rows|
  {
    if rows != [] {
      PartsOfPrefix(d, o, rows[..|rows| - 1]);
      var r := rows[|rows| - 1];
      assert d[r.offset..r.offset + r.len] == o[r.offset..r.offset + r.len];
    }
  }

  // ---------------------------------------------------------------- the bytes of the TOC

  lemma {:induction false} TocSlice(rows: seq<Row>, i: nat)
    requires i < |rows|
    ensures TocBytes(rows)[16 * i..16 * i + 16] == RowBytes(rows[i])
    decreases |rows|
  {
    var n := |rows| - 1;
    var t := TocBytes(rows[..n]);
    if i < n {
      TocSlice(rows[..n], i);
      assert TocBytes(rows)[16 * i..16 * i + 16] == t[16 * i..16 * i + 16];
    }
  }

  lemma SliceOfSlice(o: seq<Byte>, at: nat, n: nat, k: nat, m: nat)
    requires k <= m <= n && at + n <= |o|
    ensures o[at..at + n][k..m] == o[at + k..at + m]
  {
    var x, y := o[at..at + n][k..m], o[at + k..at + m];
    assert forall i :: 0 <= i < |x| ==> x[i] == y[i];
  }

  lemma {:induction false} WordSlice(t: seq<nat>, k: nat)
    requires k < |t|
    ensures WordBytes(t)[4 * k..4 * k + 4] == Le32(t[k])
    decreases |t|
  {
    var n := |t| - 1;
    var before := WordBytes(t[..n]);
    if k < n {
      WordSlice(t[..n], k);
      assert WordBytes(t)[4 * k..4 * k + 4] == before[4 * k..4 * k + 4];
    }
  }

  lemma FieldReadBack(o: seq<Byte>, at: nat, r: Row, k: nat)
    requires RowFits(r) && at + 16 <= |o| && o[at..at + 16] == RowBytes(r) && k < 4
    ensures U32(o, at + 4 * k) == RowWords(r)[k]
  {
    WordSlice(RowWords(r), k);
    SliceOfSlice(o, at, 16, 4 * k, 4 * k + 4);
    assert o[at + 4 * k..at + 4 * k + 4] == Le32(RowWords(r)[k]);
    ReadBack(o, at + 4 * k, RowWords(r)[k]);
  }

  function RowAt(o: seq<Byte>, at: nat): Row
    requires at + 16 <= |o|
  {
    Row(U32(o, at), U32(o, at + 4), U32(o, at + 8), U32(o, at + 12))
  }

  /** A row in a file is read back field by field. */
  lemma RowReadBack(o: seq<Byte>, at: nat, r: Row)
    requires RowFits(r) && at + 16 <= |o| && o[at..at + 16] == RowBytes(r)
    ensures RowAt(o, at) == r
  {
    FieldReadBack(o, at, r, 0);
    FieldReadBack(o, at, r, 1);
    FieldReadBack(o, at, r, 2);
    FieldReadBack(o, at, r, 3);
  }

  lemma Middle(a: seq<Byte>, m: seq<Byte>, b: seq<Byte>, k: nat, w: seq<Byte>)
    requires k + 16 <= |m| && m[k..k + 16] == w
    ensures (a + m + b)[|a| + k..|a| + k + 16] == w
  {
  }

  /** The bytes of each row, one after the other. */
  predicate Placed(m: seq<Byte>, rows: seq<Row>) {
    |m| == 16 * |rows| && forall i :: 0 <= i < |rows| ==> m[16 * i..16 * i + 16] == RowBytes(rows[i])
  }

  lemma TocPlaced(rows: seq<Row>)
    ensures Placed(TocBytes(rows), rows)
  {
    forall i | 0 <= i < |rows| ensures TocBytes(rows)[16 * i..16 * i + 16] == RowBytes(rows[i]) {
      TocSlice(rows, i);
    }
  }

  predicate Ended(rows: seq<Row>) {
    |rows| > 0 && rows[|rows| - 1].offset == NONE && (forall i :: 0 <= i < |rows| ==> RowFits(rows[i])) &&
    forall i :: 0 <= i < |rows| - 1 ==> rows[i].offset != NONE
  }

  lemma ReadLast(o: seq<Byte>, at: nat)
    requires at + 16 <= |o| && RowAt(o, at).offset == NONE
    ensures ReadRows(o, at) == Some([])
  {
  }

  lemma ReadNext(o: seq<Byte>, at: nat, rest: seq<Row>)
    requires at + 16 <= |o| && RowAt(o, at).offset != NONE && ReadRows(o, at + 16) == Some(rest)
    ensures ReadRows(o, at) == Some([RowAt(o, at)] + rest)
  {
  }

  /** Every row stands in the file from `at` on. */
  predicate Stand(o: seq<Byte>, at: nat, rows: seq<Row>) {
    forall i :: 0 <= i < |rows| ==> at + 16 * i + 16 <= |o| && rows[i] == RowAt(o, at + 16 * i)
  }

  /** Reading from row i on gives the rows up to the end marker. */
  lemma {:induction false} RowsReadBack(o: seq<Byte>, at: nat, rows: seq<Row>, i: nat)
    requires Ended(rows) && i < |rows| && Stand(o, at, rows)
    ensures ReadRows(o, at + 16 * i) == Some(rows[i..|rows| - 1])
    decreases |rows| - i
  {
    if i < |rows| - 1 {
      RowsReadBack(o, at, rows, i + 1);
      assert at + 16 * i + 16 == at + 16 * (i + 1);
      ReadNext(o, at + 16 * i, rows[i + 1..|rows| - 1]);
      assert rows[i..|rows| - 1] == [rows[i]] + rows[i + 1..|rows| - 1];
    } else {
      ReadLast(o, at + 16 * i);
      assert rows[i..|rows| - 1] == [];
    }
  }

  lemma RowsStand(a: seq<Byte>, m: seq<Byte>, b: seq<Byte>, rows: seq<Row>)
    requires Ended(rows) && Placed(m, rows)
    ensures Stand(a + m + b, |a|, rows)
  {
    var o := a + m + b;
    forall i | 0 <= i < |rows| ensures |a| + 16 * i + 16 <= |o| && rows[i] == RowAt(o, |a| + 16 * i) {
      Middle(a, m, b, 16 * i, RowBytes(rows[i]));
      RowReadBack(o, |a| + 16 * i, rows[i]);
    }
  }

  // ---------------------------------------------------------------- the output

  /** What comes before the TOC. */
  function Body(d: seq<Byte>, n: nat, t: seq<nat>): (s: seq<Byte>)
    ensures |s| == |d| + 32 + 4 * |t|
  {
    d + SectionHeader(FW_MMU, MMU_PA, 4 * P.ENTRIES) + WordBytes(t) +
    SectionHeader(FW_SIGNATURE, SIGNATURE_PA, 16 * (n + 2) + 0x148)
  }

  function Toc(d: seq<Byte>, rows: seq<Row>): seq<Row> {
    rows + [MmuRow(|rows|, |d|), EndRow(|rows|)]
  }

  lemma OutputIs(d: seq<Byte>, rows: seq<Row>, t: seq<nat>)
    ensures Output(d, rows, t) == Body(d, |rows|, t) + TocBytes(Toc(d, rows)) + Le32(|d| + 32 + 4 * |t|)
  {
  }

  predicate RowsOk(d: seq<Byte>, rows: seq<Row>) {
    InFile(d, rows) && Numbered(rows) && |rows| <= ROWS - 2 && |d| < LIMIT
  }

  lemma TocEnded(d: seq<Byte>, rows: seq<Row>)
    requires RowsOk(d, rows)
    ensures Ended(Toc(d, rows))
  {
  }

  lemma LastWord(s: seq<Byte>, x: nat)
    requires x < WORD
    ensures U32(s + Le32(x), |s|) == x
  {
    var o := s + Le32(x);
    assert o[|s|..|s| + 4] == Le32(x);
    ReadBack(o, |s|, x);
  }

  lemma FirstToLast(o: seq<Byte>, at: nat, toc: seq<Row>)
    requires Ended(toc) && Stand(o, at, toc)
    ensures ReadRows(o, at) == Some(toc[..|toc| - 1])
  {
    RowsReadBack(o, at, toc, 0);
    assert toc[0..|toc| - 1] == toc[..|toc| - 1];
  }

  lemma TocIsRead(body: seq<Byte>, toc: seq<Row>)
    requires Ended(toc) && |body| < WORD
    ensures ReadToc(body + TocBytes(toc) + Le32(|body|)) == Some(toc[..|toc| - 1])
  {
    var o := body + TocBytes(toc) + Le32(|body|);
    LastWord(body + TocBytes(toc), |body|);
    TocPlaced(toc);
    RowsStand(body, TocBytes(toc), Le32(|body|), toc);
    FirstToLast(o, |body|, toc);
  }

  lemma TocReadBack(d: seq<Byte>, rows: seq<Row>, t: seq<nat>)
    requires RowsOk(d, rows) && |t| == P.ENTRIES
    ensures ReadToc(Output(d, rows, t)) == Some(rows + [MmuRow(|rows|, |d|)])
  {
    var toc := Toc(d, rows);
    OutputIs(d, rows, t);
    TocEnded(d, rows);
    TocIsRead(Body(d, |rows|, t), toc);
    assert toc[..|toc| - 1] == rows + [MmuRow(|rows|, |d|)];
  }

  lemma OutputSlices(d: seq<Byte>, rows: seq<Row>, t: seq<nat>)
    requires |t| == P.ENTRIES
    ensures var o := Output(d, rows, t);
            && |o| >= |d| + 32 + 4 * P.ENTRIES && o[..|d|] == d
            && o[|d|..|d| + 16] == SectionHeader(FW_MMU, MMU_PA, 4 * P.ENTRIES)
            && o[|d| + 16..|d| + 16 + 4 * P.ENTRIES] == WordBytes(t)
  {
    OutputIs(d, rows, t);
    var o, body := Output(d, rows, t), Body(d, |rows|, t);
    assert o[..|body|] == body;
    assert body[..|d|] == d && body[|d|..|d| + 16] == SectionHeader(FW_MMU, MMU_PA, 4 * P.ENTRIES);
    assert body[|d| + 16..|d| + 16 + 4 * P.ENTRIES] == WordBytes(t);
    assert o[|d| + 16..|d| + 16 + 4 * P.ENTRIES] == body[|d| + 16..|d| + 16 + 4 * P.ENTRIES];
    assert o[|d|..|d| + 16] == body[|d|..|d| + 16];
  }

  lemma FirstRows(d: seq<Byte>, added: seq<P.Region>, rows: seq<Row>)
    requires HasHeader(d) && Tiles(d, First(d)) && rows == Rows(d, First(d), added, [])
    ensures InFile(d, rows) && Numbered(rows) && Parts(d, rows) == Translated(d, First(d), added)
  {
    RowsDescribe(d, First(d), added, []);
  }

  lemma PartsOfOutput(d: seq<Byte>, t: seq<nat>, rows: seq<Row>)
    requires RowsOk(d, rows) && |t| == P.ENTRIES
    ensures var o, all := Output(d, rows, t), rows + [MmuRow(|rows|, |d|)];
            InFile(o, all) && Parts(o, all) == Parts(d, rows) + [Part(MMU_PA, WordBytes(t))]
  {
    var o := Output(d, rows, t);
    OutputSlices(d, rows, t);
    PartsOfPrefix(d, o, rows);
    PartsAppend(o, rows, MmuRow(|rows|, |d|));
  }

  /**
    A reader of the output recovers, in order, the address and the exact content of every section
    that translates, and then the page table.
   */
  lemma ReaderRecovers(d: seq<Byte>, added: seq<P.Region>, t: seq<nat>, rows: seq<Row>)
    requires HasHeader(d) && Tiles(d, First(d)) && |d| < LIMIT && |t| == P.ENTRIES
    requires rows == Rows(d, First(d), added, []) && |rows| <= ROWS - 2
    ensures ReadToc(Output(d, rows, t)) == Some(rows + [MmuRow(|rows|, |d|)])
    ensures InFile(Output(d, rows, t), rows + [MmuRow(|rows|, |d|)])
    ensures Parts(Output(d, rows, t), rows + [MmuRow(|rows|, |d|)]) ==
            Translated(d, First(d), added) + [Part(MMU_PA, WordBytes(t))]
  {
    FirstRows(d, added, rows);
    TocReadBack(d, rows, t);
    PartsOfOutput(d, t, rows);
  }

  /** An entry of the page table is read back from the bytes of its part. */
  lemma TableReadBack(t: seq<nat>, k: nat)
    requires k < |t| && t[k] < WORD
    ensures U32(WordBytes(t), 4 * k) == t[k]
  {
    WordSlice(t, k);
    var s, at := WordBytes(t), 4 * k;
    assert s[at..at + 4] == Le32(t[k]);
    ReadBack(s, at, t[k]);
  }

  /**
    From the output alone: the last part that a reader finds is a page table whose walk gives, for
    every address of a nonzero entry, what the region list gives.
   */
  lemma ReaderWalks(d: seq<Byte>, rows: seq<Row>, rs: seq<P.Region>, t: seq<nat>, va: nat)
    requires RowsOk(d, rows) && P.AllFit(rs) && P.Disjoint(rs) && P.IsTable(t, rs) && va < WORD
    ensures var parts := Parts(Output(d, rows, t), rows + [MmuRow(|rows|, |d|)]);
            parts != [] &&
            var part := parts[|parts| - 1];
            part.pa == MMU_PA && |part.content| == 4 * P.ENTRIES &&
            var e := U32(part.content, 4 * (va / P.M1));
            P.WalkEntry(e, va) == if e != 0 then P.VaToPa(rs, va) else None
  {
    PartsOfOutput(d, t, rows);
    P.EntriesFit(rs, va / P.M1);
    TableReadBack(t, va / P.M1);
    P.WalkAgrees(t, rs, va);
  }

  /** A reader of the file finds exactly these parts, in rows numbered from 1. */
  ghost predicate ReaderFinds(o: seq<Byte>, parts: seq<Part>) {
    && ReadToc(o).Some? && InFile(o, ReadToc(o).value) && Parts(o, ReadToc(o).value) == parts
    && forall i :: 0 <= i < |ReadToc(o).value| ==> ReadToc(o).value[i].id == i + 1
  }

  /** The last part that a reader finds is a page table that translates as the list does, or faults. */
  ghost predicate WalksAsListed(o: seq<Byte>, rs: seq<P.Region>) {
    ReadToc(o).Some? && InFile(o, ReadToc(o).value) &&
    var parts := Parts(o, ReadToc(o).value);
    parts != [] && TableWalks(parts[|parts| - 1], rs)
  }

  ghost predicate TableWalks(part: Part, rs: seq<P.Region>) {
    part.pa == MMU_PA && |part.content| == 4 * P.ENTRIES &&
    forall va: nat :: va < WORD ==> EntryWalks(part.content, rs, va)
  }

  predicate EntryWalks(content: seq<Byte>, rs: seq<P.Region>, va: nat)
    requires |content| == 4 * P.ENTRIES && va < WORD
  {
    var e := U32(content, 4 * (va / P.M1));
    P.WalkEntry(e, va) == if e != 0 then P.VaToPa(rs, va) else None
  }

  lemma OutputWalks(d: seq<Byte>, rows: seq<Row>, rs: seq<P.Region>, t: seq<nat>)
    requires RowsOk(d, rows) && P.AllFit(rs) && P.Disjoint(rs) && P.IsTable(t, rs)
    ensures WalksAsListed(Output(d, rows, t), rs)
  {
    TocReadBack(d, rows, t);
    PartsOfOutput(d, t, rows);
    forall va: nat | va < WORD ensures EntryWalks(WordBytes(t), rs, va) {
      ReaderWalks(d, rows, rs, t, va);
    }
  }

  lemma HeaderKind(o: seq<Byte>, at: nat, kind: nat, da: nat, len: nat)
    requires kind < WORD && at + 16 <= |o| && o[at..at + 16] == SectionHeader(kind, da, len)
    ensures U32(o, at) == kind
  {
    assert o[at..at + 4] == o[at..at + 16][..4] == SectionHeader(kind, da, len)[..4] == Le32(kind);
    ReadBack(o, at, kind);
  }

  /** The walk of check_image over the output meets the appended section at the latest. */
  lemma {:induction false} WalkFindsMmu(d: seq<Byte>, o: seq<Byte>, p: nat)
    requires Tiles(d, p) && |d| + 16 <= |o| && d == o[..|d|] && U32(o, |d|) == FW_MMU
    ensures CheckSections(o, p) == Processed
    decreases |d| - p
  {
    if p < |d| {
      SameWord(d, o, p);
      SameWord(d, o, p + 12);
      WalkFindsMmu(d, o, Next(d, p));
    }
  }

  lemma SameHeader(d: seq<Byte>, o: seq<Byte>)
    requires HasHeader(d) && |d| <= |o| && d == o[..|d|]
    ensures HasHeader(o) && First(o) == First(d)
  {
    assert o[..4] == d[..4];
    SameWord(d, o, 8);
  }

  /** The output of the post-processor is reported as already processed. */
  lemma OutputIsProcessed(d: seq<Byte>, rows: seq<Row>, t: seq<nat>)
    requires HasHeader(d) && Tiles(d, First(d)) && |t| == P.ENTRIES
    ensures CheckImage(Output(d, rows, t)) == Processed
  {
    var o := Output(d, rows, t);
    OutputSlices(d, rows, t);
    HeaderKind(o, |d|, FW_MMU, MMU_PA, 4 * P.ENTRIES);
    SameHeader(d, o);
    WalkFindsMmu(d, o, First(d));
  }

  /** check_image passes a whole file exactly when none of its sections is of the two appended kinds. */
  lemma {:induction false} CleanExactly(d: seq<Byte>, p: nat)
    requires Tiles(d, p)
    ensures CheckSections(d, p) == Clean <==> forall q :: q in Starts(d, p) ==> U32(d, q) != FW_MMU && U32(d, q) != FW_SIGNATURE
    ensures CheckSections(d, p) == Clean || CheckSections(d, p) == Processed
    decreases |d| - p
  {
    if p < |d| {
      CleanExactly(d, Next(d, p));
      assert p in Starts(d, p);
    }
  }

  /** Where the sections from p on start. */
  function Starts(d: seq<Byte>, p: nat): (s: set<nat>)
    requires Tiles(d, p)
    ensures forall q :: q in s ==> HasSection(d, q)
    decreases |d| - p
  {
    if p == |d| then {} else {p} + Starts(d, Next(d, p))
  }
}
