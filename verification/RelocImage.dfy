/**
  The scan of a relocation table and the patches it makes, together: what the loader's image of a
  module looks like when all relocations are done (src/utils/elfload/arm_reloc.c).
 */
module RelocImage {
  import P = Placement
  import opened RelocScan

  /** The place of an entry in the image: where it is and how many units it takes. */
  datatype Site = Site(at: nat, width: nat)

  predicate Apart(a: Site, b: Site) {
    a.at + a.width <= b.at || b.at + b.width <= a.at
  }

  predicate AllApart(sites: seq<Site>) {
    forall i, k :: 0 <= i < k < |sites| ==> Apart(sites[i], sites[k])
  }

  predicate AllInside(sites: seq<Site>, size: nat) {
    forall i :: 0 <= i < |sites| ==> sites[i].at + sites[i].width <= size
  }

  /** The units at a site. */
  function At<T>(image: seq<T>, s: Site): (r: seq<T>)
    requires s.at + s.width <= |image|
    ensures |r| == s.width
  {
    image[s.at..s.at + s.width]
  }

  function Replaced<T>(image: seq<T>, s: Site, part: seq<T>): (r: seq<T>)
    requires s.at + s.width <= |image| && |part| == s.width
    ensures |r| == |image|
    ensures forall k :: 0 <= k < |image| ==> r[k] == if s.at <= k < s.at + s.width then part[k - s.at] else image[k]
  {
    image[..s.at] + part + image[s.at + s.width..]
  }

  /** `fix` is what applying entry rid makes of the units at its site: the addend may be read from them. */
  ghost predicate KeepsWidth<T(!new)>(fix: (nat, seq<T>) -> seq<T>) {
    forall rid, part :: |fix(rid, part)| == |part|
  }

  predicate InTable(log: seq<Applied>, n: nat) {
    forall i :: 0 <= i < |log| ==> log[i].rid < n
  }

  /** The image after the entries of the log have been applied one by one. */
  ghost function Patched<T(!new)>(log: seq<Applied>, sites: seq<Site>, fix: (nat, seq<T>) -> seq<T>, image: seq<T>): (r: seq<T>)
    requires InTable(log, |sites|) && AllInside(sites, |image|) && KeepsWidth(fix)
    ensures |r| == |image|
  {
    if log == [] then image
    else
      var before := Patched(log[..|log| - 1], sites, fix, image);
      var rid := log[|log| - 1].rid;
      Replaced(before, sites[rid], fix(rid, At(before, sites[rid])))
  }

  predicate NoneTwice(log: seq<Applied>) {
    forall i, k :: 0 <= i < k < |log| ==> log[i].rid != log[k].rid
  }

  predicate Listed(log: seq<Applied>, rid: nat) {
    exists i :: 0 <= i < |log| && log[i].rid == rid
  }

  lemma ReplacedAt<T>(image: seq<T>, s: Site, part: seq<T>, o: Site)
    requires s.at + s.width <= |image| && |part| == s.width && o.at + o.width <= |image|
    ensures At(Replaced(image, s, part), s) == part
    ensures Apart(o, s) ==> At(Replaced(image, s, part), o) == At(image, o)
  {
  }

  /** Each site holds one patch of what it held first, or what it held. */
  lemma {:induction false} PatchedAt<T(!new)>(log: seq<Applied>, sites: seq<Site>, fix: (nat, seq<T>) -> seq<T>,
                                              image: seq<T>, c: nat)
    requires InTable(log, |sites|) && AllInside(sites, |image|) && KeepsWidth(fix) && AllApart(sites) && NoneTwice(log)
    requires c < |sites|
    ensures At(Patched(log, sites, fix, image), sites[c]) ==
            if Listed(log, c) then fix(c, At(image, sites[c])) else At(image, sites[c])
  {
    if log != [] {
      var rest, rid := log[..|log| - 1], log[|log| - 1].rid;
      var before := Patched(rest, sites, fix, image);
      PatchedAt(rest, sites, fix, image, c);
      ListedLast(log, c);
      ReplacedAt(before, sites[rid], fix(rid, At(before, sites[rid])), sites[c]);
      assert c != rid ==> Apart(sites[c], sites[rid]);
    }
  }

  lemma ListedLast(log: seq<Applied>, c: nat)
    requires log != [] && NoneTwice(log)
    ensures Listed(log, c) <==> Listed(log[..|log| - 1], c) || c == log[|log| - 1].rid
    ensures c == log[|log| - 1].rid ==> !Listed(log[..|log| - 1], c)
  {
    var rest := log[..|log| - 1];
    if Listed(log, c) {
      var i :| 0 <= i < |log| && log[i].rid == c;
      assert i < |rest| ==> rest[i].rid == c;
    }
    if Listed(rest, c) {
      var i :| 0 <= i < |rest| && rest[i].rid == c;
      assert log[i].rid == c;
    }
  }

  predicate Outside(sites: seq<Site>, k: nat) {
    forall i :: 0 <= i < |sites| ==> !(sites[i].at <= k < sites[i].at + sites[i].width)
  }

  lemma {:induction false} PatchedElsewhere<T(!new)>(log: seq<Applied>, sites: seq<Site>, fix: (nat, seq<T>) -> seq<T>,
                                                     image: seq<T>, k: nat)
    requires InTable(log, |sites|) && AllInside(sites, |image|) && KeepsWidth(fix) && k < |image| && Outside(sites, k)
    ensures Patched(log, sites, fix, image)[k] == image[k]
  {
    if log != [] {
      PatchedElsewhere(log[..|log| - 1], sites, fix, image, k);
    }
  }

  lemma RunInTable(gs: seq<Loaded>, table: seq<Rel>)
    ensures InTable(Run(gs, |gs|, table), |table|)
  {
    RunOrder(gs, |gs|, table);
  }

  lemma RunNoneTwice(gs: seq<Loaded>, table: seq<Rel>)
    requires Well(gs) && P.DisjointSegments(Segments(gs))
    ensures NoneTwice(Run(gs, |gs|, table))
  {
    var log := Run(gs, |gs|, table);
    forall i, k | 0 <= i < k < |log| ensures log[i].rid != log[k].rid {
      AtMostOnce(gs, table, i, k);
    }
  }

  /** The entry's symbol is found and its segment has bytes. */
  predicate Wanted(gs: seq<Loaded>, table: seq<Rel>, c: nat)
    requires c < |table|
  {
    var t := P.Home(Segments(gs), table[c].offset);
    t < |gs| && gs[t].filled && table[c].resolves
  }

  lemma {:induction false} WantedIsListed(gs: seq<Loaded>, table: seq<Rel>, c: nat)
    requires Well(gs) && P.DisjointSegments(Segments(gs)) && InTurn(gs, table) && c < |table|
    ensures Listed(Run(gs, |gs|, table), c) <==> Wanted(gs, table, c)
  {
    var log, home := Run(gs, |gs|, table), P.Home(Segments(gs), table[c].offset);
    if Listed(log, c) {
      var i :| 0 <= i < |log| && log[i].rid == c;
      assert Applied(c, log[i].seg) in log;
      AppliedInTurn(gs, table, c, log[i].seg);
    }
    if Wanted(gs, table, c) {
      AppliedInTurn(gs, table, c, home);
      var i :| 0 <= i < |log| && log[i] == Applied(c, home);
    }
  }

  /**
    The image when the scan is done, for disjoint segments, a table in turn and sites that do not
    overlap: at the site of each entry that is wanted there is one patch of the original units, and
    at the other sites what was there.
   */
  lemma {:induction false} EachPatchedOnce<T(!new)>(gs: seq<Loaded>, table: seq<Rel>, sites: seq<Site>,
                                                    fix: (nat, seq<T>) -> seq<T>, image: seq<T>, c: nat)
    requires Well(gs) && P.DisjointSegments(Segments(gs)) && InTurn(gs, table) && KeepsWidth(fix)
    requires |sites| == |table| && AllApart(sites) && AllInside(sites, |image|) && c < |table|
    ensures InTable(Run(gs, |gs|, table), |sites|)
    ensures At(Patched(Run(gs, |gs|, table), sites, fix, image), sites[c]) ==
            if Wanted(gs, table, c) then fix(c, At(image, sites[c])) else At(image, sites[c])
  {
    RunInTable(gs, table);
    RunNoneTwice(gs, table);
    PatchedAt(Run(gs, |gs|, table), sites, fix, image, c);
    WantedIsListed(gs, table, c);
  }

  /** Everything outside the sites is as it was. */
  lemma {:induction false} RestIsKept<T(!new)>(gs: seq<Loaded>, table: seq<Rel>, sites: seq<Site>,
                                               fix: (nat, seq<T>) -> seq<T>, image: seq<T>, k: nat)
    requires KeepsWidth(fix) && |sites| == |table| && AllInside(sites, |image|) && k < |image| && Outside(sites, k)
    ensures InTable(Run(gs, |gs|, table), |sites|)
    ensures Patched(Run(gs, |gs|, table), sites, fix, image)[k] == image[k]
  {
    RunInTable(gs, table);
    PatchedElsewhere(Run(gs, |gs|, table), sites, fix, image, k);
  }
}
