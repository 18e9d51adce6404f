/**
 * The catalogue of single-cell technologies: where, in which of a
 * technology's FASTQ files, the cell barcode, the UMI and the cDNA
 * sequence sit.
 */
module Technologies {
  import opened Wrappers
  import Text

  /**
   * The slice `[start:stop]` of the read in file number `file` of a
   * technology. A bound that is `None` is left open, as in a Python slice:
   * the sequence region is the whole read.
   */
  datatype ReadSubstring = ReadSubstring(file: nat, start: Option<nat>, stop: Option<nat>)

  /**
   * One technology. `whitelistFile` is the base name of the barcode
   * whitelist; the directory it is joined to is configuration.
   */
  datatype Technology = Technology(
    name: string,
    description: string,
    nFiles: nat,
    readsFile: ReadSubstring,
    umiPositions: seq<ReadSubstring>,
    barcodePositions: seq<ReadSubstring>,
    whitelistFile: string)
  {
    /** `str(technology)`. */
    function ToString(): string {
      name
    }
  }

  /**
   * A technology together with the order in which the input files fill its
   * file roles: read `i` of the technology comes from input file `permutation[i]`.
   */
  datatype OrderedTechnology = OrderedTechnology(technology: Technology, permutation: seq<nat>)
  {
    /** `str(ordered)`: the technology's string followed by the permutation tuple. */
    function ToString(): string {
      technology.ToString() + Text.TupleString(permutation)
    }
  }

  /** The printed form of an ordered technology starts with the technology's name and then shows the tuple. */
  lemma OrderedTechnologyString(o: OrderedTechnology)
    ensures var s := o.ToString();
      && |s| >= |o.technology.name| + 2
      && s[..|o.technology.name|] == o.technology.name
      && s[|o.technology.name|..] == Text.TupleString(o.permutation)
      && s[|o.technology.name|] == '(' && s[|s| - 1] == ')'
  {
  }

  function Region(file: nat, start: nat, stop: nat): ReadSubstring {
    ReadSubstring(file, Some(start), Some(stop))
  }

  /** The sequence region of a read: the whole read of one file. */
  function WholeRead(file: nat): ReadSubstring {
    ReadSubstring(file, None, None)
  }

  /** The barcode regions followed by the UMI regions, the order in which the FASTQ splitter scans them. */
  function Regions(t: Technology): seq<ReadSubstring> {
    t.barcodePositions + t.umiPositions
  }

  predicate Bounded(r: ReadSubstring) {
    r.start.Some? && r.stop.Some?
  }

  predicate AllBounded(rs: seq<ReadSubstring>) {
    forall r <- rs :: Bounded(r)
  }

  predicate Disjoint(a: ReadSubstring, b: ReadSubstring)
    requires Bounded(a) && Bounded(b)
  {
    a.stop.value <= b.start.value || b.stop.value <= a.start.value
  }

  /**
   * The layout invariant the rest of the program relies on: at most three
   * files; every barcode and UMI region is a non-empty bounded slice of one
   * of the files other than the sequence file; two regions in the same file
   * do not overlap; the sequence region is the whole read of its file.
   */
  predicate WellFormed(t: Technology) {
    && t.nFiles <= 3
    && t.readsFile.file < t.nFiles
    && t.readsFile.start.None? && t.readsFile.stop.None?
    && (forall r <- Regions(t) ::
          && Bounded(r) && r.start.value < r.stop.value
          && r.file < t.nFiles && r.file != t.readsFile.file)
    && (forall i, j :: 0 <= i < j < |Regions(t)| ==>
          var a, b := Regions(t)[i], Regions(t)[j];
          a.file == b.file && Bounded(a) && Bounded(b) ==> Disjoint(a, b))
  }

  const TenXv1 := Technology("10xv1", "10x version 1", 3, WholeRead(2),
                             [Region(1, 0, 10)], [Region(0, 0, 14)], "10xv1_whitelist.txt.gz")
  const TenXv2 := Technology("10xv2", "10x version 2", 2, WholeRead(1),
                             [Region(0, 16, 26)], [Region(0, 0, 16)], "10xv2_whitelist.txt.gz")
  const TenXv3 := Technology("10xv3", "10x version 3", 2, WholeRead(1),
                             [Region(0, 16, 28)], [Region(0, 0, 16)], "10xv3_whitelist.txt.gz")
  const InDropsV3 := Technology("indropsv3", "inDrops version 3", 3, WholeRead(2),
                                [Region(1, 8, 14)], [Region(0, 0, 8), Region(1, 0, 8)], "indropsv3_whitelist.txt.gz")

  /** `TECHNOLOGIES`. */
  const Registry: seq<Technology> := [TenXv1, TenXv2, TenXv3, InDropsV3]

  /** The layout invariant, checked region by region and pair by pair on an explicit list of regions. */
  lemma WellFormedFromRegions(t: Technology, rs: seq<ReadSubstring>)
    requires rs == Regions(t)
    requires t.nFiles <= 3 && t.readsFile.file < t.nFiles
    requires t.readsFile.start.None? && t.readsFile.stop.None?
    requires forall k :: 0 <= k < |rs| ==>
      Bounded(rs[k]) && rs[k].start.value < rs[k].stop.value && rs[k].file < t.nFiles && rs[k].file != t.readsFile.file
    requires forall i, j :: 0 <= i < j < |rs| && rs[i].file == rs[j].file ==> Disjoint(rs[i], rs[j])
    ensures WellFormed(t)
  {
  }

  /** Every registered technology satisfies the layout invariant. */
  lemma RegistryWellFormed()
    ensures forall t <- Registry :: WellFormed(t)
  {
    TenXWellFormed();
    InDropsV3WellFormed();
  }

  lemma TenXWellFormed()
    ensures WellFormed(TenXv1) && WellFormed(TenXv2) && WellFormed(TenXv3)
  {
    WellFormedFromRegions(TenXv1, [Region(0, 0, 14), Region(1, 0, 10)]);
    WellFormedFromRegions(TenXv2, [Region(0, 0, 16), Region(0, 16, 26)]);
    WellFormedFromRegions(TenXv3, [Region(0, 0, 16), Region(0, 16, 28)]);
  }

  lemma InDropsV3WellFormed()
    ensures WellFormed(InDropsV3)
  {
    var rs := [Region(0, 0, 8), Region(1, 0, 8), Region(1, 8, 14)];
    assert forall i, j :: 0 <= i < j < 3 && rs[i].file == rs[j].file ==> i == 1 && j == 2;
    WellFormedFromRegions(InDropsV3, rs);
  }

  predicate UniqueNames(ts: seq<Technology>) {
    forall i, j :: 0 <= i < j < |ts| ==> ts[i].name != ts[j].name
  }

  /** `{t.name: t for t in ts}`: later entries win over earlier ones with the same name. */
  function NameIndex(ts: seq<Technology>): (m: map<string, Technology>)
    ensures m.Keys == set t <- ts :: t.name
  {
    if ts == [] then map[] else NameIndex(ts[..|ts| - 1])[ts[|ts| - 1].name := ts[|ts| - 1]]
  }

  /** With unique names, the index maps every technology's name back to that technology. */
  lemma {:induction false} NameIndexLookup(ts: seq<Technology>)
    requires UniqueNames(ts)
    ensures forall t <- ts :: NameIndex(ts)[t.name] == t
  {
    if ts != [] {
      var init := ts[..|ts| - 1];
      assert UniqueNames(init);
      NameIndexLookup(init);
      forall t <- ts
        ensures NameIndex(ts)[t.name] == t
      {
        if t != ts[|ts| - 1] {
          var k :| 0 <= k < |init| && init[k] == t;
          assert ts[k] == t;
        }
      }
    }
  }

  /** `TECHNOLOGIES_MAPPING`. */
  const Mapping: map<string, Technology> := NameIndex(Registry)

  lemma RegistryNamesUnique()
    ensures UniqueNames(Registry)
  {
  }

  /** `TECHNOLOGIES_MAPPING[t.name] == t` for every registered `t`, and it has no other keys. */
  lemma MappingLookup()
    ensures forall t <- Registry :: t.name in Mapping && Mapping[t.name] == t
    ensures Mapping.Keys == {"10xv1", "10xv2", "10xv3", "indropsv3"}
  {
    RegistryNamesUnique();
    NameIndexLookup(Registry);
    var names := set t <- Registry :: t.name;
    assert names == {Registry[0].name, Registry[1].name, Registry[2].name, Registry[3].name};
  }

  /** `sum(r.stop - r.start for r in rs)`. */
  function SpanSum(rs: seq<ReadSubstring>): int
    requires AllBounded(rs)
  {
    if rs == [] then 0
    else
      assert Bounded(rs[|rs| - 1]);
      SpanSum(rs[..|rs| - 1]) + (rs[|rs| - 1].stop.value - rs[|rs| - 1].start.value)
  }

  predicate IsTenX(t: Technology) {
    "10x" <= t.name
  }

  predicate HasLengthKey(t: Technology) {
    AllBounded(t.barcodePositions) && AllBounded(t.umiPositions)
  }

  /** (total barcode length, total UMI length) of a technology. */
  function LengthKey(t: Technology): (int, int)
    requires HasLengthKey(t)
  {
    (SpanSum(t.barcodePositions), SpanSum(t.umiPositions))
  }

  /** The registered 10x technologies are 10xv1, 10xv2 and 10xv3, with pairwise distinct length keys. */
  lemma TenXKeysDistinct()
    ensures forall t <- Registry :: IsTenX(t) <==> t == Registry[0] || t == Registry[1] || t == Registry[2]
    ensures forall t <- Registry :: HasLengthKey(t)
    ensures LengthKey(Registry[0]) == (14, 10)
    ensures LengthKey(Registry[1]) == (16, 10)
    ensures LengthKey(Registry[2]) == (16, 12)
    ensures forall s <- Registry, u <- Registry ::
      IsTenX(s) && IsTenX(u) && HasLengthKey(s) && HasLengthKey(u) && LengthKey(s) == LengthKey(u) ==> s == u
  {
    assert Registry[3].name[0] == 'i';
    assert !IsTenX(Registry[3]);
    assert LengthKey(Registry[0]) == (14, 10);
    assert LengthKey(Registry[1]) == (16, 10);
    assert LengthKey(Registry[2]) == (16, 12);
    forall s, u | s in Registry && u in Registry && IsTenX(s) && IsTenX(u) && HasLengthKey(s) && HasLengthKey(u)
      && LengthKey(s) == LengthKey(u)
      ensures s == u
    {
      assert s == Registry[0] || s == Registry[1] || s == Registry[2];
      assert u == Registry[0] || u == Registry[1] || u == Registry[2];
    }
  }
}
