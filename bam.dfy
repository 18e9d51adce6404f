/**
 * Splitting a 10x BAM file back into the FASTQ files the sequencer wrote.
 *
 * The BAM file is the sequence of its alignment records, in file order; an
 * output FASTQ file is the sequence of lines written to it.
 */
module Bam {
  import opened Wrappers
  import opened Text
  import opened Technologies
  import opened Numbers

  /** A base quality as pysam hands it out: an unsigned char. */
  type Byte = x: int | 0 <= x < 256

  /** One alignment record: its name, bases, Phred base qualities and string-valued tags. */
  datatype Alignment = Alignment(
    queryName: string,
    querySequence: string,
    queryQualities: seq<Byte>,
    tags: map<string, string>)

  /** A read under construction: bases and their quality characters. */
  datatype Read = Read(sequence: string, quality: string)

  /** What an extraction function returns: the barcode parts, the UMI parts and the cDNA read. */
  datatype Extracted = Extracted(barcodes: seq<Read>, umis: seq<Read>, sequence: Read)

  datatype BamError =
    | MissingTag(tag: string)                              // `get_tag` of an absent tag
    | LengthMismatch                                       // the length assertion of `extract_10x`
    | NoTenXTechnology(barcodeLength: nat, umiLength: nat) // no 10x technology has these lengths
    | DetectionFailed                                      // empty file, or first record not from 10x
    | NoExtractFunction(name: string)                      // technology absent from `EXTRACT_FUNCTIONS`
    | LengthTableFailed                                    // a region without a stop, or past the third file
    | NoSequenceSlot(file: nat)                            // the sequence file is past the third

  /** A BAM file with the technology detected from it. */
  datatype Bam = Bam(records: seq<Alignment>, technology: Technology)

  predicate Paired(r: Read) {
    |r.sequence| == |r.quality|
  }

  // ---------------------------------------------------------------------------
  // Qualities and tag extraction

  /** Phred+33 encoding of base qualities, as the QUAL field of section 1.4 of the SAM format specification. */
  function Phred(qs: seq<Byte>): (r: string)
    ensures |r| == |qs|
    ensures forall i :: 0 <= i < |qs| ==> r[i] as int == qs[i] as int + 33 && '!' <= r[i]
  {
    seq(|qs|, i requires 0 <= i < |qs| => (qs[i] as int + 33) as char)
  }

  /** Decoding of a Phred+33 quality string. */
  function PhredValues(s: string): seq<int> {
    seq(|s|, i requires 0 <= i < |s| => s[i] as int - 33)
  }

  lemma PhredRoundTrip(qs: seq<Byte>)
    ensures PhredValues(Phred(qs)) == qs
  {
  }

  /** The tags of a 10x record: raw barcode, its qualities, raw UMI, its qualities. */
  const TenXTags: seq<string> := ["CR", "CY", "UR", "UY"]

  predicate HasTenXTags(a: Alignment) {
    forall tag <- TenXTags :: tag in a.tags
  }

  /** `extract_10x`: the barcode, UMI and cDNA read of a 10x record, each with its qualities. */
  function Extract10x(a: Alignment): (r: Result<Extracted, BamError>)
    ensures r.Ok? <==>
      && HasTenXTags(a)
      && |a.tags["CR"]| == |a.tags["CY"]| && |a.tags["UR"]| == |a.tags["UY"]|
      && |a.querySequence| == |a.queryQualities|
    ensures r.Ok? ==>
      && r.value.barcodes == [Read(a.tags["CR"], a.tags["CY"])]
      && r.value.umis == [Read(a.tags["UR"], a.tags["UY"])]
      && r.value.sequence == Read(a.querySequence, Phred(a.queryQualities))
    ensures r.Err? && !HasTenXTags(a) ==>
      r.error.MissingTag? && r.error.tag in TenXTags && r.error.tag !in a.tags
    ensures r.Err? && HasTenXTags(a) ==> r.error == LengthMismatch
  {
    if "CR" !in a.tags then Err(MissingTag("CR"))
    else if "CY" !in a.tags then Err(MissingTag("CY"))
    else if "UR" !in a.tags then Err(MissingTag("UR"))
    else if "UY" !in a.tags then Err(MissingTag("UY"))
    else
      var barcode := Read(a.tags["CR"], a.tags["CY"]);
      var umi := Read(a.tags["UR"], a.tags["UY"]);
      var sequence := Read(a.querySequence, Phred(a.queryQualities));
      if Paired(barcode) && Paired(umi) && Paired(sequence) then Ok(Extracted([barcode], [umi], sequence))
      else Err(LengthMismatch)
  }

  /** The technologies `BAM.EXTRACT_FUNCTIONS` knows; every one of them uses `extract_10x`. */
  predicate HasExtractFunction(name: string) {
    name in {"10xv1", "10xv2", "10xv3"}
  }

  // ---------------------------------------------------------------------------
  // Technology detection

  predicate TenXKeyed(ts: seq<Technology>) {
    forall t <- ts :: IsTenX(t) ==> HasLengthKey(t)
  }

  /** The dictionary from (barcode length, UMI length) to 10x technology that detection builds. */
  function TenXTable(ts: seq<Technology>): (m: map<(int, int), Technology>)
    requires TenXKeyed(ts)
    ensures forall k <- m :: m[k] in ts && IsTenX(m[k]) && HasLengthKey(m[k]) && LengthKey(m[k]) == k
    ensures forall t <- ts :: IsTenX(t) ==> LengthKey(t) in m
  {
    if ts == [] then map[]
    else
      var m := TenXTable(ts[..|ts| - 1]);
      var t := ts[|ts| - 1];
      if IsTenX(t) then m[LengthKey(t) := t] else m
  }

  /** The length key of a record: the lengths of its raw barcode and raw UMI. */
  function RecordKey(a: Alignment): (int, int)
    requires HasTenXTags(a)
  {
    (|a.tags["CR"]|, |a.tags["UR"]|)
  }

  /**
   * `BAM.detect_technology`: only the first record is looked at. Without
   * records, or when the first lacks a 10x tag, detection fails; otherwise
   * the result is the 10x technology whose length key is the record's, and
   * it is an error that there is none.
   */
  function DetectTechnology(records: seq<Alignment>): (r: Result<Technology, BamError>)
    ensures records == [] || !HasTenXTags(records[0]) ==> r == Err(DetectionFailed)
    ensures r.Ok? ==>
      && records != [] && HasTenXTags(records[0])
      && r.value in Registry && IsTenX(r.value) && HasLengthKey(r.value)
      && LengthKey(r.value) == RecordKey(records[0])
    ensures records != [] && HasTenXTags(records[0]) ==>
      && (r.Ok? <==> exists t <- Registry :: IsTenX(t) && HasLengthKey(t) && LengthKey(t) == RecordKey(records[0]))
      && (r.Err? ==> r.error == NoTenXTechnology(|records[0].tags["CR"]|, |records[0].tags["UR"]|))
  {
    if records == [] || !HasTenXTags(records[0]) then Err(DetectionFailed)
    else
      TenXKeysDistinct();
      var table := TenXTable(Registry);
      var key := RecordKey(records[0]);
      if key in table then Ok(table[key])
      else Err(NoTenXTechnology(|records[0].tags["CR"]|, |records[0].tags["UR"]|))
  }

  /** Since the 10x keys are distinct, the detected technology is the one 10x technology with the record's key. */
  lemma DetectTechnologyUnique(records: seq<Alignment>, t: Technology)
    requires records != [] && HasTenXTags(records[0])
    requires t in Registry && IsTenX(t) && HasLengthKey(t) && LengthKey(t) == RecordKey(records[0])
    ensures DetectTechnology(records) == Ok(t)
  {
    TenXKeysDistinct();
    var r := DetectTechnology(records);
    assert r.Ok?;
    assert LengthKey(r.value) == LengthKey(t);
  }

  /** A record with a 16-base barcode and a 10-base UMI comes from 10x version 2. */
  lemma DetectTenXv2(records: seq<Alignment>)
    requires records != [] && HasTenXTags(records[0])
    requires |records[0].tags["CR"]| == 16 && |records[0].tags["UR"]| == 10
    ensures DetectTechnology(records) == Ok(Mapping["10xv2"])
  {
    TenXKeysDistinct();
    MappingLookup();
    DetectTechnologyUnique(records, Registry[1]);
  }

  /**
   * `BAM(path)`: opening a BAM file detects its technology, which is then
   * one of the registered 10x technologies and fits the length table of
   * `to_fastq`; detection's error is passed on.
   */
  function Open(records: seq<Alignment>): (r: Result<Bam, BamError>)
    ensures r.Ok? <==> DetectTechnology(records).Ok?
    ensures r.Ok? ==> && r.value.records == records
                      && r.value.technology in Registry && IsTenX(r.value.technology)
                      && FitsLengthTable(r.value.technology)
    ensures r.Err? ==> r.error == DetectTechnology(records).error
  {
    RegistryWellFormed();
    match DetectTechnology(records)
    case Ok(t) => Ok(Bam(records, t))
    case Err(e) => Err(e)
  }

  // ---------------------------------------------------------------------------
  // Splitting into FASTQ files

  /** The name of output file number `i` (counting from 1). */
  function FastqName(prefix: string, i: nat): string {
    (if prefix != "" then prefix + "_" else "") + NatToString(i) + ".fastq.gz"
  }

  /** A name ends in `.fastq.gz`; with a prefix it starts with `prefix_` and a digit, without one it starts with a digit. */
  lemma FastqNameShape(prefix: string, i: nat)
    ensures var name := FastqName(prefix, i);
      && |name| > 9 && name[|name| - 9..] == ".fastq.gz"
      && (prefix != "" ==> |name| > |prefix| + 10 && name[..|prefix| + 1] == prefix + "_" && IsDigit(name[|prefix| + 1]))
      && (prefix == "" ==> IsDigit(name[0]))
  {
  }

  /** The names `to_fastq` writes: `prefix_1.fastq.gz`, ... or `1.fastq.gz`, ... without a prefix. */
  function FastqNames(prefix: string, n: nat): (names: seq<string>)
    ensures |names| == n
  {
    seq(n, i requires 0 <= i < n => FastqName(prefix, i + 1))
  }

  lemma FastqNameInjective(prefix: string, i: nat, j: nat)
    requires FastqName(prefix, i) == FastqName(prefix, j)
    ensures i == j
  {
    var p := if prefix != "" then prefix + "_" else "";
    var s := FastqName(prefix, i);
    assert s == p + NatToString(i) + ".fastq.gz";
    assert s == p + NatToString(j) + ".fastq.gz";
    assert |NatToString(i)| == |NatToString(j)|;
    assert NatToString(i) == s[|p|..|s| - 9];
    assert NatToString(j) == s[|p|..|s| - 9];
    NatToStringInjective(i, j);
  }

  /** Exactly `n` names, numbered 1 to `n` in order, all different. */
  lemma FastqNamesDistinct(prefix: string, n: nat)
    ensures var names := FastqNames(prefix, n);
      && |names| == n
      && (forall i :: 0 <= i < n ==> names[i] == FastqName(prefix, i + 1))
      && (forall i, j :: 0 <= i < j < n ==> names[i] != names[j])
  {
    var names := FastqNames(prefix, n);
    forall i, j | 0 <= i < j < n
      ensures names[i] != names[j]
    {
      if names[i] == names[j] {
        FastqNameInjective(prefix, i + 1, j + 1);
      }
    }
  }

  /** The sample FASTQ names of a BAM with prefix `10xv2` and two files. */
  lemma FastqNamesWithPrefix()
    ensures FastqNames("10xv2", 2) == ["10xv2_1.fastq.gz", "10xv2_2.fastq.gz"]
  {
    assert NatToString(1) == "1" && NatToString(2) == "2";
    var a := FastqNames("10xv2", 2);
    assert a[0] == "10xv2_1.fastq.gz" && a[1] == "10xv2_2.fastq.gz";
  }

  lemma FastqNamesWithoutPrefix()
    ensures FastqNames("", 3) == ["1.fastq.gz", "2.fastq.gz", "3.fastq.gz"]
  {
    assert NatToString(1) == "1" && NatToString(2) == "2" && NatToString(3) == "3";
    var b := FastqNames("", 3);
    assert b[0] == "1.fastq.gz" && b[1] == "2.fastq.gz" && b[2] == "3.fastq.gz";
  }

  /** A region the length table can take: it has a stop. */
  predicate Stopped(r: ReadSubstring) {
    r.stop.Some?
  }

  /** Where a region's slice begins: an open start is 0, as in a Python slice. */
  function StartOf(r: ReadSubstring): nat {
    if r.start.Some? then r.start.value else 0
  }

  /**
   * `to_fastq` keeps one read length per file in a three-slot list: its loop
   * gets through when every barcode and UMI region has a stop and lies in one
   * of files 0 to 2.
   */
  predicate FitsLengthTable(t: Technology) {
    forall r <- Regions(t) :: Stopped(r) && r.file < 3
  }

  lemma WellFormedFitsLengthTable(t: Technology)
    requires WellFormed(t)
    ensures FitsLengthTable(t)
  {
  }

  predicate InLengthTable(rs: seq<ReadSubstring>) {
    forall r <- rs :: Stopped(r) && r.file < 3
  }

  /** The `lengths` list after its loop: slot `f` raised to each region's stop, in order. */
  function Lengths(rs: seq<ReadSubstring>): (l: seq<nat>)
    requires InLengthTable(rs)
    ensures |l| == 3
  {
    if rs == [] then [0, 0, 0]
    else
      var l := Lengths(rs[..|rs| - 1]);
      var r := rs[|rs| - 1];
      l[r.file := Max(l[r.file], r.stop.value)]
  }

  /** Slot `f` of the length table is the largest stop of a region in file `f`, or 0 when there is none. */
  lemma {:induction false} LengthsAreMaxStops(rs: seq<ReadSubstring>, f: nat)
    requires InLengthTable(rs) && f < 3
    ensures forall r <- rs :: r.file == f ==> r.stop.value <= Lengths(rs)[f]
    ensures Lengths(rs)[f] == 0 || exists r <- rs :: r.file == f && r.stop.value == Lengths(rs)[f]
  {
    if rs != [] {
      var init := rs[..|rs| - 1];
      LengthsAreMaxStops(init, f);
      assert rs == init + [rs[|rs| - 1]];
      if Lengths(rs)[f] != 0 && Lengths(rs)[f] == Lengths(init)[f] {
        var r :| r in init && r.file == f && r.stop.value == Lengths(init)[f];
        assert r in rs;
      }
    }
  }

  /** The loop that fills `lengths`, over a three-slot array. */
  method ComputeLengths(rs: seq<ReadSubstring>) returns (lengths: seq<nat>)
    requires InLengthTable(rs)
    ensures lengths == Lengths(rs)
  {
    var slots := new nat[3];
    slots[0], slots[1], slots[2] := 0, 0, 0;
    for i := 0 to |rs|
      invariant slots[..] == Lengths(rs[..i])
    {
      var r := rs[i];
      assert rs[..i + 1][..i] == rs[..i];
      slots[r.file] := Max(slots[r.file], r.stop.value);
    }
    assert rs[..|rs|] == rs;
    lengths := slots[..];
  }

  /** `[['N'] * l, ['F'] * l]` for each length: unknown bases, quality `F`. */
  function Placeholders(lengths: seq<nat>): (buffers: seq<Read>)
    ensures |buffers| == |lengths|
  {
    seq(|lengths|, i requires 0 <= i < |lengths| => Read(Repeat('N', lengths[i]), Repeat('F', lengths[i])))
  }

  /** Each placeholder read has as many qualities as bases, all `N` and all `F`. */
  lemma PlaceholdersShape(lengths: seq<nat>, i: nat)
    requires i < |lengths|
    ensures var r := Placeholders(lengths)[i];
      && Paired(r) && |r.sequence| == lengths[i]
      && (forall k :: 0 <= k < lengths[i] ==> r.sequence[k] == 'N' && r.quality[k] == 'F')
  {
  }

  /**
   * Python's slice assignment `l[start:stop] = x` for non-negative bounds:
   * both bounds are clipped to the list, a stop before the start is the
   * start, and the part between them is replaced by `x`.
   */
  function Splice(l: string, start: nat, stop: nat, x: string): string {
    var a := Min(start, |l|);
    var b := Max(a, Min(stop, |l|));
    l[..a] + x + l[b..]
  }

  /** Slice assignment keeps what lies before the clipped start and after the clipped stop, with `x` between them. */
  lemma SpliceSpec(l: string, start: nat, stop: nat, x: string)
    ensures var r := Splice(l, start, stop, x);
      var a := if start <= |l| then start else |l|;
      var b := if stop < a then a else if stop <= |l| then stop else |l|;
      && |r| == |l| - (b - a) + |x|
      && r[..a] == l[..a] && r[a..a + |x|] == x && r[a + |x|..] == l[b..]
  {
  }

  /** Within the list's bounds, slice assignment is plain concatenation. */
  lemma SpliceInside(l: string, start: nat, stop: nat, x: string)
    requires start <= stop <= |l|
    ensures Splice(l, start, stop, x) == l[..start] + x + l[stop..]
  {
  }

  /** Writing a value of the slice's own length into a slice inside the list keeps the length and changes only the slice. */
  lemma SpliceAt(l: string, start: nat, stop: nat, x: string)
    requires start <= stop <= |l| && |x| == stop - start
    ensures var r := Splice(l, start, stop, x);
      && |r| == |l|
      && r[start..stop] == x
      && (forall i :: 0 <= i < |l| && !(start <= i < stop) ==> r[i] == l[i])
  {
  }

  /** Splicing values of equal lengths into lists of equal lengths gives lists of equal lengths. */
  lemma SplicePaired(l: string, m: string, start: nat, stop: nat, x: string, y: string)
    ensures |l| == |m| && |x| == |y| ==> |Splice(l, start, stop, x)| == |Splice(m, start, stop, y)|
  {
  }

  /** `reads[r.file][0][start:stop] = v[0]` and `reads[r.file][1][start:stop] = v[1]`. */
  function WriteRegion(buffers: seq<Read>, r: ReadSubstring, v: Read): seq<Read>
    requires Stopped(r) && r.file < |buffers|
  {
    var old_ := buffers[r.file];
    buffers[r.file := Read(Splice(old_.sequence, StartOf(r), r.stop.value, v.sequence),
                         Splice(old_.quality, StartOf(r), r.stop.value, v.quality))]
  }

  predicate RegionsFit(rs: seq<ReadSubstring>, n: nat) {
    forall k :: 0 <= k < |rs| ==> Stopped(rs[k]) && rs[k].file < n
  }

  /**
   * The loop `for v, r in zip(values, regions)` of region writes: the
   * writes of the pairs up to the end of the shorter list, in order.
   */
  function WriteRegions(buffers: seq<Read>, values: seq<Read>, regions: seq<ReadSubstring>): (out: seq<Read>)
    requires RegionsFit(regions, |buffers|)
    ensures |out| == |buffers|
  {
    WritePrefix(buffers, values, regions, Min(|values|, |regions|))
  }

  /** The writes of the first `n` pairs of the zip. */
  function WritePrefix(buffers: seq<Read>, values: seq<Read>, regions: seq<ReadSubstring>, n: nat): (out: seq<Read>)
    requires RegionsFit(regions, |buffers|) && n <= |values| && n <= |regions|
    ensures |out| == |buffers|
  {
    if n == 0 then buffers
    else
      assert regions[n - 1] in regions;
      WriteRegion(WritePrefix(buffers, values, regions, n - 1), regions[n - 1], values[n - 1])
  }

  /** The region writes leave every read outside the regions' files as it was. */
  lemma {:induction false} WritePrefixUntouched(buffers: seq<Read>, values: seq<Read>, regions: seq<ReadSubstring>, n: nat, f: nat)
    requires RegionsFit(regions, |buffers|) && n <= |values| && n <= |regions| && f < |buffers|
    requires forall r <- regions :: r.file != f
    ensures WritePrefix(buffers, values, regions, n)[f] == buffers[f]
  {
    if n > 0 {
      WritePrefixUntouched(buffers, values, regions, n - 1, f);
      assert regions[n - 1] in regions;
    }
  }

  /** The region writes keep every read paired when the values written are paired. */
  lemma {:induction false} WritePrefixPaired(buffers: seq<Read>, values: seq<Read>, regions: seq<ReadSubstring>, n: nat)
    requires RegionsFit(regions, |buffers|) && n <= |values| && n <= |regions|
    requires forall k :: 0 <= k < |buffers| ==> Paired(buffers[k])
    requires forall v <- values :: Paired(v)
    ensures forall k :: 0 <= k < |buffers| ==> Paired(WritePrefix(buffers, values, regions, n)[k])
  {
    if n > 0 {
      WritePrefixPaired(buffers, values, regions, n - 1);
      var prev := WritePrefix(buffers, values, regions, n - 1);
      var r := regions[n - 1];
      assert r in regions && values[n - 1] in values;
      SplicePaired(prev[r.file].sequence, prev[r.file].quality, StartOf(r), r.stop.value,
                   values[n - 1].sequence, values[n - 1].quality);
    }
  }

  /** The region-writing loop: `out == WriteRegions(reads, values, regions)`. */
  method WriteAll(buffers: seq<Read>, values: seq<Read>, regions: seq<ReadSubstring>) returns (out: seq<Read>)
    requires RegionsFit(regions, |buffers|)
    ensures out == WriteRegions(buffers, values, regions)
  {
    out := buffers;
    var n := Min(|values|, |regions|);
    for i := 0 to n
      invariant out == WritePrefix(buffers, values, regions, i)
    {
      var r := regions[i];
      assert r in regions;
      out := out[r.file := Read(Splice(out[r.file].sequence, StartOf(r), r.stop.value, values[i].sequence),
                                Splice(out[r.file].quality, StartOf(r), r.stop.value, values[i].quality))];
    }
  }

  /**
   * The reads built for one record: placeholders of the table's lengths,
   * the cDNA read in the sequence file's slot (an `IndexError` when there
   * is no such slot), then the barcode and UMI values written into their
   * regions.
   */
  function Reconstruct(t: Technology, lengths: seq<nat>, a: Alignment): (r: Result<seq<Read>, BamError>)
    requires FitsLengthTable(t) && |lengths| == 3
    ensures r.Ok? <==> HasExtractFunction(t.name) && Extract10x(a).Ok? && t.readsFile.file < 3
    ensures r.Err? && !HasExtractFunction(t.name) ==> r.error == NoExtractFunction(t.name)
    ensures r.Err? && HasExtractFunction(t.name) && Extract10x(a).Err? ==> r == Err(Extract10x(a).error)
    ensures r.Err? && HasExtractFunction(t.name) && Extract10x(a).Ok? ==> r.error == NoSequenceSlot(t.readsFile.file)
    ensures r.Ok? ==> |r.value| == 3 && forall k :: 0 <= k < 3 ==> Paired(r.value[k])
  {
    assert forall rg <- t.barcodePositions :: rg in Regions(t);
    assert forall rg <- t.umiPositions :: rg in Regions(t);
    if !HasExtractFunction(t.name) then Err(NoExtractFunction(t.name))
    else match Extract10x(a)
      case Err(e) => Err(e)
      case Ok(ex) =>
        if t.readsFile.file >= |lengths| then Err(NoSequenceSlot(t.readsFile.file))
        else
        var buffers := Placeholders(lengths)[t.readsFile.file := ex.sequence];
        assert forall k :: 0 <= k < 3 ==> Paired(buffers[k]);
        var withBarcodes := WriteRegions(buffers, ex.barcodes, t.barcodePositions);
        WritePrefixPaired(buffers, ex.barcodes, t.barcodePositions, Min(|ex.barcodes|, |t.barcodePositions|));
        WritePrefixPaired(withBarcodes, ex.umis, t.umiPositions, Min(|ex.umis|, |t.umiPositions|));
        Ok(WriteRegions(withBarcodes, ex.umis, t.umiPositions))
  }

  /** With the sequence file free of barcode and UMI regions, its slot holds exactly the record's bases and Phred+33 qualities. */
  lemma ReconstructSequenceSlot(t: Technology, lengths: seq<nat>, a: Alignment)
    requires WellFormed(t) && |lengths| == 3
    requires Reconstruct(t, lengths, a).Ok?
    ensures Reconstruct(t, lengths, a).value[t.readsFile.file] == Read(a.querySequence, Phred(a.queryQualities))
  {
    assert forall rg <- t.barcodePositions :: rg in Regions(t);
    assert forall rg <- t.umiPositions :: rg in Regions(t);
    var ex := Extract10x(a).value;
    var f := t.readsFile.file;
    var buffers := Placeholders(lengths)[f := ex.sequence];
    var withBarcodes := WriteRegions(buffers, ex.barcodes, t.barcodePositions);
    WritePrefixUntouched(buffers, ex.barcodes, t.barcodePositions, Min(|ex.barcodes|, |t.barcodePositions|), f);
    WritePrefixUntouched(withBarcodes, ex.umis, t.umiPositions, Min(|ex.umis|, |t.umiPositions|), f);
  }

  /** The four lines of one FASTQ record. */
  function RecordLines(name: string, read: Read): seq<string> {
    ["@" + name, Upper(read.sequence), "+", Upper(read.quality)]
  }

  /** The files after one record: `zip(files, reads)` appends read `k` to file `k`; files without a read keep their lines. */
  function Emit(files: seq<seq<string>>, name: string, buffers: seq<Read>): (out: seq<seq<string>>)
    ensures |out| == |files|
  {
    seq(|files|, k requires 0 <= k < |files| =>
      if k < |buffers| then files[k] + RecordLines(name, buffers[k]) else files[k])
  }

  /** The write loop for one record. */
  method WriteRecord(files: seq<seq<string>>, name: string, buffers: seq<Read>) returns (out: seq<seq<string>>)
    ensures out == Emit(files, name, buffers)
  {
    out := files;
    for k := 0 to Min(|files|, |buffers|)
      invariant |out| == |files|
      invariant forall j :: 0 <= j < |files| ==> out[j] == if j < k then files[j] + RecordLines(name, buffers[j]) else files[j]
    {
      out := out[k := out[k] + RecordLines(name, buffers[k])];
    }
  }

  function Last<T>(s: seq<T>): T
    requires s != []
  {
    s[|s| - 1]
  }

  /**
   * What the output files hold after `to_fastq` has worked through
   * `records`, and the error that stopped it, if any: records are handled
   * in order and the first failure ends the run, leaving what was written.
   */
  function Written(t: Technology, lengths: seq<nat>, records: seq<Alignment>): (w: (seq<seq<string>>, Option<BamError>))
    requires FitsLengthTable(t) && |lengths| == 3
    ensures |w.0| == t.nFiles
  {
    if records == [] then (seq(t.nFiles, _ => []), None)
    else
      var (files, err) := Written(t, lengths, records[..|records| - 1]);
      if err.Some? then (files, err)
      else match Reconstruct(t, lengths, Last(records))
        case Err(e) => (files, Some(e))
        case Ok(buffers) => (Emit(files, Last(records).queryName, buffers), None)
  }

  /** `lines[4j..4j+4]` is a FASTQ record for `name` whose bases and qualities have equal lengths. */
  predicate RecordAt(lines: seq<string>, j: nat, name: string)
    requires 4 * j + 3 < |lines|
  {
    lines[4 * j] == "@" + name && lines[4 * j + 2] == "+" && |lines[4 * j + 1]| == |lines[4 * j + 3]|
  }

  /**
   * `nFiles` files; each of the first three holds one record for each of
   * the first `m` alignments, in order; files past the third stay empty.
   */
  predicate Shaped(files: seq<seq<string>>, records: seq<Alignment>, m: nat, nFiles: nat)
    requires m <= |records|
  {
    && |files| == nFiles
    && (forall k :: 0 <= k < nFiles ==> |files[k]| == if k < 3 then 4 * m else 0)
    && (forall k, j :: 0 <= k < Min(nFiles, 3) && 0 <= j < m ==> RecordAt(files[k], j, records[j].queryName))
  }

  lemma EmitShaped(files: seq<seq<string>>, records: seq<Alignment>, m: nat, nFiles: nat, buffers: seq<Read>)
    requires m < |records| && Shaped(files, records, m, nFiles)
    requires |buffers| == 3 && forall k :: 0 <= k < 3 ==> Paired(buffers[k])
    ensures Shaped(Emit(files, records[m].queryName, buffers), records, m + 1, nFiles)
  {
    var out := Emit(files, records[m].queryName, buffers);
    forall k, j | 0 <= k < Min(nFiles, 3) && 0 <= j < m + 1
      ensures RecordAt(out[k], j, records[j].queryName)
    {
      assert out[k] == files[k] + RecordLines(records[m].queryName, buffers[k]);
      if j < m {
        assert RecordAt(files[k], j, records[j].queryName);
        assert out[k][4 * j] == files[k][4 * j];
        assert out[k][4 * j + 1] == files[k][4 * j + 1];
        assert out[k][4 * j + 2] == files[k][4 * j + 2];
        assert out[k][4 * j + 3] == files[k][4 * j + 3];
      }
    }
  }

  /**
   * Every run writes whole records to the output files: after a clean run
   * each of them holds one four-line record per alignment, in order; after
   * a failure it holds the records of the alignments before the one that failed.
   */
  lemma {:induction false} WrittenShape(t: Technology, lengths: seq<nat>, records: seq<Alignment>)
    requires FitsLengthTable(t) && |lengths| == 3
    ensures var (files, err) := Written(t, lengths, records);
      && (err.None? ==> Shaped(files, records, |records|, t.nFiles))
      && (err.Some? ==> exists m :: 0 <= m < |records| && Shaped(files, records, m, t.nFiles)
                                    && Reconstruct(t, lengths, records[m]) == Err(err.value))
  {
    if records == [] {
      return;
    }
    var init := records[..|records| - 1];
    WrittenShape(t, lengths, init);
    var w := Written(t, lengths, init);
    if w.1.Some? {
      var m :| 0 <= m < |init| && Shaped(w.0, init, m, t.nFiles) && Reconstruct(t, lengths, init[m]) == Err(w.1.value);
      ShapedPrefix(w.0, init, records, m, t.nFiles);
      assert init[m] == records[m];
      assert Written(t, lengths, records) == w;
    } else {
      ShapedPrefix(w.0, init, records, |init|, t.nFiles);
      var r := Reconstruct(t, lengths, Last(records));
      if r.Ok? {
        EmitShaped(w.0, records, |init|, t.nFiles, r.value);
        assert Written(t, lengths, records) == (Emit(w.0, Last(records).queryName, r.value), None);
      } else {
        assert Written(t, lengths, records) == (w.0, Some(r.error));
      }
    }
  }

  lemma ShapedPrefix(files: seq<seq<string>>, init: seq<Alignment>, records: seq<Alignment>, m: nat, nFiles: nat)
    requires m <= |init| <= |records| && init == records[..|init|]
    requires Shaped(files, init, m, nFiles)
    ensures Shaped(files, records, m, nFiles)
  {
    forall k, j | 0 <= k < Min(nFiles, 3) && 0 <= j < m
      ensures RecordAt(files[k], j, records[j].queryName)
    {
      assert records[j] == init[j];
    }
  }

  /**
   * For each of the first `m` alignments and each of the first three files,
   * the files hold the record `@name`, the upper-cased bases, `+` and the
   * upper-cased qualities of the read that alignment was split into.
   */
  predicate Holds(t: Technology, lengths: seq<nat>, files: seq<seq<string>>, records: seq<Alignment>, m: nat)
    requires FitsLengthTable(t) && |lengths| == 3 && m <= |records|
  {
    && |files| == t.nFiles
    && (forall k :: 0 <= k < t.nFiles ==> |files[k]| == if k < 3 then 4 * m else 0)
    && (forall j :: 0 <= j < m ==> Reconstruct(t, lengths, records[j]).Ok?)
    && (forall k, j :: 0 <= k < Min(t.nFiles, 3) && 0 <= j < m ==>
          var b := Reconstruct(t, lengths, records[j]).value[k];
          && files[k][4 * j] == "@" + records[j].queryName
          && files[k][4 * j + 1] == Upper(b.sequence)
          && files[k][4 * j + 2] == "+"
          && files[k][4 * j + 3] == Upper(b.quality))
  }

  /** After a clean run, record `j` of file `k` is `@name`, `upper(bases)`, `+`, `upper(qualities)` of read `k` of alignment `j`. */
  lemma {:induction false} WrittenContents(t: Technology, lengths: seq<nat>, records: seq<Alignment>)
    requires FitsLengthTable(t) && |lengths| == 3
    requires Written(t, lengths, records).1.None?
    ensures Holds(t, lengths, Written(t, lengths, records).0, records, |records|)
  {
    if records != [] {
      var init := records[..|records| - 1];
      var w := Written(t, lengths, init);
      assert w.1.None?;
      WrittenContents(t, lengths, init);
      assert Last(records) == records[|init|];
      var r := Reconstruct(t, lengths, records[|init|]);
      assert r.Ok?;
      assert Written(t, lengths, records) == (Emit(w.0, records[|init|].queryName, r.value), None);
      HoldsPrefix(t, lengths, w.0, init, records, |init|);
      EmitHolds(t, lengths, w.0, records, |init|);
    }
  }

  lemma HoldsPrefix(t: Technology, lengths: seq<nat>, files: seq<seq<string>>, init: seq<Alignment>, records: seq<Alignment>, m: nat)
    requires FitsLengthTable(t) && |lengths| == 3
    requires m <= |init| <= |records| && init == records[..|init|]
    requires Holds(t, lengths, files, init, m)
    ensures Holds(t, lengths, files, records, m)
  {
    assert forall j :: 0 <= j < m ==> records[j] == init[j];
  }

  lemma EmitHolds(t: Technology, lengths: seq<nat>, files: seq<seq<string>>, records: seq<Alignment>, m: nat)
    requires FitsLengthTable(t) && |lengths| == 3 && m < |records|
    requires Holds(t, lengths, files, records, m) && Reconstruct(t, lengths, records[m]).Ok?
    ensures Holds(t, lengths, Emit(files, records[m].queryName, Reconstruct(t, lengths, records[m]).value), records, m + 1)
  {
    var buffers := Reconstruct(t, lengths, records[m]).value;
    var out := Emit(files, records[m].queryName, buffers);
    forall k, j | 0 <= k < Min(t.nFiles, 3) && 0 <= j < m + 1
      ensures var b := Reconstruct(t, lengths, records[j]).value[k];
        && out[k][4 * j] == "@" + records[j].queryName
        && out[k][4 * j + 1] == Upper(b.sequence)
        && out[k][4 * j + 2] == "+"
        && out[k][4 * j + 3] == Upper(b.quality)
    {
      assert out[k] == files[k] + RecordLines(records[m].queryName, buffers[k]);
      if j < m {
        assert out[k][4 * j] == files[k][4 * j];
        assert out[k][4 * j + 1] == files[k][4 * j + 1];
        assert out[k][4 * j + 2] == files[k][4 * j + 2];
        assert out[k][4 * j + 3] == files[k][4 * j + 3];
      }
    }
  }

  /** One more record: unless an earlier one failed, the files grow by its reads, or the run stops with its error. */
  lemma WrittenStep(t: Technology, lengths: seq<nat>, records: seq<Alignment>, i: nat)
    requires FitsLengthTable(t) && |lengths| == 3 && i < |records|
    requires Written(t, lengths, records[..i]).1.None?
    ensures Written(t, lengths, records[..i + 1]) ==
      match Reconstruct(t, lengths, records[i])
      case Err(e) => (Written(t, lengths, records[..i]).0, Some(e))
      case Ok(b) => (Emit(Written(t, lengths, records[..i]).0, records[i].queryName, b), None)
  {
    assert records[..i + 1][..i] == records[..i];
    assert Last(records[..i + 1]) == records[i];
  }

  /**
   * The body of the record loop of `BAM.to_fastq` up to the writes: the
   * placeholders, the extraction, the cDNA read, then the barcode and UMI
   * region writes, or the error the extraction raises.
   */
  method BuildReads(t: Technology, lengths: seq<nat>, item: Alignment) returns (r: Result<seq<Read>, BamError>)
    requires FitsLengthTable(t) && |lengths| == 3
    ensures r == Reconstruct(t, lengths, item)
  {
    assert forall rg <- t.barcodePositions :: rg in Regions(t);
    assert forall rg <- t.umiPositions :: rg in Regions(t);
    var buffers := Placeholders(lengths);
    if !HasExtractFunction(t.name) {
      return Err(NoExtractFunction(t.name));
    }
    var extracted := Extract10x(item);
    if extracted.Err? {
      return Err(extracted.error);
    }
    var ex := extracted.value;
    if t.readsFile.file >= |buffers| {
      return Err(NoSequenceSlot(t.readsFile.file));
    }
    buffers := buffers[t.readsFile.file := ex.sequence];
    buffers := WriteAll(buffers, ex.barcodes, t.barcodePositions);
    buffers := WriteAll(buffers, ex.umis, t.umiPositions);
    r := Ok(buffers);
  }

  /**
   * `BAM.to_fastq`: the names of the FASTQ files, and the lines written to
   * each. When the length table cannot be built no file is opened;
   * otherwise a failing record replaces the list of names by its error, and
   * the files keep the records written before it.
   */
  method ToFastq(bam: Bam, prefix: string) returns (result: Result<seq<string>, BamError>, files: seq<seq<string>>)
    ensures !FitsLengthTable(bam.technology) ==> result == Err(LengthTableFailed) && files == []
    ensures FitsLengthTable(bam.technology) ==>
      var (w, err) := Written(bam.technology, Lengths(Regions(bam.technology)), bam.records);
      && files == w
      && result == if err.None? then Ok(FastqNames(prefix, bam.technology.nFiles)) else Err(err.value)
  {
    var t := bam.technology;
    var fastqs := FastqNames(prefix, t.nFiles);
    if !FitsLengthTable(t) {
      result, files := Err(LengthTableFailed), [];
      return;
    }
    var lengths := ComputeLengths(Regions(t));
    assert forall rg <- t.barcodePositions :: rg in Regions(t);
    assert forall rg <- t.umiPositions :: rg in Regions(t);
    files := seq(t.nFiles, _ => []);
    var i := 0;
    while i < |bam.records|
      invariant 0 <= i <= |bam.records|
      invariant Written(t, lengths, bam.records[..i]) == (files, None)
    {
      var item := bam.records[i];
      WrittenStep(t, lengths, bam.records, i);
      var built := BuildReads(t, lengths, item);
      if built.Err? {
        result := Err(built.error);
        WrittenStops(t, lengths, bam.records, i + 1);
        return;
      }
      files := WriteRecord(files, item.queryName, built.value);
      i := i + 1;
    }
    assert bam.records[..i] == bam.records;
    result := Ok(fastqs);
  }

  /** Once a prefix of the records has failed, the rest of them change nothing. */
  lemma {:induction false} WrittenStops(t: Technology, lengths: seq<nat>, records: seq<Alignment>, i: nat)
    requires FitsLengthTable(t) && |lengths| == 3 && i <= |records|
    requires Written(t, lengths, records[..i]).1.Some?
    ensures Written(t, lengths, records) == Written(t, lengths, records[..i])
    decreases |records| - i
  {
    if i < |records| {
      assert records[..i + 1][..i] == records[..i];
      WrittenStops(t, lengths, records, i + 1);
    } else {
      assert records[..i] == records;
    }
  }

  // ---------------------------------------------------------------------------
  // The 10x layouts

  /** The reads a 10x record should be split into: barcode and UMI in their files, cDNA in the sequence file. */
  function TenXReads(t: Technology, a: Alignment): seq<Read>
    requires HasTenXTags(a)
  {
    var barcode := Read(a.tags["CR"], a.tags["CY"]);
    var umi := Read(a.tags["UR"], a.tags["UY"]);
    var cdna := Read(a.querySequence, Phred(a.queryQualities));
    if t.name == "10xv1" then [barcode, umi, cdna]
    else [Read(barcode.sequence + umi.sequence, barcode.quality + umi.quality), cdna, Read("", "")]
  }

  /** A single write, by `zip` over one value and one region. */
  lemma WriteRegionsSingle(buffers: seq<Read>, v: Read, r: ReadSubstring)
    requires Bounded(r) && r.file < |buffers|
    ensures WriteRegions(buffers, [v], [r]) == WriteRegion(buffers, r, v)
  {
    assert WritePrefix(buffers, [v], [r], 0) == buffers;
  }

  /** Writing a value over the whole of a read replaces it. */
  lemma WriteWhole(buffers: seq<Read>, r: ReadSubstring, v: Read)
    requires Bounded(r) && r.file < |buffers| && r.start.value == 0
    requires r.stop.value == |v.sequence| == |v.quality| == |buffers[r.file].sequence| == |buffers[r.file].quality|
    ensures WriteRegion(buffers, r, v) == buffers[r.file := v]
  {
    var old_ := buffers[r.file];
    SpliceInside(old_.sequence, 0, r.stop.value, v.sequence);
    SpliceInside(old_.quality, 0, r.stop.value, v.quality);
    assert old_.sequence[..0] + v.sequence + old_.sequence[r.stop.value..] == v.sequence;
    assert old_.quality[..0] + v.quality + old_.quality[r.stop.value..] == v.quality;
  }

  /** Writing a value over the start of a read. */
  lemma WriteFront(buffers: seq<Read>, r: ReadSubstring, v: Read)
    requires Bounded(r) && r.file < |buffers| && r.start.value == 0
    requires r.stop.value == |v.sequence| == |v.quality| <= |buffers[r.file].sequence| == |buffers[r.file].quality|
    ensures var old_ := buffers[r.file];
      WriteRegion(buffers, r, v) ==
        buffers[r.file := Read(v.sequence + old_.sequence[r.stop.value..], v.quality + old_.quality[r.stop.value..])]
  {
    var old_ := buffers[r.file];
    SpliceInside(old_.sequence, 0, r.stop.value, v.sequence);
    SpliceInside(old_.quality, 0, r.stop.value, v.quality);
    assert old_.sequence[..0] + v.sequence == v.sequence && old_.quality[..0] + v.quality == v.quality;
  }

  /** Writing a value over the end of a read. */
  lemma WriteBack(buffers: seq<Read>, r: ReadSubstring, v: Read)
    requires Bounded(r) && r.file < |buffers|
    requires r.start.value + |v.sequence| == r.stop.value == |buffers[r.file].sequence|
    requires r.start.value + |v.quality| == r.stop.value == |buffers[r.file].quality|
    ensures var old_ := buffers[r.file];
      WriteRegion(buffers, r, v) ==
        buffers[r.file := Read(old_.sequence[..r.start.value] + v.sequence, old_.quality[..r.start.value] + v.quality)]
  {
    var old_ := buffers[r.file];
    SpliceInside(old_.sequence, r.start.value, r.stop.value, v.sequence);
    SpliceInside(old_.quality, r.start.value, r.stop.value, v.quality);
    assert old_.sequence[r.stop.value..] == [] && old_.quality[r.stop.value..] == [];
    assert old_.sequence[..r.start.value] + v.sequence + [] == old_.sequence[..r.start.value] + v.sequence;
    assert old_.quality[..r.start.value] + v.quality + [] == old_.quality[..r.start.value] + v.quality;
  }

  /** Reconstruction of a record that extraction accepts, written out step by step. */
  lemma ReconstructOk(t: Technology, lengths: seq<nat>, a: Alignment)
    requires FitsLengthTable(t) && |lengths| == 3
    requires HasExtractFunction(t.name) && Extract10x(a).Ok? && t.readsFile.file < 3
    ensures var bc := Read(a.tags["CR"], a.tags["CY"]);
      var umi := Read(a.tags["UR"], a.tags["UY"]);
      var p := Placeholders(lengths)[t.readsFile.file := Read(a.querySequence, Phred(a.queryQualities))];
      && RegionsFit(t.barcodePositions, 3) && RegionsFit(t.umiPositions, 3)
      && Reconstruct(t, lengths, a) == Ok(WriteRegions(WriteRegions(p, [bc], t.barcodePositions), [umi], t.umiPositions))
  {
    assert forall rg <- t.barcodePositions :: rg in Regions(t);
    assert forall rg <- t.umiPositions :: rg in Regions(t);
  }

  lemma TenXv1Layout(a: Alignment)
    requires Extract10x(a).Ok? && RecordKey(a) == (14, 10)
    ensures Reconstruct(Registry[0], Lengths(Regions(Registry[0])), a) == Ok(TenXReads(Registry[0], a))
  {
    var t := Registry[0];
    assert Regions(t) == [Region(0, 0, 14), Region(1, 0, 10)];
    var lengths := Lengths(Regions(t));
    assert Regions(t)[..1] == [Region(0, 0, 14)] && Regions(t)[..1][..0] == [];
    assert Lengths(Regions(t)[..1]) == [14, 0, 0];
    assert lengths == [14, 10, 0];
    ReconstructOk(t, lengths, a);
    var bc := Read(a.tags["CR"], a.tags["CY"]);
    var umi := Read(a.tags["UR"], a.tags["UY"]);
    var cdna := Read(a.querySequence, Phred(a.queryQualities));
    var p := Placeholders(lengths)[2 := cdna];
    WriteRegionsSingle(p, bc, Region(0, 0, 14));
    WriteWhole(p, Region(0, 0, 14), bc);
    var b := p[0 := bc];
    WriteRegionsSingle(b, umi, Region(1, 0, 10));
    WriteWhole(b, Region(1, 0, 10), umi);
    assert b[1 := umi] == [bc, umi, cdna];
  }

  /** The layout of 10x versions 2 and 3: barcode `[0:16)` and UMI `[16:stop)` together in file 0, cDNA in file 1. */
  lemma SharedFileLayout(t: Technology, stop: nat, a: Alignment)
    requires stop > 16 && t.name != "10xv1" && HasExtractFunction(t.name)
    requires t.readsFile == WholeRead(1)
    requires t.barcodePositions == [Region(0, 0, 16)] && t.umiPositions == [Region(0, 16, stop)]
    requires Extract10x(a).Ok? && RecordKey(a) == (16, stop - 16)
    ensures FitsLengthTable(t)
    ensures Reconstruct(t, Lengths(Regions(t)), a) == Ok(TenXReads(t, a))
  {
    assert Regions(t) == [Region(0, 0, 16), Region(0, 16, stop)];
    var lengths := Lengths(Regions(t));
    assert Regions(t)[..1] == [Region(0, 0, 16)] && Regions(t)[..1][..0] == [];
    assert Lengths(Regions(t)[..1]) == [16, 0, 0];
    assert lengths == [stop, 0, 0];
    ReconstructOk(t, lengths, a);
    var bc := Read(a.tags["CR"], a.tags["CY"]);
    var umi := Read(a.tags["UR"], a.tags["UY"]);
    var cdna := Read(a.querySequence, Phred(a.queryQualities));
    var p := Placeholders(lengths)[1 := cdna];
    WriteRegionsSingle(p, bc, Region(0, 0, 16));
    WriteFront(p, Region(0, 0, 16), bc);
    var b0 := Read(bc.sequence + p[0].sequence[16..], bc.quality + p[0].quality[16..]);
    var b := p[0 := b0];
    WriteRegionsSingle(b, umi, Region(0, 16, stop));
    WriteBack(b, Region(0, 16, stop), umi);
    assert b0.sequence[..16] == bc.sequence && b0.quality[..16] == bc.quality;
    assert b[0 := Read(bc.sequence + umi.sequence, bc.quality + umi.quality)]
        == [Read(bc.sequence + umi.sequence, bc.quality + umi.quality), cdna, Read("", "")];
  }

  lemma TenXv2Layout(a: Alignment)
    requires Extract10x(a).Ok? && RecordKey(a) == (16, 10)
    ensures Reconstruct(Registry[1], Lengths(Regions(Registry[1])), a) == Ok(TenXReads(Registry[1], a))
  {
    SharedFileLayout(Registry[1], 26, a);
  }

  lemma TenXv3Layout(a: Alignment)
    requires Extract10x(a).Ok? && RecordKey(a) == (16, 12)
    ensures Reconstruct(Registry[2], Lengths(Regions(Registry[2])), a) == Ok(TenXReads(Registry[2], a))
  {
    SharedFileLayout(Registry[2], 28, a);
  }

  /**
   * For the first record of a BAM file, the detected technology's regions
   * are exactly as long as its tags, so the record splits into its barcode
   * and UMI (with their qualities) in their files and its cDNA read in the
   * sequence file.
   */
  lemma DetectedLayout(records: seq<Alignment>)
    requires Open(records).Ok? && Extract10x(records[0]).Ok?
    ensures var t := Open(records).value.technology;
      && FitsLengthTable(t)
      && Reconstruct(t, Lengths(Regions(t)), records[0]) == Ok(TenXReads(t, records[0]))
  {
    var t := Open(records).value.technology;
    RegistryWellFormed();
    TenXKeysDistinct();
    if t == Registry[0] {
      TenXv1Layout(records[0]);
    } else if t == Registry[1] {
      TenXv2Layout(records[0]);
    } else {
      assert t == Registry[2];
      TenXv3Layout(records[0]);
    }
  }
}
