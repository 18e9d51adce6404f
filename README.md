# fqc in Dafny

fqc works out which single-cell sequencing technology produced a set of
reads. It knows four technologies:

- 10x Genomics versions 1, 2 and 3;
- inDrops version 3.

Each technology says how many FASTQ files it uses and where in those files
the cell barcode, the UMI and the cDNA sequence sit. fqc does three things
with that catalogue:

- **BAM files.** It detects the 10x version from the first record of a BAM
  file, comparing the lengths of its raw barcode and UMI tags with those of
  each 10x version. It then splits the BAM file back into the FASTQ files the
  sequencer wrote: each record is rebuilt into one read per file.
- **FASTQ files.** It narrows the candidates by the number of files, and walks
  a window of reads of each file.
- **Helpers.** It reads the sequences out of a FASTQ file, slices a FASTQ file
  by read position, and compares DNA sequences up to a Hamming distance with
  `N` as a wildcard.

This project models those parts as Dafny, in eight modules:

- `Wrappers`: `Option` and `Result`.
- `Numbers`: Python's `min` and `max` of two integers.
- `Text`: the Python string operations the code uses (`strip`, `upper`,
  `str(int)`, tuple rendering).
- `Technologies`: the catalogue.
- `Bam`: detection and the FASTQ splitter.
- `Utils`: `fastq_reads` and `sequence_equals`.
- `FastqFile`: `Fastq.__getitem__`.
- `Fqc`: `filter_files` and the sampling loop of `filter_barcodes_umis`.

The data involved are modelled as values:

- A file's contents are the sequence of its lines.
- A BAM file is the sequence of its alignment records.
- An output FASTQ file is the sequence of lines written to it.

The loops of the source are methods with loops:

- the read loop of `fastq_reads`;
- the slice loop of `__getitem__` with its `break`;
- the length table, the region writes, the record writes and the record loop
  of `to_fastq`;
- the candidate loop of `filter_files`;
- the `continue`/`break` window loop of `filter_barcodes_umis`.

Each loop method is proved equal to a specification function. The lemmas
then state what the source promises of that function.

The repository's tests (tests/test_fqc.py) call `all_ordered_technologies`
and `extract_barcodes_umis`, which this version of fqc/fqc.py does not
define. The model follows the code as written: the body of
`filter_barcodes_umis` stops after choosing the window of reads, and `fqc`
is an empty stub. So the model of `filter_barcodes_umis` is the set of reads
its loops visit.

## Model

| member | source | states |
|---|---|---|
| Technologies.OrderedTechnology.ToString | fqc/technologies.py:21-22 | `OrderedTechnology.__str__`: the technology's name followed by the permutation's tuple rendering; its properties are stated by the next row |
| Technologies.OrderedTechnologyString | fqc/technologies.py:18-22 | `str(ordered)` is the technology's name followed by the permutation rendered as a parenthesised tuple |
| Technologies.Technology.ToString | fqc/technologies.py:12-13 | `str(technology)` is its name |
| Technologies.RegistryWellFormed | fqc/technologies.py:27-93 | every technology of `Registry` (the constant `TECHNOLOGIES`, its four entries with the source's values) has at most three files, its sequence read is the whole read of one of them, and its barcode/UMI regions are non-empty bounded slices of the other files that do not overlap within a file |
| Technologies.NameIndex | fqc/technologies.py:94 | the dictionary built from a technology list has exactly the technologies' names as keys |
| Technologies.NameIndexLookup | fqc/technologies.py:94 | when names are unique, the dictionary maps each technology's name back to that technology |
| Technologies.MappingLookup | fqc/technologies.py:94 | `Mapping` (the constant `TECHNOLOGIES_MAPPING`) maps each registered name to its technology and has only the keys 10xv1, 10xv2, 10xv3, indropsv3 |
| Technologies.TenXKeysDistinct | fqc/technologies.py:27-54 | the 10x technologies of the registry are exactly the first three; their (barcode length, UMI length) keys are (14,10), (16,10), (16,12) and pairwise distinct |
| Technologies.SpanSum | fqc/bam.py:73-80 | the sum of `stop - start` over a list of bounded regions |
| Technologies.LengthKey | fqc/bam.py:72-81 | a technology's key in detection's dictionary: (total barcode length, total UMI length) |
| Text.Strip | fqc/utils.py:31 | `str.strip()` as `rstrip` after `lstrip`; its properties are stated by the next rows |
| Text.StripSpec | fqc/utils.py:31 | `s.strip()` is `s` minus a run of whitespace at each end, and neither end of the result is whitespace |
| Text.StripLeftSpec | fqc/utils.py:31 | `lstrip` keeps a suffix, removes only whitespace and leaves no leading whitespace |
| Text.StripRightSpec | fqc/utils.py:31 | `rstrip` keeps a prefix, removes only whitespace and leaves no trailing whitespace |
| Text.StripUnchanged | fqc/utils.py:31 | a string without whitespace at its ends is its own strip |
| Text.StripIdempotent | fqc/fastq.py:42 | stripping twice is stripping once |
| Text.Upper | fqc/utils.py:52-53 | upper-casing keeps the length, leaves no lower-case letter, and changes no other character |
| Text.UpperIdempotent | fqc/bam.py:155-157 | upper-casing twice is upper-casing once |
| Text.NatToString | fqc/bam.py:113 | `str(i)` is a non-empty run of decimal digits without a leading zero |
| Text.ParseNatToString | fqc/bam.py:113 | `int(str(n)) == n` |
| Text.NatToStringInjective | fqc/bam.py:113 | different numbers print differently |
| Text.TupleString | fqc/technologies.py:22 | a tuple prints between parentheses, and only the empty tuple prints as `()` |
| Text.Repeat | fqc/bam.py:129 | `[c] * n` has length `n` and every entry `c` |
| Bam.Phred | fqc/bam.py:25-28 | each quality `q` becomes the character with code `q + 33`, one per base |
| Bam.PhredRoundTrip | fqc/bam.py:27 | subtracting 33 from each quality character gives back the qualities |
| Bam.HasExtractFunction | fqc/bam.py:49-53 | `EXTRACT_FUNCTIONS` has an entry, always `extract_10x`, for exactly 10xv1, 10xv2 and 10xv3 |
| Bam.Extract10x | fqc/bam.py:11-33 | success exactly when the four 10x tags exist and each of barcode, UMI and cDNA has as many qualities as bases; then one barcode pair, one UMI pair and the cDNA with Phred+33 qualities; a missing tag or the length assertion otherwise |
| Bam.TenXTable | fqc/bam.py:72-83 | detection's dictionary holds only registered 10x technologies under their own length keys, and has a key for every 10x technology |
| Bam.DetectTechnology | fqc/bam.py:60-99 | an empty file or a first record without the 10x tags fails; otherwise success exactly when some registered 10x technology has the record's (barcode, UMI) lengths, and it is that technology; else the error carries the two lengths |
| Bam.DetectTechnologyUnique | fqc/bam.py:72-96 | whenever a registered 10x technology has the first record's key, it is the one detected |
| Bam.DetectTenXv2 | fqc/bam.py:86-96 | a 16-base barcode and a 10-base UMI detect `10xv2` |
| Bam.Open | fqc/bam.py:55-58 | opening succeeds exactly when detection does, keeps the records, and holds a registered 10x technology that fits the length table; otherwise detection's error |
| Bam.FastqName | fqc/bam.py:113 | file `i` is `prefix_i.fastq.gz`, or `i.fastq.gz` without a prefix |
| Bam.FastqNameShape | fqc/bam.py:113 | a name ends in `.fastq.gz`; it starts with `prefix_` and a digit, or with a digit when there is no prefix |
| Bam.FastqNames | fqc/bam.py:112-115 | one name for each of the technology's `n` files |
| Bam.FastqNameInjective | fqc/bam.py:112-115 | two output numbers give the same file name only when they are equal |
| Bam.FastqNamesDistinct | fqc/bam.py:112-115 | `to_fastq` names `n` files, numbered from 1 in order, all different |
| Bam.FastqNamesWithPrefix | fqc/bam.py:112-115 | prefix `10xv2` with two files gives `10xv2_1.fastq.gz`, `10xv2_2.fastq.gz` |
| Bam.FastqNamesWithoutPrefix | fqc/bam.py:112-115 | no prefix with three files gives `1.fastq.gz`, `2.fastq.gz`, `3.fastq.gz` |
| Bam.FitsLengthTable | fqc/bam.py:118-121 | the length loop gets through: every barcode and UMI region has a stop and lies in files 0 to 2 |
| Bam.WellFormedFitsLengthTable | fqc/bam.py:118-121 | a well-formed technology fits the three-slot length table |
| Bam.Lengths | fqc/bam.py:118-121 | `lengths` after its loop: three slots, slot `f` raised to each region's stop in turn |
| Bam.LengthsAreMaxStops | fqc/bam.py:118-121 | slot `f` of `lengths` is at least every stop of a region in file `f` and is one of those stops, or 0 when there is none |
| Bam.ComputeLengths | fqc/bam.py:118-121 | the length-table loop over a three-slot array produces the table of maximal stops |
| Bam.Placeholders | fqc/bam.py:129 | one placeholder read per slot of `lengths` |
| Bam.PlaceholdersShape | fqc/bam.py:129 | each placeholder read has the slot's length, bases all `N` and qualities all `F` |
| Bam.Splice | fqc/bam.py:141-150 | Python's `l[start:stop] = x`: both bounds clipped to the list, a stop before the start read as the start, the part between replaced by `x` |
| Bam.SpliceSpec | fqc/bam.py:141-150 | slice assignment keeps what lies before the clipped start and after the clipped stop, puts `x` between them, and changes the length by `|x|` minus the clipped width |
| Bam.SpliceInside | fqc/bam.py:141-150 | slice assignment within bounds is `l[:start] + x + l[stop:]` |
| Bam.SpliceAt | fqc/bam.py:141-150 | writing a value of the slice's length keeps the length, puts the value in the slice and changes nothing else |
| Bam.SplicePaired | fqc/bam.py:141-150 | splicing equally long values into equally long lists keeps them equally long |
| Bam.StartOf | fqc/bam.py:141-150 | a region's slice begins at its start, or at 0 when the start is `None` |
| Bam.WriteRegion | fqc/bam.py:141-150 | one region write: the bases and the qualities of the region's file get the value's bases and qualities spliced in |
| Bam.WritePrefix | fqc/bam.py:139-150 | the writes of the first `n` pairs of the `zip`, in order; the number of reads is unchanged |
| Bam.WriteRegions | fqc/bam.py:139-150 | the writes of all the pairs of `zip(values, regions)`, up to the shorter list; the number of reads is unchanged |
| Bam.WritePrefixUntouched | fqc/bam.py:139-150 | the barcode and UMI writes leave the reads of files without regions unchanged |
| Bam.WritePrefixPaired | fqc/bam.py:139-150 | the writes keep every read with as many qualities as bases |
| Bam.WriteAll | fqc/bam.py:139-150 | the `zip` loop of region writes gives the writes of the pairs up to the shorter list, in order |
| Bam.Reconstruct | fqc/bam.py:129-150 | building a record's reads succeeds exactly when the technology has an extraction function, extraction succeeds and the sequence file has a slot; it yields three reads, each with as many qualities as bases; otherwise the error of the lookup, of the extraction or of the missing slot, in that order |
| Bam.ReconstructSequenceSlot | fqc/bam.py:133-136 | for a well-formed technology the sequence file's read is the record's bases with their Phred+33 qualities |
| Bam.BuildReads | fqc/bam.py:129-150 | the record loop's body, up to the writes, computes the reconstructed reads or the error |
| Bam.WriteRegionsSingle | fqc/bam.py:139-144 | one value and one region give one slice write |
| Bam.WriteWhole | fqc/bam.py:141-144 | a write over a whole read replaces it |
| Bam.WriteFront | fqc/bam.py:141-144 | a write over the start of a read replaces that start |
| Bam.WriteBack | fqc/bam.py:147-150 | a write over the end of a read replaces that end |
| Bam.ReconstructOk | fqc/bam.py:129-150 | for an accepted record, the reads are the placeholders with the cDNA in place, then the barcode write, then the UMI write |
| Bam.RecordLines | fqc/bam.py:154-157 | the four lines of a record: `@name`, the upper-cased bases, `+`, the upper-cased qualities |
| Bam.Emit | fqc/bam.py:153-157 | read `k` is appended as a record to file `k`; files without a read are unchanged, and the number of files stays the same |
| Bam.WriteRecord | fqc/bam.py:153-157 | each file of the `zip` gets `@name`, the upper-cased bases, `+` and the upper-cased qualities of its read; files without a read are unchanged |
| Bam.EmitShaped | fqc/bam.py:153-157 | writing one more record keeps every file a list of whole records, one per alignment so far |
| Bam.ShapedPrefix | fqc/bam.py:128-157 | the shape of the files depends only on the records already handled |
| Bam.Written | fqc/bam.py:123-161 | the files and the stopping error after the record loop: files start empty, records are handled in order, and the first failure ends the run; there is one file per technology file |
| Bam.WrittenShape | fqc/bam.py:123-161 | after a clean run each output file holds one four-line record per alignment in order; after a failure, those of the alignments before the failing one, and the error is that alignment's |
| Bam.Holds | fqc/bam.py:128-157 | for each of the first `m` alignments and each of the first three files, the file holds `@name`, the upper-cased bases, `+` and the upper-cased qualities of that alignment's read |
| Bam.WrittenContents | fqc/bam.py:123-161 | after a clean run, record `j` of file `k` is exactly `@name`, `upper(bases)`, `+`, `upper(qualities)` of read `k` of alignment `j` |
| Bam.HoldsPrefix | fqc/bam.py:128-157 | the record contents depend only on the alignments already handled |
| Bam.EmitHolds | fqc/bam.py:153-157 | writing one more alignment's reads adds its records and keeps the earlier ones |
| Bam.WrittenStep | fqc/bam.py:128-157 | one more alignment either adds its reads to the files or stops the run with its error |
| Bam.WrittenStops | fqc/bam.py:123-161 | once an alignment has failed, later alignments change nothing |
| Bam.ToFastq | fqc/bam.py:101-163 | when the length table cannot be built, fails before any file is opened; otherwise returns the file names and writes one record per alignment, or stops at the first failing alignment with its error and the lines written so far |
| Bam.TenXv1Layout | fqc/bam.py:129-150 | for 10xv1 a record splits into the barcode in the first file, the UMI in the second and the cDNA in the third |
| Bam.SharedFileLayout | fqc/bam.py:129-150 | with barcode `[0:16)` and UMI `[16:stop)` in file 0 and cDNA in file 1, the first read is barcode followed by UMI |
| Bam.TenXv2Layout | fqc/bam.py:129-150 | for 10xv2 the first file's read is barcode followed by UMI, and the second is the cDNA |
| Bam.TenXv3Layout | fqc/bam.py:129-150 | for 10xv3 likewise, with a 12-base UMI |
| Bam.DetectedLayout | fqc/bam.py:60-150 | the first record of a BAM file splits into its barcode and UMI, with their qualities, in the detected technology's files, and its cDNA in the sequence file |
| Utils.Reads | fqc/utils.py:28-31 | a file of `n` lines has `(n + 2) / 4` sequences, read `k` being line `4k + 1` stripped |
| Utils.ReadsPrefix | fqc/utils.py:28-31 | the sequences of a prefix of the lines are a prefix of the sequences |
| Utils.ReadsAppendRecord | fqc/utils.py:28-31 | appending one whole record adds exactly its stripped sequence line |
| Utils.ReadsOfRecords | fqc/utils.py:28-31 | after whole records, a four-line record adds its second line stripped |
| Utils.ReadCountStep | fqc/utils.py:30 | the sequence count steps up exactly at the lines with `(n + 3) % 4 == 0` |
| Utils.FastqReads | fqc/utils.py:19-31 | the line loop yields exactly the sequences of the file, in order |
| Utils.Mismatches | fqc/utils.py:54-56 | the mismatch count is at most the length |
| Utils.MismatchesCount | fqc/utils.py:54-56 | the sum counts exactly the positions where neither base is `N` and the bases differ |
| Utils.MismatchesSelf | fqc/utils.py:54-56 | a sequence has no mismatch with itself |
| Utils.MismatchesSymmetric | fqc/utils.py:54-56 | the mismatch count does not depend on argument order |
| Utils.MismatchesZero | fqc/utils.py:54-56 | without wildcards, no mismatch means equal sequences |
| Utils.SequenceEquals | fqc/utils.py:34-56 | sequences of different lengths are never equal, and a negative distance accepts nothing |
| Utils.SequenceEqualsPositions | fqc/utils.py:34-56 | equal exactly when the lengths agree and the number of differing non-`N` positions, ignoring case, is at most the distance |
| Utils.SequenceEqualsReflexive | fqc/utils.py:34-56 | a sequence equals itself exactly at non-negative distances |
| Utils.SequenceEqualsSymmetric | fqc/utils.py:34-56 | the comparison is symmetric |
| Utils.SequenceEqualsMonotone | fqc/utils.py:34-56 | a larger distance accepts every pair a smaller one does |
| Utils.SequenceEqualsIgnoresCase | fqc/utils.py:52-53 | upper-casing an argument does not change the answer |
| Utils.SequenceEqualsExact | fqc/utils.py:34-56 | at distance 0 and without `N`, equality is equality of the upper-cased sequences |
| Utils.SequenceEqualsCaseAndWildcard | fqc/utils.py:52-56 | `ACGT` equals `acgt` and `ANGT` |
| Utils.SequenceEqualsOneMismatch | fqc/utils.py:54-56 | `ACGT` and `ACGA` differ at distance 0 and are equal at distance 1 |
| FastqFile.RangeSet | fqc/fastq.py:32 | the range's members lie between start and stop |
| FastqFile.Validate | fqc/fastq.py:25-32 | a key is refused with the indexing message; a slice without a stop or with a negative part is refused with the slice message; otherwise `(start or 0, stop, step or 1)` |
| FastqFile.ValidateAsWritten | fqc/fastq.py:25-32 | as written, a slice with a stop but no start raises `TypeError`, and only it does |
| FastqFile.ValidateDisagreement | fqc/fastq.py:27-32 | the written and the intended checks differ exactly on slices with a stop but no start |
| FastqFile.Positions | fqc/fastq.py:32-41 | the selected positions below `n`, strictly increasing, and no others |
| FastqFile.Pick | fqc/fastq.py:32-42 | entry `j` of the selection is the read at the `j`-th selected position |
| FastqFile.PickStep | fqc/fastq.py:36-42 | one more read adds it exactly when its position is selected |
| FastqFile.PositionsPast | fqc/fastq.py:38-39 | positions past every selected one add nothing |
| FastqFile.Quarter | fqc/fastq.py:37-41 | `(l - 1) / 4` exceeds `stop - 1` exactly when `l - 1 > 4(stop - 1)`, and is a whole number exactly on sequence lines, where it is the read number |
| FastqFile.SelectStep | fqc/fastq.py:36-42 | a line the loop does not stop at adds its stripped text exactly when it is a selected sequence line |
| FastqFile.QuarterMono | fqc/fastq.py:37 | the read position does not decrease along the lines |
| FastqFile.SelectStop | fqc/fastq.py:38-39 | when the loop breaks, every position below `stop` has been seen |
| FastqFile.SelectDone | fqc/fastq.py:36-43 | when the loop ends, early or not, it has seen every read it selects |
| FastqFile.Selection | fqc/fastq.py:24-43 | the value of `f[index]`, with an open start read as 0: the checks' error, or the reads at the selected positions |
| FastqFile.SelectionAsWritten | fqc/fastq.py:24-43 | the value of `f[index]` as the source writes it: the written checks' error, or the reads at the selected positions |
| FastqFile.Select | fqc/fastq.py:34-43 | the loop returns the reads at the selected positions, in file order |
| FastqFile.GetItem | fqc/fastq.py:24-43 | `f[index]` is the checks' error or the selected reads, with an open start read as 0 |
| FastqFile.GetItemAsWritten | fqc/fastq.py:24-43 | `f[index]` as written: the same, except `TypeError` for an open start |
| FastqFile.SelectionContents | fqc/fastq.py:32-43 | an accepted slice selects the reads at the range's positions below both stop and file length, as many as there are such positions |
| FastqFile.DistinctCard | fqc/fastq.py:32 | a strictly increasing list has as many entries as values, so no read is selected twice |
| FastqFile.RangeSetStepOne | fqc/fastq.py:32 | with step 1 the range is every integer from start up to stop |
| FastqFile.Interval | fqc/fastq.py:32 | `list(range(s, n))` has `n - s` entries, entry `j` being `s + j` |
| FastqFile.PositionsFrom | fqc/fastq.py:32 | with step 1 the positions below `n` are `s` to `n - 1` |
| FastqFile.PickInterval | fqc/fastq.py:32-42 | picking the positions `s` to `n - 1` is the slice `[s:n]` |
| FastqFile.PickContiguous | fqc/fastq.py:32-42 | a step-1 range selects the slice of reads from start to the smaller of stop and the file length |
| FastqFile.SelectionContiguous | fqc/fastq.py:24-43 | `f[start:stop]` is the reads from `start` up to `stop` or the end of the file |
| FastqFile.SelectionStopZero | fqc/fastq.py:32-43 | a slice with stop 0 is empty |
| FastqFile.PickPrefix | fqc/fastq.py:36-39 | reads past the last selected position can be cut off |
| FastqFile.SelectionPrefix | fqc/fastq.py:36-39 | the answer depends only on the first `4 * stop - 2` lines, where the loop stops |
| FastqFile.OpenStartFinding | fqc/fastq.py:27-32 | `f[:1]` raises `TypeError` as written, and is the first read once an open start counts as 0 |
| FastqFile.FirstReads | fqc/fastq.py:36-42 | a file with a sequence line has a first read, that line stripped |
| FastqFile.FirstRead | fqc/fastq.py:24-43 | `f[0:1]` is the first read in both versions |
| Numbers.Max | fqc/bam.py:121 | Python's `max` of two integers |
| Fqc.Candidates | fqc/fqc.py:18 | no list, or an empty one, means the registry; a non-empty list is kept |
| Fqc.Matching | fqc/fqc.py:21-26 | the kept technologies are no more than the candidates and all use the file count |
| Fqc.MatchingMembers | fqc/fqc.py:21-26 | a technology is kept exactly when it is a candidate using that many files |
| Fqc.MatchingAppend | fqc/fqc.py:21-26 | filtering a concatenation filters each part, in order |
| Fqc.MatchingIdempotent | fqc/fqc.py:21-26 | filtering twice by the same count is filtering once |
| Fqc.FilterFiles | fqc/fqc.py:6-26 | `filter_files` keeps, in order, the candidates whose file count is the number of FASTQ files |
| Fqc.MatchingSingle | fqc/fqc.py:22-24 | a single candidate is kept exactly when its file count matches |
| Fqc.RegistryByFileCount | fqc/fqc.py:18-26 | against the registry, two files leave 10xv2 and 10xv3, three files leave 10xv1 and indropsv3, any other count leaves nothing |
| Fqc.RefilterFiles | fqc/fqc.py:18-26 | filtering the result again gives the same result, unless it is empty, which falls back to the registry |
| Fqc.WindowBounds | fqc/fqc.py:46-49 | the window's ends are ordered and within the file |
| Fqc.Window | fqc/fqc.py:43-49 | the visited reads are consecutive reads of the file, all at positions from `skip` up to `skip + count` |
| Fqc.WindowComplete | fqc/fqc.py:44-49 | every read at a position from `skip` up to `skip + count` is visited |
| Fqc.WindowIsSlice | fqc/fqc.py:43-49 | the window of a file is `Fastq(path)[skip:skip + count]` |
| Fqc.WindowAsSlice | fqc/fqc.py:43-49 | for non-negative settings the window is the slice of reads `[skip:min(skip + count, n)]` |
| Fqc.WindowSkip | fqc/fqc.py:46-47 | reads before `skip` are passed over |
| Fqc.WindowTake | fqc/fqc.py:44-49 | a read inside the window is visited after the ones before it |
| Fqc.WindowPast | fqc/fqc.py:48-49 | once the window is passed, the rest of the file adds nothing |
| Fqc.SampleFile | fqc/fqc.py:44-49 | the inner loop with `continue` and `break` visits exactly the window of the file |
| Fqc.SampleWindow | fqc/fqc.py:41-49 | for each file in turn, the visited reads are the window of that file's sequences |

## Left out

- File and network I/O: `pysam`, `gzip`, `open`, `urlopen` and `open_as_text`.
  - Every file is its contents: a FASTQ file becomes its lines, and a BAM file the sequence of its records.
  - An output file becomes the lines written to it.
  - `Fastq.open` and the `path` fields are not modelled.
  - Closing the files in the `finally` block of `to_fastq` is not modelled.
- Laziness of the `fastq_reads` generator and of the file iterators: both become whole-sequence values. An early `break` is modelled by not looking at the rest.
- `WHITELIST_DIR` and the other configuration values.
  - A technology holds only the base name of its whitelist.
  - `SKIP_READS` and `N_READS` are the `skip` and `count` parameters.
- Logging calls are not modelled. `main.py` is not part of this model. Neither is the empty `fqc` function.
- Everything after the window in `filter_barcodes_umis`: the source has no code there. The model returns the reads the loops visit. It also does not model that the technology list computed at its start is never used.
- Bam.ToFastq: a region without a stop, or in a file past the third, makes the length loop raise (`TypeError` from `max` with `None`, or `IndexError`). The model returns the one error `LengthTableFailed` for both, before any file is opened, and does not say which exception it was. Every technology detection can return fits the table (Bam.Open).
- Bam.Reconstruct: a sequence file past the third raises `IndexError` at the first record. The model gives that as the error `NoSequenceSlot` of that record. Its `requires` is the length table that `to_fastq` has already built.
- Bam.Extract10x: tag values are strings. pysam's `None` for a missing sequence or quality array is not modelled.
- Bam.DetectTechnology: errors pysam raises while reading a malformed file are not modelled.
- Text.Upper: upper-cases the ASCII letters only. Python's `str.upper` also maps other Unicode letters, and can change a string's length.
- FastqFile.Select: `(l - 1) / 4` is exact real division. Float rounding beyond 2^53 lines is not modelled.
- Technologies.OrderedTechnologyString: the permutation is a sequence of naturals rendered as a Python tuple. A list would print with brackets.

## Findings

| source | as written | input that shows it | evidently intended | confidence | as-written member | corrected member |
|---|---|---|---|---|---|---|
| fqc/fastq.py:27 | `index.start < 0` is evaluated when the slice has no start, and comparing `None` with `0` raises `TypeError` | `Fastq(path)[:1]` | an open start means 0, as `index.start or 0` on line 32 shows | not executed | FastqFile.OpenStartFinding | FastqFile.GetItem |
