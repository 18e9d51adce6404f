/**
 * Narrowing down the technology a set of FASTQ files came from: first by
 * the number of files, then by looking at a window of reads of each file.
 */
module Fqc {
  import opened Wrappers
  import opened Technologies
  import opened Utils
  import FastqFile
  import Numbers

  /** `technologies or TECHNOLOGIES`: no list, or an empty one, stands for the whole registry. */
  function Candidates(technologies: Option<seq<Technology>>): (ts: seq<Technology>)
    ensures ts != []
    ensures technologies.Some? && technologies.value != [] ==> ts == technologies.value
    ensures technologies.None? || technologies.value == [] ==> ts == Registry
  {
    if technologies.None? || technologies.value == [] then Registry else technologies.value
  }

  /** The technologies of `ts` that use exactly `n` files, in their order in `ts`. */
  function Matching(ts: seq<Technology>, n: nat): (m: seq<Technology>)
    ensures |m| <= |ts|
    ensures forall t <- m :: t.nFiles == n
  {
    if ts == [] then []
    else Matching(ts[..|ts| - 1], n) + (if ts[|ts| - 1].nFiles == n then [ts[|ts| - 1]] else [])
  }

  /** A technology is kept exactly when it is a candidate with the right number of files. */
  lemma {:induction false} MatchingMembers(ts: seq<Technology>, n: nat)
    ensures forall t :: t in Matching(ts, n) <==> t in ts && t.nFiles == n
  {
    if ts != [] {
      var init := ts[..|ts| - 1];
      MatchingMembers(init, n);
      assert ts == init + [ts[|ts| - 1]];
    }
  }

  /** Filtering a concatenation filters each part and keeps them in order. */
  lemma {:induction false} MatchingAppend(a: seq<Technology>, b: seq<Technology>, n: nat)
    ensures Matching(a + b, n) == Matching(a, n) + Matching(b, n)
    decreases |b|
  {
    if b != [] {
      var init := b[..|b| - 1];
      MatchingAppend(a, init, n);
      assert (a + b)[..|a + b| - 1] == a + init;
    } else {
      assert a + b == a;
    }
  }

  /** Filtering twice by the same count changes nothing. */
  lemma {:induction false} MatchingIdempotent(ts: seq<Technology>, n: nat)
    ensures Matching(Matching(ts, n), n) == Matching(ts, n)
  {
    if ts != [] {
      var init := ts[..|ts| - 1];
      var last := ts[|ts| - 1];
      MatchingIdempotent(init, n);
      var extra := if last.nFiles == n then [last] else [];
      MatchingAppend(Matching(init, n), extra, n);
      if last.nFiles == n {
        assert Matching(extra, n) == Matching(extra[..0], n) + [last];
      }
    }
  }

  /** `filter_files`: walks the candidates in order and keeps those whose file count matches. */
  method FilterFiles(fastqs: seq<string>, technologies: Option<seq<Technology>>) returns (possible: seq<Technology>)
    ensures possible == Matching(Candidates(technologies), |fastqs|)
  {
    var ts := Candidates(technologies);
    possible := [];
    var k := 0;
    while k < |ts|
      invariant 0 <= k <= |ts|
      invariant possible == Matching(ts[..k], |fastqs|)
    {
      assert ts[..k + 1][..k] == ts[..k];
      if |fastqs| == ts[k].nFiles {
        possible := possible + [ts[k]];
      }
      k := k + 1;
    }
    assert ts[..|ts|] == ts;
  }

  lemma MatchingSingle(t: Technology, n: nat)
    ensures Matching([t], n) == if t.nFiles == n then [t] else []
  {
    assert [t][..0] == [];
  }

  /** With the registry as candidates: two files mean 10x version 2 or 3, three files 10x version 1 or inDrops. */
  lemma RegistryByFileCount(n: nat)
    ensures Matching(Registry, n) ==
      if n == 2 then [Registry[1], Registry[2]]
      else if n == 3 then [Registry[0], Registry[3]]
      else []
    ensures Registry[0].name == "10xv1" && Registry[1].name == "10xv2"
    ensures Registry[2].name == "10xv3" && Registry[3].name == "indropsv3"
  {
    var r0, r1, r2, r3 := Registry[0], Registry[1], Registry[2], Registry[3];
    assert Registry == [r0] + [r1] + [r2] + [r3];
    MatchingAppend([r0] + [r1] + [r2], [r3], n);
    MatchingAppend([r0] + [r1], [r2], n);
    MatchingAppend([r0], [r1], n);
    MatchingSingle(r0, n);
    MatchingSingle(r1, n);
    MatchingSingle(r2, n);
    MatchingSingle(r3, n);
  }

  /**
   * Filtering again with the result as the candidate list gives the same
   * result, unless it was empty: an empty list falls back to the registry.
   */
  lemma RefilterFiles(fastqs: seq<string>, technologies: Option<seq<Technology>>)
    ensures var once := Matching(Candidates(technologies), |fastqs|);
      Matching(Candidates(Some(once)), |fastqs|) == if once == [] then Matching(Registry, |fastqs|) else once
  {
    MatchingIdempotent(Candidates(technologies), |fastqs|);
  }

  /** (lower, upper) ends of the window of reads `[skip, skip + count)` in a file of `n` reads. */
  function WindowBounds(skip: int, count: int, n: nat): (b: (nat, nat))
    ensures b.0 <= b.1 <= n
  {
    var lo := if skip < 0 then 0 else if skip > n then n else skip;
    var hi := if skip + count < lo then lo else if skip + count > n then n else skip + count;
    (lo, hi)
  }

  /**
   * The reads the sampling loop visits in one file: those at positions
   * from `skip` (inclusive) to `skip + count` (exclusive).
   */
  function Window(rs: seq<string>, skip: int, count: int): (w: seq<string>)
    ensures var (lo, hi) := WindowBounds(skip, count, |rs|);
      && |w| == hi - lo
      && forall j :: 0 <= j < |w| ==> skip <= lo + j < skip + count && w[j] == rs[lo + j]
  {
    var (lo, hi) := WindowBounds(skip, count, |rs|);
    rs[lo..hi]
  }

  /** No read inside the window is missed. */
  lemma WindowComplete(rs: seq<string>, skip: int, count: int, i: nat)
    requires i < |rs| && skip <= i < skip + count
    ensures var lo := WindowBounds(skip, count, |rs|).0;
      lo <= i && i - lo < |Window(rs, skip, count)| && Window(rs, skip, count)[i - lo] == rs[i]
  {
  }

  /** For non-negative settings, the window of a file is `Fastq(path)[skip:skip + count]`. */
  lemma WindowIsSlice(lines: seq<string>, skip: nat, count: nat)
    ensures FastqFile.Selection(lines, FastqFile.Slice(Some(skip), Some(skip + count), None))
      == Ok(Window(Reads(lines), skip, count))
  {
    var rs := Reads(lines);
    var r := FastqFile.Range(skip, skip + count, 1);
    assert FastqFile.Validate(FastqFile.Slice(Some(skip), Some(skip + count), None)) == Ok(r);
    FastqFile.PickContiguous(rs, skip, skip + count);
    WindowAsSlice(rs, skip, count);
  }

  lemma WindowAsSlice(rs: seq<string>, skip: nat, count: nat)
    ensures var n := Numbers.Min(skip + count, |rs|);
      Window(rs, skip, count) == if skip < n then rs[skip..n] else []
  {
  }

  /** Reads before `skip` are passed over. */
  lemma WindowSkip(rs: seq<string>, skip: int, count: int, i: nat)
    requires i < |rs| && i < skip
    ensures Window(rs[..i + 1], skip, count) == Window(rs[..i], skip, count) == []
  {
  }

  /** A read inside the window is visited after the ones before it. */
  lemma WindowTake(rs: seq<string>, skip: int, count: int, i: nat)
    requires i < |rs| && skip <= i < skip + count
    ensures Window(rs[..i + 1], skip, count) == Window(rs[..i], skip, count) + [rs[i]]
  {
    var lo := WindowBounds(skip, count, i).0;
    assert WindowBounds(skip, count, i + 1) == (lo, i + 1);
    assert rs[..i + 1][lo..i + 1] == rs[lo..i + 1];
    assert rs[..i][lo..i] == rs[lo..i];
    assert rs[lo..i + 1] == rs[lo..i] + [rs[i]];
  }

  /** Once the window is passed, the rest of the file adds nothing. */
  lemma WindowPast(rs: seq<string>, skip: int, count: int, i: nat)
    requires i <= |rs| && skip + count <= i && skip <= i
    ensures Window(rs, skip, count) == Window(rs[..i], skip, count)
  {
    assert WindowBounds(skip, count, i) == WindowBounds(skip, count, |rs|);
  }

  /** The inner loop of `filter_barcodes_umis` over the reads of one file. */
  method SampleFile(rs: seq<string>, skip: int, count: int) returns (seen: seq<string>)
    ensures seen == Window(rs, skip, count)
  {
    seen := [];
    var i := 0;
    while i < |rs|
      invariant 0 <= i <= |rs|
      invariant seen == Window(rs[..i], skip, count)
    {
      if i < skip {
        WindowSkip(rs, skip, count, i);
        i := i + 1;
        continue;
      }
      if i >= skip + count {
        WindowPast(rs, skip, count, i);
        break;
      }
      WindowTake(rs, skip, count, i);
      seen := seen + [rs[i]];
      i := i + 1;
    }
    assert rs[..|rs|] == rs;
  }

  /**
   * The read loop of `filter_barcodes_umis`: for each file in turn, its
   * reads are enumerated, the first `skip` are passed over, and the loop
   * leaves the file at position `skip + count`. The result is what each
   * file's inner loop visits.
   */
  method SampleWindow(files: seq<seq<string>>, skip: int, count: int) returns (visited: seq<seq<string>>)
    ensures |visited| == |files|
    ensures forall f :: 0 <= f < |files| ==> visited[f] == Window(Reads(files[f]), skip, count)
  {
    visited := [];
    var f := 0;
    while f < |files|
      invariant 0 <= f <= |files| && |visited| == f
      invariant forall g :: 0 <= g < f ==> visited[g] == Window(Reads(files[g]), skip, count)
    {
      var rs := FastqReads(files[f]);
      var seen := SampleFile(rs, skip, count);
      visited := visited + [seen];
      f := f + 1;
    }
  }
}
