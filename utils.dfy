/**
 * Reading the sequences out of a FASTQ file, and comparing two DNA
 * sequences up to a Hamming distance with `N` as a wildcard.
 */
module Utils {
  import opened Text

  /**
   * The sequences of a FASTQ file given as its lines: the second line of every
   * four-line record, stripped. A trailing partial record still yields its
   * sequence line when it has one.
   */
  function Reads(lines: seq<string>): (r: seq<string>)
    ensures |r| == (|lines| + 2) / 4
    ensures forall k :: 0 <= k < |r| ==> 4 * k + 1 < |lines| && r[k] == Strip(lines[4 * k + 1])
  {
    ReadLines(|lines|);
    seq((|lines| + 2) / 4, k requires 0 <= k < (|lines| + 2) / 4 => Strip(lines[4 * k + 1]))
  }

  /** Read number `k` of a file of `n` lines is on line `4 * k + 1`, which exists. */
  lemma ReadLines(n: nat)
    ensures forall k :: 0 <= k < (n + 2) / 4 ==> 4 * k + 1 < n
  {
    assert 4 * ((n + 2) / 4) <= n + 2;
  }

  /** The sequences of a prefix of a file are a prefix of its sequences. */
  lemma ReadsPrefix(lines: seq<string>, j: nat)
    requires j <= |lines|
    ensures Reads(lines[..j]) == Reads(lines)[..(j + 2) / 4]
  {
  }

  /** Appending one whole record to a file of whole records adds exactly its sequence to the reads. */
  lemma ReadsAppendRecord(lines: seq<string>, header: string, sequence: string, plus: string, quality: string)
    requires |lines| % 4 == 0
    ensures Reads(lines + [header, sequence, plus, quality]) == Reads(lines) + [Strip(sequence)]
  {
    var q := |lines| / 4;
    ReadsOfRecords(lines, q, [header, sequence, plus, quality]);
  }

  lemma ReadsOfRecords(lines: seq<string>, q: nat, record: seq<string>)
    requires |lines| == 4 * q && |record| == 4
    ensures Reads(lines + record) == Reads(lines) + [Strip(record[1])]
  {
    var longer := lines + record;
    var r, s := Reads(longer), Reads(lines);
    assert |r| == q + 1 && |s| == q;
    assert r[q] == Strip(longer[4 * q + 1]);
    forall k | 0 <= k < q
      ensures r[k] == s[k]
    {
      assert longer[4 * k + 1] == lines[4 * k + 1];
    }
  }

  /** Line `n` (counting from 0) carries a sequence exactly when `(n + 3) % 4 == 0`; the count of sequences steps up there. */
  lemma ReadCountStep(n: nat)
    ensures (n + 3) % 4 == 0 ==> (n + 3) / 4 == (n + 2) / 4 + 1 && 4 * ((n + 2) / 4) + 1 == n
    ensures (n + 3) % 4 != 0 ==> (n + 3) / 4 == (n + 2) / 4
  {
  }

  /** `fastq_reads`: walks the lines in order and yields the stripped line whenever `(n + 3) % 4 == 0`. */
  method FastqReads(lines: seq<string>) returns (sequences: seq<string>)
    ensures sequences == Reads(lines)
  {
    sequences := [];
    var n := 0;
    while n < |lines|
      invariant 0 <= n <= |lines|
      invariant |sequences| == (n + 2) / 4
      invariant forall k :: 0 <= k < |sequences| ==> 4 * k + 1 < n && sequences[k] == Strip(lines[4 * k + 1])
    {
      ReadCountStep(n);
      if (n + 3) % 4 == 0 {
        sequences := sequences + [Strip(lines[n])];
      }
      n := n + 1;
    }
  }

  /** Two bases count as different unless they are equal or either is the wildcard `N`. */
  predicate Differs(x: char, y: char) {
    x != 'N' && y != 'N' && x != y
  }

  /** `sum(s1 != 'N' and s2 != 'N' and s1 != s2 for s1, s2 in zip(a, b))` for equal-length strings. */
  function Mismatches(a: string, b: string): (m: nat)
    requires |a| == |b|
    ensures m <= |a|
  {
    if a == [] then 0
    else Mismatches(a[..|a| - 1], b[..|b| - 1]) + (if Differs(a[|a| - 1], b[|b| - 1]) then 1 else 0)
  }

  /** The positions at which two equal-length strings differ, wildcards aside. */
  function MismatchPositions(a: string, b: string): set<int>
    requires |a| == |b|
  {
    set i | 0 <= i < |a| && Differs(a[i], b[i])
  }

  /** The mismatch count is the number of differing positions. */
  lemma {:induction false} MismatchesCount(a: string, b: string)
    requires |a| == |b|
    ensures Mismatches(a, b) == |MismatchPositions(a, b)|
  {
    if a != [] {
      var n := |a| - 1;
      var a', b' := a[..n], b[..n];
      MismatchesCount(a', b');
      if Differs(a[n], b[n]) {
        assert MismatchPositions(a, b) == MismatchPositions(a', b') + {n};
        assert n !in MismatchPositions(a', b');
      } else {
        assert MismatchPositions(a, b) == MismatchPositions(a', b');
      }
    }
  }

  /** No string differs from itself. */
  lemma {:induction false} MismatchesSelf(a: string)
    ensures Mismatches(a, a) == 0
  {
    MismatchesCount(a, a);
    assert MismatchPositions(a, a) == {};
  }

  lemma {:induction false} MismatchesSymmetric(a: string, b: string)
    requires |a| == |b|
    ensures Mismatches(a, b) == Mismatches(b, a)
  {
    MismatchesCount(a, b);
    MismatchesCount(b, a);
    assert MismatchPositions(a, b) == MismatchPositions(b, a);
  }

  /** Without wildcards, no mismatch means the strings are equal. */
  lemma {:induction false} MismatchesZero(a: string, b: string)
    requires |a| == |b|
    requires forall i :: 0 <= i < |a| ==> a[i] != 'N' && b[i] != 'N'
    ensures Mismatches(a, b) == 0 <==> a == b
  {
    MismatchesCount(a, b);
    if a != b {
      var i :| 0 <= i < |a| && a[i] != b[i];
      assert i in MismatchPositions(a, b);
    } else {
      MismatchesSelf(a);
    }
  }

  /**
   * `sequence_equals`: strings of different lengths are never equal;
   * otherwise, ignoring case, the number of positions where neither base is
   * `N` and the bases differ must not exceed `distance`.
   */
  function SequenceEquals(seq1: string, seq2: string, distance: int := 0): (eq: bool)
    ensures |seq1| != |seq2| ==> !eq
    ensures eq ==> distance >= 0
  {
    if |seq1| != |seq2| then false
    else Mismatches(Upper(seq1), Upper(seq2)) <= distance
  }

  /** Up to the case of the letters, equality means: same length and at most `distance` differing non-wildcard positions. */
  lemma SequenceEqualsPositions(seq1: string, seq2: string, distance: int)
    ensures SequenceEquals(seq1, seq2, distance) <==>
      |seq1| == |seq2| && |MismatchPositions(Upper(seq1), Upper(seq2))| <= distance
  {
    if |seq1| == |seq2| {
      MismatchesCount(Upper(seq1), Upper(seq2));
    }
  }

  /** Every sequence equals itself at every non-negative distance. */
  lemma SequenceEqualsReflexive(s: string, distance: int)
    ensures SequenceEquals(s, s, distance) <==> distance >= 0
  {
    MismatchesSelf(Upper(s));
  }

  lemma SequenceEqualsSymmetric(seq1: string, seq2: string, distance: int)
    ensures SequenceEquals(seq1, seq2, distance) == SequenceEquals(seq2, seq1, distance)
  {
    if |seq1| == |seq2| {
      MismatchesSymmetric(Upper(seq1), Upper(seq2));
    }
  }

  /** A larger allowed distance accepts everything a smaller one does. */
  lemma SequenceEqualsMonotone(seq1: string, seq2: string, d: int, e: int)
    requires d <= e && SequenceEquals(seq1, seq2, d)
    ensures SequenceEquals(seq1, seq2, e)
  {
  }

  /** The comparison ignores the case of the letters. */
  lemma SequenceEqualsIgnoresCase(seq1: string, seq2: string, distance: int)
    ensures SequenceEquals(Upper(seq1), seq2, distance) == SequenceEquals(seq1, seq2, distance)
  {
    UpperIdempotent(seq1);
  }

  /** At distance 0 and without wildcards, two sequences are equal exactly when their capitalised forms are. */
  lemma SequenceEqualsExact(seq1: string, seq2: string)
    requires forall i :: 0 <= i < |seq1| ==> seq1[i] != 'N' && seq1[i] != 'n'
    requires forall i :: 0 <= i < |seq2| ==> seq2[i] != 'N' && seq2[i] != 'n'
    ensures SequenceEquals(seq1, seq2) <==> Upper(seq1) == Upper(seq2)
  {
    if |seq1| == |seq2| {
      var a, b := Upper(seq1), Upper(seq2);
      forall i | 0 <= i < |a|
        ensures a[i] != 'N' && b[i] != 'N'
      {
        assert UpperChar(seq1[i]) == a[i];
        assert UpperChar(seq2[i]) == b[i];
      }
      MismatchesZero(a, b);
    }
  }

  /** Case and the wildcard `N` do not count as differences. */
  lemma SequenceEqualsCaseAndWildcard()
    ensures SequenceEquals("ACGT", "acgt")
    ensures SequenceEquals("ACGT", "ANGT")
  {
    assert Upper("acgt") == "ACGT" && Upper("ACGT") == "ACGT" && Upper("ANGT") == "ANGT";
    MismatchesSelf("ACGT");
    MismatchesCount("ACGT", "ANGT");
    assert MismatchPositions("ACGT", "ANGT") == {};
  }

  /** One mismatch is tolerated at distance 1 but not at distance 0. */
  lemma SequenceEqualsOneMismatch()
    ensures !SequenceEquals("ACGT", "ACGA") && SequenceEquals("ACGT", "ACGA", 1)
  {
    assert Upper("ACGT") == "ACGT" && Upper("ACGA") == "ACGA";
    MismatchesCount("ACGT", "ACGA");
    assert MismatchPositions("ACGT", "ACGA") == {3};
  }
}
