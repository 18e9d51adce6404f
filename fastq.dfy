/**
 * Slicing a FASTQ file: `Fastq(path)[start:stop:step]` is the list of the
 * reads whose positions lie in `range(start, stop, step)`, read from the
 * file in order and no further than the last position asked for.
 */
module FastqFile {
  import opened Wrappers
  import opened Text
  import opened Utils
  import opened Numbers

  /** What `__getitem__` receives: a plain key, or a slice whose three parts may each be `None`. */
  datatype Index = Key(key: int) | Slice(start: Option<int>, stop: Option<int>, step: Option<int>)

  /** `NotImplementedError` with its message, or the `TypeError` of comparing `None` with `0`. */
  datatype GetItemError = NotImplemented(message: string) | TypeError

  const IndexingMessage := "Indexing is not supported. Use slice."
  const SliceMessage := "Slices must only contain non-negative integers."

  type Positive = x: int | x > 0 witness 1

  /** The arguments of `range(start, stop, step)` once the slice has been accepted. */
  datatype Range = Range(start: nat, stop: nat, step: Positive)

  /** `set(range(start, stop, step))` for a positive step. */
  function RangeSet(r: Range): (ks: set<int>)
    ensures forall k <- ks :: r.start <= k < r.stop
  {
    set k | r.start <= k < r.stop && OnStep(r, k)
  }

  /** `k` is reached from `start` in whole steps. */
  predicate OnStep(r: Range, k: int) {
    (k - r.start) % r.step == 0
  }

  /** `x or d` for an optional integer: `None` and `0` both give `d`. */
  function OrElse(x: Option<int>, d: int): int {
    if x.None? || x.value == 0 then d else x.value
  }

  /** A slice the method accepts: a stop, and no negative part. */
  predicate Acceptable(index: Index) {
    && index.Slice? && index.stop.Some? && index.stop.value >= 0
    && (index.start.None? || index.start.value >= 0)
    && (index.step.None? || index.step.value >= 0)
  }

  /**
   * The argument checks of `__getitem__`, with an open start read as `0`,
   * as the later `index.start or 0` intends: a key is refused, a slice
   * without a stop or with a negative part is refused, anything else gives
   * the range to select.
   */
  function Validate(index: Index): (r: Result<Range, GetItemError>)
    ensures r.Ok? <==> Acceptable(index)
    ensures r.Ok? ==> r.value.start == OrElse(index.start, 0) && r.value.stop == index.stop.value
                      && r.value.step == OrElse(index.step, 1)
    ensures r.Err? ==> r.error == NotImplemented(if index.Key? then IndexingMessage else SliceMessage)
  {
    if !index.Slice? then Err(NotImplemented(IndexingMessage))
    else if || index.stop.None? || (index.start.Some? && index.start.value < 0) || index.stop.value < 0
            || (index.step.Some? && index.step.value < 0) then
      Err(NotImplemented(SliceMessage))
    else Ok(Range(OrElse(index.start, 0), index.stop.value, OrElse(index.step, 1)))
  }

  /**
   * The same checks as the source writes them: `index.start < 0` is
   * evaluated even when the start is `None`, which raises `TypeError`.
   */
  function ValidateAsWritten(index: Index): (r: Result<Range, GetItemError>)
    ensures r == Err(TypeError) <==> index.Slice? && index.stop.Some? && index.start.None?
  {
    if !index.Slice? then Err(NotImplemented(IndexingMessage))
    else if index.stop.None? then Err(NotImplemented(SliceMessage))
    else if index.start.None? then Err(TypeError)
    else if index.start.value < 0 || index.stop.value < 0 || (index.step.Some? && index.step.value < 0) then
      Err(NotImplemented(SliceMessage))
    else Ok(Range(OrElse(index.start, 0), index.stop.value, OrElse(index.step, 1)))
  }

  /** The two checks disagree exactly on slices with a stop but no start, and there the source raises `TypeError`. */
  lemma ValidateDisagreement(index: Index)
    ensures ValidateAsWritten(index) != Validate(index) <==> index.Slice? && index.stop.Some? && index.start.None?
    ensures ValidateAsWritten(index) != Validate(index) ==> ValidateAsWritten(index) == Err(TypeError)
  {
  }

  /** The positions below `n` that belong to `ks`, in increasing order. */
  function Positions(n: nat, ks: set<int>): (idx: seq<nat>)
    ensures forall j, j' :: 0 <= j < j' < |idx| ==> idx[j] < idx[j']
    ensures forall k: int :: k in idx <==> 0 <= k < n && k in ks
  {
    if n == 0 then []
    else
      var init := Positions(n - 1, ks);
      var idx := init + (if n - 1 in ks then [n - 1] else []);
      assert forall k: int :: k in idx <==> k in init || (k == n - 1 && k in ks);
      assert forall j :: 0 <= j < |init| ==> init[j] in init;
      idx
  }

  /** The entries of `rs[..n]` whose positions belong to `ks`, in order. */
  function Pick(rs: seq<string>, n: nat, ks: set<int>): (p: seq<string>)
    requires n <= |rs|
    ensures |p| == |Positions(n, ks)|
    ensures forall j :: 0 <= j < |p| ==> Positions(n, ks)[j] < n && p[j] == rs[Positions(n, ks)[j]]
  {
    var idx := Positions(n, ks);
    assert forall j :: 0 <= j < |idx| ==> idx[j] in idx;
    seq(|idx|, j requires 0 <= j < |idx| => rs[idx[j]])
  }

  /** One more position: its entry is added when it is selected. */
  lemma PickStep(rs: seq<string>, n: nat, ks: set<int>)
    requires n < |rs|
    ensures Pick(rs, n + 1, ks) == Pick(rs, n, ks) + (if n in ks then [rs[n]] else [])
  {
    assert Positions(n + 1, ks) == Positions(n, ks) + (if n in ks then [n] else []);
  }

  /** Positions past every selected one add nothing. */
  lemma {:induction false} PositionsPast(n: nat, m: nat, ks: set<int>)
    requires m <= n && forall k :: m <= k < n ==> k !in ks
    ensures Positions(n, ks) == Positions(m, ks)
    decreases n
  {
    if n > m {
      PositionsPast(n - 1, m, ks);
    }
  }

  /** The value `__getitem__` returns for the lines of the file, checks included. */
  function Selection(lines: seq<string>, index: Index): Result<seq<string>, GetItemError> {
    match Validate(index)
    case Err(e) => Err(e)
    case Ok(r) => Ok(Pick(Reads(lines), |Reads(lines)|, RangeSet(r)))
  }

  function SelectionAsWritten(lines: seq<string>, index: Index): Result<seq<string>, GetItemError> {
    match ValidateAsWritten(index)
    case Err(e) => Err(e)
    case Ok(r) => Ok(Pick(Reads(lines), |Reads(lines)|, RangeSet(r)))
  }

  /**
   * Line `l` is at read position `(l - 1) / 4`: the loop stops once that
   * passes `stop - 1`, and the position is a whole number exactly on the
   * sequence lines.
   */
  lemma Quarter(l: int, stop: int, i: real)
    requires i == (l - 1) as real / 4.0
    ensures && (i > (stop - 1) as real <==> l - 1 > 4 * (stop - 1))
      && (i.Floor as real == i <==> (l - 1) % 4 == 0)
      && (i.Floor as real == i ==> i.Floor == (l - 1) / 4)
  {
    var q, m := (l - 1) / 4, (l - 1) % 4;
    assert l - 1 == 4 * q + m && 0 <= m < 4;
    assert i == q as real + m as real / 4.0;
    assert i.Floor == q;
  }

  /**
   * The loop of `__getitem__`: walks the lines, computing the read position
   * `(l - 1) / 4` of each as a real number, stops once it passes the last
   * position wanted, and keeps the stripped line when the position is a
   * selected whole number. The result is the selected reads, in file order.
   */
  method Select(lines: seq<string>, r: Range) returns (picked: seq<string>)
    ensures picked == Pick(Reads(lines), |Reads(lines)|, RangeSet(r))
  {
    var indices := RangeSet(r);
    picked := [];
    var l := 0;
    while l < |lines|
      invariant 0 <= l <= |lines|
      invariant (l + 2) / 4 <= r.stop && (l + 2) / 4 <= |Reads(lines)|
      invariant picked == Pick(Reads(lines), (l + 2) / 4, indices)
    {
      var i := (l - 1) as real / 4.0;
      Quarter(l, r.stop, i);
      if i > (r.stop - 1) as real {
        SelectStop(lines, r, l);
        break;
      }
      SelectStep(lines, r, l);
      if i.Floor as real == i && i.Floor in indices {
        picked := picked + [Strip(lines[l])];
      }
      l := l + 1;
    }
    SelectDone(lines, r, l);
  }

  /** A line the loop does not stop at adds its stripped text exactly when it is a selected sequence line. */
  lemma SelectStep(lines: seq<string>, r: Range, l: nat)
    requires l < |lines| && l - 1 <= 4 * (r.stop - 1)
    ensures (l + 3) / 4 <= r.stop && (l + 3) / 4 <= |Reads(lines)|
    ensures Pick(Reads(lines), (l + 3) / 4, RangeSet(r)) == Pick(Reads(lines), (l + 2) / 4, RangeSet(r))
      + (if (l - 1) % 4 == 0 && (l - 1) / 4 in RangeSet(r) then [Strip(lines[l])] else [])
  {
    var rs := Reads(lines);
    var m := (l + 2) / 4;
    ReadCountStep(l);
    QuarterMono(l + 3, |lines| + 2);
    if (l + 3) % 4 == 0 {
      assert 4 * m + 1 == l && m == (l - 1) / 4;
      assert rs[m] == Strip(lines[l]);
      PickStep(rs, m, RangeSet(r));
    }
  }

  lemma QuarterMono(a: int, b: int)
    requires a <= b
    ensures a / 4 <= b / 4
  {
  }

  /** Where the loop stops, every position up to `stop` has been seen. */
  lemma SelectStop(lines: seq<string>, r: Range, l: nat)
    requires l <= |lines| && (l + 2) / 4 <= r.stop && l - 1 > 4 * (r.stop - 1)
    ensures (l + 2) / 4 == r.stop
  {
  }

  /** Whether the loop stopped early or ran out of lines, it has seen every read it selects. */
  lemma SelectDone(lines: seq<string>, r: Range, l: nat)
    requires l <= |lines| && (l + 2) / 4 <= r.stop && (l + 2) / 4 <= |Reads(lines)|
    requires l == |lines| || (l + 2) / 4 == r.stop
    ensures Pick(Reads(lines), (l + 2) / 4, RangeSet(r)) == Pick(Reads(lines), |Reads(lines)|, RangeSet(r))
  {
    PositionsPast(|Reads(lines)|, (l + 2) / 4, RangeSet(r));
  }

  /** `Fastq.__getitem__` on the lines of the file, with an open start read as `0`. */
  method GetItem(lines: seq<string>, index: Index) returns (result: Result<seq<string>, GetItemError>)
    ensures result == Selection(lines, index)
  {
    match Validate(index)
    case Err(e) =>
      result := Err(e);
    case Ok(r) =>
      var picked := Select(lines, r);
      result := Ok(picked);
  }

  /** `Fastq.__getitem__` as the source writes it. */
  method GetItemAsWritten(lines: seq<string>, index: Index) returns (result: Result<seq<string>, GetItemError>)
    ensures result == SelectionAsWritten(lines, index)
  {
    match ValidateAsWritten(index)
    case Err(e) =>
      result := Err(e);
    case Ok(r) =>
      var picked := Select(lines, r);
      result := Ok(picked);
  }

  /**
   * The selected reads: exactly the reads at the positions of the range,
   * in increasing order of position.
   */
  lemma SelectionContents(lines: seq<string>, index: Index)
    requires Acceptable(index)
    ensures var rs, r := Reads(lines), Validate(index).value;
      && Selection(lines, index).Ok?
      && Selection(lines, index).value == Pick(rs, Min(r.stop, |rs|), RangeSet(r))
      && |Selection(lines, index).value| == |set k | 0 <= k < |rs| && k in RangeSet(r)|
  {
    var rs, r := Reads(lines), Validate(index).value;
    PositionsPast(|rs|, Min(r.stop, |rs|), RangeSet(r));
    var idx := Positions(|rs|, RangeSet(r));
    DistinctCard(idx);
    assert Values(idx) == (set k | 0 <= k < |rs| && k in RangeSet(r));
  }

  function Values(idx: seq<nat>): set<nat> {
    set k | k in idx
  }

  /** A strictly increasing sequence has as many elements as its set of values. */
  lemma {:induction false} DistinctCard(idx: seq<nat>)
    requires forall j, j' :: 0 <= j < j' < |idx| ==> idx[j] < idx[j']
    ensures |Values(idx)| == |idx|
  {
    if idx != [] {
      var init := idx[..|idx| - 1];
      var last := idx[|idx| - 1];
      DistinctCard(init);
      assert idx == init + [last];
      assert Values(idx) == Values(init) + {last};
      assert forall j :: 0 <= j < |init| ==> init[j] < last;
      assert last !in Values(init);
    } else {
      assert Values(idx) == {};
    }
  }

  /** With step 1 the range holds every integer from `start` up to `stop`. */
  lemma RangeSetStepOne(start: nat, stop: nat)
    ensures forall k :: k in RangeSet(Range(start, stop, 1)) <==> start <= k < stop
  {
    forall k | start <= k < stop
      ensures OnStep(Range(start, stop, 1), k)
    {
      assert (k - start) % 1 == 0;
    }
  }

  /** `list(range(s, n))`. */
  function Interval(s: nat, n: nat): (r: seq<nat>)
    ensures |r| == if s < n then n - s else 0
    ensures forall j :: 0 <= j < |r| ==> r[j] == s + j
  {
    if n <= s then [] else Interval(s, n - 1) + [n - 1]
  }

  /** With step 1 the positions below `n` are `s, s + 1, …, n - 1`. */
  lemma {:induction false} PositionsFrom(s: nat, n: nat, ks: set<int>)
    requires forall k :: 0 <= k < n ==> (k in ks <==> s <= k)
    ensures Positions(n, ks) == Interval(s, n)
  {
    if n > 0 {
      PositionsFrom(s, n - 1, ks);
      if s < n {
        assert n - 1 in ks;
      } else {
        assert n - 1 !in ks;
      }
    }
  }

  /** Picking a contiguous run of positions is slicing. */
  lemma PickContiguous(rs: seq<string>, s: nat, stop: nat)
    ensures var n := Min(stop, |rs|);
      Pick(rs, |rs|, RangeSet(Range(s, stop, 1))) == if s < n then rs[s..n] else []
  {
    var n := Min(stop, |rs|);
    var ks := RangeSet(Range(s, stop, 1));
    RangeSetStepOne(s, stop);
    PositionsPast(|rs|, n, ks);
    PositionsFrom(s, n, ks);
    PickInterval(rs, s, n, ks);
  }

  /** Picking the positions `s, s + 1, …, n - 1` is the slice `rs[s..n]`. */
  lemma PickInterval(rs: seq<string>, s: nat, n: nat, ks: set<int>)
    requires n <= |rs| && Positions(|rs|, ks) == Interval(s, n)
    ensures Pick(rs, |rs|, ks) == if s < n then rs[s..n] else []
  {
    var p := Pick(rs, |rs|, ks);
    if s < n {
      assert |p| == n - s;
      forall j | 0 <= j < n - s
        ensures p[j] == rs[s..n][j]
      {
        assert Positions(|rs|, ks)[j] == s + j;
      }
    }
  }

  /** `f[start:stop]` with no step is the run of reads from `start` up to `stop` or the end of the file. */
  lemma SelectionContiguous(lines: seq<string>, start: Option<int>, stop: nat)
    requires start.None? || start.value >= 0
    ensures var rs, s := Reads(lines), OrElse(start, 0);
      Selection(lines, Slice(start, Some(stop), None)) == Ok(if s < Min(stop, |rs|) then rs[s..Min(stop, |rs|)] else [])
  {
    PickContiguous(Reads(lines), OrElse(start, 0), stop);
  }

  /** A slice with stop 0 is empty, whatever the file. */
  lemma SelectionStopZero(lines: seq<string>, start: Option<nat>, step: Option<nat>)
    ensures Selection(lines, Slice(start, Some(0), step)) == Ok([])
  {
    var r := Validate(Slice(start, Some(0), step)).value;
    PositionsPast(|Reads(lines)|, 0, RangeSet(r));
  }

  /** Positions past `m` that are never selected can be cut off the sequence. */
  lemma PickPrefix(rs: seq<string>, m: nat, ks: set<int>)
    requires m <= |rs| && forall k :: m <= k < |rs| ==> k !in ks
    ensures Pick(rs[..m], m, ks) == Pick(rs, |rs|, ks)
  {
    PositionsPast(|rs|, m, ks);
  }

  /** The answer depends only on the lines the loop reads before it stops, `4 * stop - 2` of them. */
  lemma SelectionPrefix(lines: seq<string>, index: Index, j: nat)
    requires Acceptable(index) && 4 * index.stop.value - 2 <= j <= |lines|
    ensures Selection(lines[..j], index) == Selection(lines, index)
  {
    var r := Validate(index).value;
    var m := (j + 2) / 4;
    ReadsPrefix(lines, j);
    QuarterMono(j + 2, |lines| + 2);
    PickPrefix(Reads(lines), m, RangeSet(r));
  }

  /**
   * An open start: the source raises `TypeError` for `f[:1]`, where the
   * corrected check returns the first read.
   */
  lemma OpenStartFinding(lines: seq<string>)
    requires |lines| >= 2
    ensures SelectionAsWritten(lines, Slice(None, Some(1), None)) == Err(TypeError)
    ensures Selection(lines, Slice(None, Some(1), None)) == Ok([Strip(lines[1])])
  {
    assert ValidateAsWritten(Slice(None, Some(1), None)) == Err(TypeError);
    SelectionContiguous(lines, None, 1);
    FirstReads(lines);
  }

  /** A file with a sequence line has a first read: that line, stripped. */
  lemma FirstReads(lines: seq<string>)
    requires |lines| >= 2
    ensures var rs := Reads(lines);
      |rs| >= 1 && Min(1, |rs|) == 1 && rs[0..1] == [Strip(lines[1])]
  {
    var rs := Reads(lines);
    assert rs[0] == Strip(lines[4 * 0 + 1]);
  }

  /** `f[0:1]` is the first read on both versions. */
  lemma FirstRead(lines: seq<string>)
    requires |lines| >= 2
    ensures SelectionAsWritten(lines, Slice(Some(0), Some(1), None)) == Ok([Strip(lines[1])])
    ensures Selection(lines, Slice(Some(0), Some(1), None)) == Ok([Strip(lines[1])])
  {
    ValidateDisagreement(Slice(Some(0), Some(1), None));
    SelectionContiguous(lines, Some(0), 1);
    FirstReads(lines);
  }
}
