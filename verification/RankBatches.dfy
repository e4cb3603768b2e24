/**
 * Splitting the storefront candidates into ranking requests, within a count cap and a byte cap, and
 * validating each response against its request.
 */
module RankBatches {
  import opened Wrappers

  /** `bytes` is the length of the candidate's serialized form. */
  datatype Prepared = Prepared(
    displayName: string, description: string, eligible: bool, intentBoost: real, intentReasons: seq<string>, bytes: nat)

  datatype Batch = Batch(candidateIndexes: seq<nat>, candidates: seq<Prepared>)

  /** A request is too large, because of one candidate when an index is given. */
  datatype TooLarge = TooLarge(candidateIndex: Option<nat>)

  const MAX_BATCH_CANDIDATES: nat := 64
  const MAX_TOTAL_CANDIDATES: nat := 2000
  const MAX_NARRATIVE_CHARACTERS: nat := 8000
  const MAX_NAME_CHARACTERS: nat := 512
  const MAX_DESCRIPTION_CHARACTERS: nat := 8000
  const MAX_INTENT_REASONS: nat := 8
  const MAX_REASON_CHARACTERS: nat := 500

  // ----- the size of a request -----

  /**
   * Bytes of a serialized request: `around` for the narrative and the punctuation around the list, the
   * bytes of each candidate, and the commas between them.
   */
  function Bytes(around: nat, cs: seq<Prepared>): nat {
    if cs == [] then around else
      Bytes(around, cs[..|cs| - 1]) + cs[|cs| - 1].bytes + if |cs| == 1 then 0 else 1
  }

  function Sum(cs: seq<Prepared>): nat {
    if cs == [] then 0 else cs[0].bytes + Sum(cs[1..])
  }

  lemma {:induction false} SumSnoc(cs: seq<Prepared>)
    requires cs != []
    ensures Sum(cs) == Sum(cs[..|cs| - 1]) + cs[|cs| - 1].bytes
  {
    if |cs| > 1 {
      SumSnoc(cs[1..]);
      assert cs[1..][..|cs| - 2] == cs[..|cs| - 1][1..];
    } else {
      assert cs[1..] == [] && cs[..0] == [];
    }
  }

  /** The parts of a request: what is around the list, each candidate, and a comma between each two. */
  lemma {:induction false} BytesAre(around: nat, cs: seq<Prepared>)
    ensures Bytes(around, cs) == around + Sum(cs) + if cs == [] then 0 else |cs| - 1
  {
    if cs != [] {
      BytesAre(around, cs[..|cs| - 1]);
      SumSnoc(cs);
    }
  }

  lemma {:induction false} BytesDropFirst(around: nat, cs: seq<Prepared>)
    requires cs != []
    ensures Bytes(around, cs[1..]) <= Bytes(around, cs)
  {
    if |cs| > 1 {
      BytesDropFirst(around, cs[..|cs| - 1]);
      assert cs[1..][..|cs| - 2] == cs[..|cs| - 1][1..];
    }
  }

  lemma {:induction false} BytesOfPrefix(around: nat, cs: seq<Prepared>, to: nat)
    requires to <= |cs|
    ensures Bytes(around, cs[..to]) <= Bytes(around, cs)
  {
    if to < |cs| {
      BytesOfPrefix(around, cs[..|cs| - 1], to);
      assert cs[..|cs| - 1][..to] == cs[..to];
    } else {
      assert cs[..to] == cs;
    }
  }

  lemma {:induction false} BytesOfSuffix(around: nat, cs: seq<Prepared>, from: nat)
    requires from <= |cs|
    ensures Bytes(around, cs[from..]) <= Bytes(around, cs)
    decreases from
  {
    if from > 0 {
      BytesDropFirst(around, cs);
      BytesOfSuffix(around, cs[1..], from - 1);
      assert cs[1..][from - 1..] == cs[from..];
    } else {
      assert cs[from..] == cs;
    }
  }

  /** A part of a request is no larger than the request. */
  lemma BytesOfPart(around: nat, cs: seq<Prepared>, from: nat, to: nat)
    requires from <= to <= |cs|
    ensures Bytes(around, cs[from..to]) <= Bytes(around, cs)
  {
    BytesOfPrefix(around, cs, to);
    BytesOfSuffix(around, cs[..to], from);
    assert cs[..to][from..] == cs[from..to];
  }

  /** A request for this candidate alone is within the cap. */
  predicate Small(around: nat, maximumBytes: nat, c: Prepared) {
    around + c.bytes <= maximumBytes
  }

  lemma BytesOfOne(around: nat, cs: seq<Prepared>, k: nat)
    requires k < |cs|
    ensures around + cs[k].bytes == Bytes(around, [cs[k]]) <= Bytes(around, cs)
  {
    BytesOfPart(around, cs, k, k + 1);
    assert cs[k..k + 1] == [cs[k]];
  }

  // ----- request limits -----

  predicate CandidateOk(c: Prepared) {
    && |c.displayName| <= MAX_NAME_CHARACTERS
    && |c.description| <= MAX_DESCRIPTION_CHARACTERS
    && 0.0 <= c.intentBoost <= 0.7
    && |c.intentReasons| <= MAX_INTENT_REASONS
    && forall i :: 0 <= i < |c.intentReasons| ==> |c.intentReasons[i]| <= MAX_REASON_CHARACTERS
  }

  /** The limits of a candidate, written out. */
  lemma CandidateLimits(c: Prepared)
    ensures CandidateOk(c) <==>
            && |c.displayName| <= 512 && |c.description| <= 8000 && 0.0 <= c.intentBoost && c.intentBoost <= 0.7
            && |c.intentReasons| <= 8 && forall reason :: reason in c.intentReasons ==> |reason| <= 500
  {
  }

  method AssertRequestInput(narrative: string, candidates: seq<Prepared>) returns (problem: Option<TooLarge>)
    ensures problem.None? <==>
            && |narrative| <= MAX_NARRATIVE_CHARACTERS && |candidates| <= MAX_TOTAL_CANDIDATES
            && forall i :: 0 <= i < |candidates| ==> CandidateOk(candidates[i])
    ensures problem.Some? && problem.value.candidateIndex.Some? ==>
              var i := problem.value.candidateIndex.value;
              i < |candidates| && !CandidateOk(candidates[i]) && forall j :: 0 <= j < i ==> CandidateOk(candidates[j])
  {
    if |narrative| > MAX_NARRATIVE_CHARACTERS || |candidates| > MAX_TOTAL_CANDIDATES {
      return Some(TooLarge(None));
    }
    for i := 0 to |candidates|
      invariant forall j :: 0 <= j < i ==> CandidateOk(candidates[j])
    {
      if !CandidateOk(candidates[i]) {
        return Some(TooLarge(Some(i)));
      }
    }
    problem := None;
  }

  // ----- batches -----

  function Range(from: nat, to: nat): (r: seq<nat>)
    requires from <= to
    ensures |r| == to - from && forall k :: 0 <= k < |r| ==> r[k] == from + k
  {
    seq(to - from, k requires 0 <= k < to - from => from + k)
  }

  /** The request for the candidates from one position to another. */
  function Slice(cs: seq<Prepared>, from: nat, to: nat): Batch
    requires from <= to <= |cs|
  {
    Batch(Range(from, to), cs[from..to])
  }

  /** The batches are consecutive non-empty slices of the first `upto` candidates. */
  ghost predicate Split(batches: seq<Batch>, cs: seq<Prepared>, upto: nat) {
    if batches == [] then upto == 0 else
      var last := batches[|batches| - 1];
      var size := |last.candidateIndexes|;
      && 0 < size <= upto <= |cs|
      && last == Slice(cs, upto - size, upto)
      && Split(batches[..|batches| - 1], cs, upto - size)
  }

  predicate Fits(around: nat, maximumBytes: nat, b: Batch) {
    |b.candidates| <= MAX_BATCH_CANDIDATES && Bytes(around, b.candidates) <= maximumBytes
  }

  /** The next candidate would not have fitted as well. */
  predicate Full(around: nat, maximumBytes: nat, b: Batch, next: Prepared) {
    |b.candidates| == MAX_BATCH_CANDIDATES || Bytes(around, b.candidates + [next]) > maximumBytes
  }

  ghost predicate AllFit(around: nat, maximumBytes: nat, batches: seq<Batch>) {
    forall k :: 0 <= k < |batches| ==> Fits(around, maximumBytes, batches[k])
  }

  ghost predicate FullAt(around: nat, maximumBytes: nat, batches: seq<Batch>, k: nat)
    requires k < |batches| - 1
  {
    batches[k + 1].candidates != [] && Full(around, maximumBytes, batches[k], batches[k + 1].candidates[0])
  }

  /** Every batch but the last is full. */
  ghost predicate Greedy(around: nat, maximumBytes: nat, batches: seq<Batch>) {
    forall k :: 0 <= k < |batches| - 1 ==> FullAt(around, maximumBytes, batches, k)
  }

  lemma SplitSnoc(batches: seq<Batch>, cs: seq<Prepared>, from: nat, to: nat)
    requires Split(batches, cs, from) && from < to <= |cs|
    ensures Split(batches + [Slice(cs, from, to)], cs, to)
  {
    assert (batches + [Slice(cs, from, to)])[..|batches|] == batches;
  }

  lemma SliceSnoc(cs: seq<Prepared>, from: nat, i: nat)
    requires from <= i < |cs|
    ensures
      var slice := Slice(cs, from, i);
      Slice(cs, from, i + 1) == Batch(slice.candidateIndexes + [i], slice.candidates + [cs[i]])
  {
    assert Range(from, i + 1) == Range(from, i) + [i];
  }

  /** The batch under construction, `current`, holds the candidates from `from` to `i`. */
  ghost predicate Building(around: nat, maximumBytes: nat, batches: seq<Batch>, cs: seq<Prepared>, current: Batch,
                           from: nat, i: nat) {
    && from <= i <= |cs| && current == Slice(cs, from, i)
    && Split(batches, cs, from) && AllFit(around, maximumBytes, batches) && Greedy(around, maximumBytes, batches)
    && (from < i ==> Fits(around, maximumBytes, current))
    && (batches != [] ==> from < |cs| && Full(around, maximumBytes, batches[|batches| - 1], cs[from]))
  }

  ghost const Built: (nat, nat, seq<Batch>, seq<Prepared>, Batch, nat, nat) -> bool :=
    (around: nat, maximumBytes: nat, batches, cs, current, from: nat, i: nat) =>
      Building(around, maximumBytes, batches, cs, current, from, i)

  lemma Starts(around: nat, maximumBytes: nat, cs: seq<Prepared>)
    ensures Built(around, maximumBytes, [], cs, Batch([], []), 0, 0)
  {
    assert Slice(cs, 0, 0) == Batch([], []);
  }

  lemma GreedySnoc(around: nat, maximumBytes: nat, batches: seq<Batch>, b: Batch)
    requires AllFit(around, maximumBytes, batches) && Greedy(around, maximumBytes, batches)
             && Fits(around, maximumBytes, b)
    requires b.candidates != []
    requires batches != [] ==> Full(around, maximumBytes, batches[|batches| - 1], b.candidates[0])
    ensures AllFit(around, maximumBytes, batches + [b]) && Greedy(around, maximumBytes, batches + [b])
  {
    var more := batches + [b];
    forall k | 0 <= k < |more| - 1 ensures FullAt(around, maximumBytes, more, k) {
      assert more[k] == batches[k];
      if k < |batches| - 1 {
        assert FullAt(around, maximumBytes, batches, k);
      }
    }
  }

  /** The list with the batch under construction, if it holds anything. */
  function Closed(batches: seq<Batch>, current: Batch): seq<Batch> {
    if current.candidates == [] then batches else batches + [current]
  }

  /** Closing the batch. */
  lemma Flushes(around: nat, maximumBytes: nat, batches: seq<Batch>, cs: seq<Prepared>, current: Batch, from: nat,
                i: nat)
    requires Built(around, maximumBytes, batches, cs, current, from, i)
    ensures
      var more := Closed(batches, current);
      Split(more, cs, i) && AllFit(around, maximumBytes, more) && Greedy(around, maximumBytes, more)
  {
    if current.candidates != [] {
      SplitSnoc(batches, cs, from, i);
      GreedySnoc(around, maximumBytes, batches, current);
    }
  }

  /** Closing a full batch before candidate `i`. */
  lemma Restarts(around: nat, maximumBytes: nat, batches: seq<Batch>, cs: seq<Prepared>, current: Batch, from: nat,
                 i: nat)
    requires Built(around, maximumBytes, batches, cs, current, from, i) && current.candidates != []
    requires i < |cs| && Full(around, maximumBytes, current, cs[i])
    ensures Built(around, maximumBytes, batches + [current], cs, Batch([], []), i, i)
  {
    Flushes(around, maximumBytes, batches, cs, current, from, i);
    assert Slice(cs, i, i) == Batch([], []);
  }

  /** Adding candidate `i`. */
  lemma Extends(around: nat, maximumBytes: nat, batches: seq<Batch>, cs: seq<Prepared>, current: Batch, from: nat,
                i: nat)
    requires Built(around, maximumBytes, batches, cs, current, from, i) && i < |cs|
    requires |current.candidates| < MAX_BATCH_CANDIDATES && Bytes(around, current.candidates + [cs[i]]) <= maximumBytes
    ensures
      var next := Batch(current.candidateIndexes + [i], current.candidates + [cs[i]]);
      Built(around, maximumBytes, batches, cs, next, from, i + 1)
    ensures Small(around, maximumBytes, cs[i])
  {
    SliceSnoc(cs, from, i);
    BytesOfOne(around, current.candidates + [cs[i]], |current.candidates|);
  }

  /** One turn of the loop: closes the batch when the candidate does not fit, then adds the candidate. */
  method Place(around: nat, cs: seq<Prepared>, maximumBytes: nat, i: nat, batches: seq<Batch>, current: Batch,
               ghost from: nat)
      returns (more: seq<Batch>, next: Batch, ghost start: nat, ok: bool)
    requires i < |cs| && Built(around, maximumBytes, batches, cs, current, from, i)
    requires |current.candidates| <= MAX_BATCH_CANDIDATES
    ensures ok <==> Small(around, maximumBytes, cs[i])
    ensures ok ==> Built(around, maximumBytes, more, cs, next, start, i + 1)
    ensures ok ==> |next.candidates| <= MAX_BATCH_CANDIDATES
  {
    more, next, start := batches, current, from;
    if |next.candidates| == MAX_BATCH_CANDIDATES {
      Restarts(around, maximumBytes, more, cs, next, start, i);
      more, next, start := more + [next], Batch([], []), i;
    }
    var size := Bytes(around, next.candidates + [cs[i]]);
    if size > maximumBytes && next.candidates != [] {
      Restarts(around, maximumBytes, more, cs, next, start, i);
      more, next, start := more + [next], Batch([], []), i;
      size := Bytes(around, next.candidates + [cs[i]]);
    }
    assert next.candidates == [] ==> next.candidates + [cs[i]] == [cs[i]];
    ok := size <= maximumBytes;
    if ok {
      Extends(around, maximumBytes, more, cs, next, start, i);
      next := Batch(next.candidateIndexes + [i], next.candidates + [cs[i]]);
    }
  }

  method SplitByCaps(around: nat, cs: seq<Prepared>, maximumBytes: nat) returns (r: Result<seq<Batch>, TooLarge>)
    ensures r.Ok? ==>
              Split(r.value, cs, |cs|) && AllFit(around, maximumBytes, r.value) && Greedy(around, maximumBytes, r.value)
    ensures r.Ok? ==> forall j :: 0 <= j < |cs| ==> Small(around, maximumBytes, cs[j])
    ensures r.Err? ==>
              && r.error.candidateIndex.Some? && r.error.candidateIndex.value < |cs|
              && !Small(around, maximumBytes, cs[r.error.candidateIndex.value])
  {
    var batches: seq<Batch>, current := [], Batch([], []);
    ghost var from := 0;
    Starts(around, maximumBytes, cs);
    for i := 0 to |cs|
      invariant Built(around, maximumBytes, batches, cs, current, from, i)
      invariant |current.candidates| <= MAX_BATCH_CANDIDATES
      invariant forall j :: 0 <= j < i ==> Small(around, maximumBytes, cs[j])
    {
      var ok;
      batches, current, from, ok := Place(around, cs, maximumBytes, i, batches, current, from);
      if !ok {
        return Err(TooLarge(Some(i)));
      }
    }
    Flushes(around, maximumBytes, batches, cs, current, from, |cs|);
    r := Ok(Closed(batches, current));
  }

  /**
   * No batch is empty, over a cap or short of what it could hold; no candidate is lost, repeated or
   * moved; only input over a limit or a candidate too large on its own fails.
   */
  method BuildLexicalRankBatches(around: nat, narrative: string, cs: seq<Prepared>, maximumBytes: nat)
      returns (r: Result<seq<Batch>, TooLarge>)
    ensures r.Ok? <==>
            && |narrative| <= MAX_NARRATIVE_CHARACTERS && |cs| <= MAX_TOTAL_CANDIDATES
            && forall j :: 0 <= j < |cs| ==> CandidateOk(cs[j]) && Small(around, maximumBytes, cs[j])
    ensures r.Ok? ==>
              Split(r.value, cs, |cs|) && AllFit(around, maximumBytes, r.value) && Greedy(around, maximumBytes, r.value)
    ensures r.Err? && r.error.candidateIndex.Some? ==>
              var i := r.error.candidateIndex.value;
              i < |cs| && (!CandidateOk(cs[i]) || !Small(around, maximumBytes, cs[i]))
  {
    var problem := AssertRequestInput(narrative, cs);
    if problem.Some? {
      return Err(problem.value);
    }
    r := SplitByCaps(around, cs, maximumBytes);
  }

  // ----- what a split amounts to -----

  function AllIndexes(batches: seq<Batch>): seq<nat> {
    if batches == [] then [] else AllIndexes(batches[..|batches| - 1]) + batches[|batches| - 1].candidateIndexes
  }

  function AllCandidates(batches: seq<Batch>): seq<Prepared> {
    if batches == [] then [] else AllCandidates(batches[..|batches| - 1]) + batches[|batches| - 1].candidates
  }

  /** The batches of a split list every position and every candidate once, in order. */
  lemma {:induction false} SplitCovers(batches: seq<Batch>, cs: seq<Prepared>, upto: nat)
    requires Split(batches, cs, upto) && upto <= |cs|
    ensures AllIndexes(batches) == Range(0, upto) && AllCandidates(batches) == cs[..upto]
  {
    if batches != [] {
      var from := upto - |batches[|batches| - 1].candidateIndexes|;
      SplitCovers(batches[..|batches| - 1], cs, from);
      assert Range(0, from) + Range(from, upto) == Range(0, upto);
      assert cs[..from] + cs[from..upto] == cs[..upto];
    }
  }

  /** Where the first `k` batches end. */
  function End(batches: seq<Batch>, k: nat): nat
    requires k <= |batches|
  {
    if k == 0 then 0 else End(batches, k - 1) + |batches[k - 1].candidateIndexes|
  }

  lemma {:induction false} EndOfPrefix(batches: seq<Batch>, n: nat, k: nat)
    requires k <= n <= |batches|
    ensures End(batches[..n], k) == End(batches, k)
  {
    if k > 0 {
      EndOfPrefix(batches, n, k - 1);
    }
  }

  /** Batch `k` of a split is the slice from where the batches before it end. */
  lemma {:induction false} SplitAt(batches: seq<Batch>, cs: seq<Prepared>, upto: nat, k: nat)
    requires Split(batches, cs, upto) && k <= |batches| && upto <= |cs|
    ensures End(batches, |batches|) == upto && End(batches, k) <= upto
    ensures k < |batches| ==> End(batches, k) < End(batches, k + 1) <= upto
    ensures k < |batches| ==> batches[k] == Slice(cs, End(batches, k), End(batches, k + 1))
  {
    if batches != [] {
      var n := |batches| - 1;
      SplitAt(batches[..n], cs, upto - |batches[n].candidateIndexes|, if k <= n then k else n);
      EndOfPrefix(batches, n, n);
      EndOfPrefix(batches, n, if k <= n then k else n);
      if k < n {
        EndOfPrefix(batches, n, k + 1);
      }
    }
  }

  lemma PartOfSlice(around: nat, cs: seq<Prepared>, from: nat, to: nat, oFrom: nat, oTo: nat)
    requires oFrom <= from <= to < oTo <= |cs|
    ensures Bytes(around, cs[from..to] + [cs[to]]) <= Bytes(around, cs[oFrom..oTo])
  {
    BytesOfPart(around, cs[oFrom..oTo], from - oFrom, to + 1 - oFrom);
    assert cs[oFrom..oTo][from - oFrom..to + 1 - oFrom] == cs[from..to] + [cs[to]];
  }

  /** A batch that starts no earlier and is full ends no earlier than one within the caps. */
  lemma FullIsAhead(around: nat, maximumBytes: nat, cs: seq<Prepared>, from: nat, to: nat, oFrom: nat, oTo: nat)
    requires oFrom <= from < to < |cs| && oFrom < oTo <= |cs|
    requires Full(around, maximumBytes, Slice(cs, from, to), cs[to])
    requires Fits(around, maximumBytes, Slice(cs, oFrom, oTo))
    ensures oTo <= to
  {
    if to < oTo {
      PartOfSlice(around, cs, from, to, oFrom, oTo);
    }
  }

  /** A greedy split's batch that is not the last is full before the candidate at its end. */
  lemma FullAtEnd(around: nat, maximumBytes: nat, cs: seq<Prepared>, g: seq<Batch>, k: nat)
    requires Split(g, cs, |cs|) && Greedy(around, maximumBytes, g) && k < |g| - 1
    ensures End(g, k) < End(g, k + 1) < |cs|
    ensures Full(around, maximumBytes, Slice(cs, End(g, k), End(g, k + 1)), cs[End(g, k + 1)])
  {
    SplitAt(g, cs, |cs|, k);
    SplitAt(g, cs, |cs|, k + 1);
    assert FullAt(around, maximumBytes, g, k);
  }

  lemma StaysAhead(around: nat, maximumBytes: nat, cs: seq<Prepared>, g: seq<Batch>, o: seq<Batch>, k: nat)
    requires Split(g, cs, |cs|) && Greedy(around, maximumBytes, g)
    requires Split(o, cs, |cs|) && AllFit(around, maximumBytes, o)
    requires k < |g| && k < |o| && End(o, k) <= End(g, k)
    ensures End(o, k + 1) <= End(g, k + 1)
  {
    SplitAt(o, cs, |cs|, k);
    if k == |g| - 1 {
      SplitAt(g, cs, |cs|, |g|);
    } else {
      FullAtEnd(around, maximumBytes, cs, g, k);
      FullIsAhead(around, maximumBytes, cs, End(g, k), End(g, k + 1), End(o, k), End(o, k + 1));
    }
  }

  /** After as many batches, a greedy split is at least as far as any split within the caps. */
  lemma {:induction false} GreedyIsAhead(around: nat, maximumBytes: nat, cs: seq<Prepared>, g: seq<Batch>,
                                         o: seq<Batch>, k: nat)
    requires Split(g, cs, |cs|) && Greedy(around, maximumBytes, g)
    requires Split(o, cs, |cs|) && AllFit(around, maximumBytes, o)
    requires k <= |g| && k <= |o|
    ensures End(o, k) <= End(g, k)
  {
    if k > 0 {
      GreedyIsAhead(around, maximumBytes, cs, g, o, k - 1);
      StaysAhead(around, maximumBytes, cs, g, o, k - 1);
    }
  }

  /** No split within the caps needs fewer requests. */
  lemma {:induction false} FewestRequests(around: nat, maximumBytes: nat, cs: seq<Prepared>, g: seq<Batch>,
                                          o: seq<Batch>)
    requires Split(g, cs, |cs|) && Greedy(around, maximumBytes, g)
    requires Split(o, cs, |cs|) && AllFit(around, maximumBytes, o)
    ensures |g| <= |o|
  {
    if |o| < |g| {
      GreedyIsAhead(around, maximumBytes, cs, g, o, |o|);
      SplitAt(o, cs, |cs|, |o|);
      SplitAt(g, cs, |cs|, |o|);
    }
  }

  // ----- validating a response -----

  /** A row as received; `typed` says that it has exactly the five keys, with values of their types. */
  datatype ReceivedRow = ReceivedRow(
    typed: bool, candidateIndex: int, score: real, overlapCount: int, overlapLabels: seq<string>, advisory: string)

  datatype Ranked = Ranked(candidateIndex: nat, score: real, overlapCount: nat, overlapLabels: seq<string>)

  const MAX_OVERLAP_COUNT: nat := 512
  const MAX_OVERLAP_LABELS: nat := 8
  const MAX_LABEL_CHARACTERS: nat := 500
  const ADVISORY: string :=
    "Matching results are recommendations only; they grant no authorization, contact consent, "
    + "payment authority, contractual acceptance, or other right."

  /** The white space and line ends that `trim` removes. */
  predicate Space(c: char) {
    || c in {' ', '\t', '\n', '\r', '\U{B}', '\U{C}', '\U{A0}', '\U{1680}', '\U{2028}', '\U{2029}', '\U{202F}'}
    || c in {'\U{205F}', '\U{3000}', '\U{FEFF}'}
    || '\U{2000}' <= c <= '\U{200A}'
  }

  predicate Control(c: char) {
    c <= '\U{1F}' || c == '\U{7F}'
  }

  predicate LabelOk(text: string) {
    && 0 < |text| <= MAX_LABEL_CHARACTERS
    && !Space(text[0]) && !Space(text[|text| - 1])
    && forall i :: 0 <= i < |text| ==> !Control(text[i])
  }

  /** A few different labels, each short, trimmed and without control characters. */
  predicate LabelsOk(labels: seq<string>) {
    && |labels| <= MAX_OVERLAP_LABELS
    && (forall i :: 0 <= i < |labels| ==> LabelOk(labels[i]))
    && (forall i, j :: 0 <= i < j < |labels| ==> labels[i] != labels[j])
  }

  method ValidOverlapLabels(labels: seq<string>) returns (ok: bool)
    ensures ok <==> LabelsOk(labels)
  {
    if |labels| > MAX_OVERLAP_LABELS {
      return false;
    }
    var seen: set<string> := {};
    for i := 0 to |labels|
      invariant forall j :: 0 <= j < i ==> LabelOk(labels[j])
      invariant seen == set j | 0 <= j < i :: labels[j]
      invariant forall j, k :: 0 <= j < k < i ==> labels[j] != labels[k]
    {
      if !LabelOk(labels[i]) || labels[i] in seen {
        return false;
      }
      seen := seen + {labels[i]};
    }
    ok := true;
  }

  /** The row ranks an eligible candidate of the batch, within every range. */
  predicate RowOk(row: ReceivedRow, b: Batch) {
    && row.typed
    && 0 <= row.candidateIndex < |b.candidates| && b.candidates[row.candidateIndex].eligible
    && 0.0 <= row.score <= 0.99
    && |row.overlapLabels| <= row.overlapCount <= MAX_OVERLAP_COUNT
    && LabelsOk(row.overlapLabels)
    && row.advisory == ADVISORY
  }

  /** What is asked of a label, written out. */
  lemma LabelLimits(text: string)
    ensures LabelOk(text) <==>
            && 1 <= |text| <= 500 && !Space(text[0]) && !Space(text[|text| - 1])
            && forall i :: 0 <= i < |text| ==> text[i] > '\U{1F}' && text[i] != '\U{7F}'
  {
  }

  /** What is asked of a row, written out. */
  lemma RowLimits(row: ReceivedRow, b: Batch)
    ensures RowOk(row, b) <==>
            && row.typed
            && 0 <= row.candidateIndex < |b.candidates| && b.candidates[row.candidateIndex].eligible
            && row.score >= 0.0 && row.score <= 0.99
            && row.overlapCount >= |row.overlapLabels| && row.overlapCount <= 512 && |row.overlapLabels| <= 8
            && (forall i, j :: 0 <= i < j < |row.overlapLabels| ==> row.overlapLabels[i] != row.overlapLabels[j])
            && (forall i :: 0 <= i < |row.overlapLabels| ==> LabelOk(row.overlapLabels[i]))
            && row.advisory == ADVISORY
  {
  }

  method ValidRow(row: ReceivedRow, b: Batch, seen: set<int>) returns (ok: bool)
    ensures ok <==> RowOk(row, b) && row.candidateIndex !in seen
  {
    var labels := ValidOverlapLabels(row.overlapLabels);
    ok := && row.typed
          && 0 <= row.candidateIndex < |b.candidates|
          && row.candidateIndex !in seen
          && b.candidates[row.candidateIndex].eligible
          && 0.0 <= row.score <= 0.99
          && 0 <= row.overlapCount <= MAX_OVERLAP_COUNT
          && labels
          && |row.overlapLabels| <= row.overlapCount
          && row.advisory == ADVISORY;
  }

  /** Every row is in order, and no two rank the same candidate. */
  ghost predicate ValidRows(rows: seq<ReceivedRow>, b: Batch) {
    && |rows| <= |b.candidates|
    && (forall i :: 0 <= i < |rows| ==> RowOk(rows[i], b))
    && (forall i, j :: 0 <= i < j < |rows| ==> rows[i].candidateIndex != rows[j].candidateIndex)
  }

  /** The row in terms of all candidates instead of the batch's. */
  function Translate(row: ReceivedRow, b: Batch): Ranked
    requires RowOk(row, b) && |b.candidateIndexes| == |b.candidates|
  {
    Ranked(b.candidateIndexes[row.candidateIndex], row.score, row.overlapCount, row.overlapLabels)
  }

  function Translated(rows: seq<ReceivedRow>, b: Batch): seq<Ranked>
    requires |b.candidateIndexes| == |b.candidates| && forall i :: 0 <= i < |rows| ==> RowOk(rows[i], b)
  {
    seq(|rows|, i requires 0 <= i < |rows| => Translate(rows[i], b))
  }

  method ValidateResponse(rows: seq<ReceivedRow>, b: Batch) returns (r: Option<seq<Ranked>>)
    requires |b.candidateIndexes| == |b.candidates|
    ensures r.Some? <==> ValidRows(rows, b)
    ensures r.Some? ==> r.value == Translated(rows, b)
  {
    if |rows| > |b.candidates| {
      return None;
    }
    var seen: set<int> := {};
    var ranked: seq<Ranked> := [];
    for i := 0 to |rows|
      invariant |ranked| == i && forall j :: 0 <= j < i ==> RowOk(rows[j], b) && ranked[j] == Translate(rows[j], b)
      invariant seen == set j | 0 <= j < i :: rows[j].candidateIndex
      invariant forall j, k :: 0 <= j < k < i ==> rows[j].candidateIndex != rows[k].candidateIndex
    {
      var row := rows[i];
      var ok := ValidRow(row, b, seen);
      if !ok {
        return None;
      }
      seen := seen + {row.candidateIndex};
      ranked := ranked
        + [Ranked(b.candidateIndexes[row.candidateIndex], row.score, row.overlapCount, row.overlapLabels)];
    }
    r := Some(ranked);
  }
}
