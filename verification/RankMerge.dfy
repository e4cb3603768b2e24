/**
 * Merging the ranked rows into the final order. Whatever the order in which the batches completed, the
 * merge accepts the rows and the result is the same.
 */
module RankMerge {
  import opened Wrappers
  import opened RankBatches
  import opened RankPool
  import Sorting

  /** More overlap first, then higher score, then the original position. */
  predicate Before(a: Ranked, b: Ranked) {
    || a.overlapCount > b.overlapCount
    || (&& a.overlapCount == b.overlapCount
        && (a.score > b.score || (a.score == b.score && a.candidateIndex < b.candidateIndex)))
  }

  /** The first has more overlap; or as much and a higher score; or both alike and an earlier position. */
  predicate Outranks(a: Ranked, b: Ranked) {
    && a.overlapCount >= b.overlapCount
    && (a.overlapCount == b.overlapCount ==> a.score >= b.score)
    && (a.overlapCount == b.overlapCount && a.score == b.score ==> a.candidateIndex < b.candidateIndex)
  }

  predicate Known(prepared: seq<Prepared>, row: Ranked) {
    row.candidateIndex < |prepared| && prepared[row.candidateIndex].eligible
  }

  ghost predicate OneRowEach(rows: seq<Ranked>) {
    forall i, j :: 0 <= i < j < |rows| ==> rows[i].candidateIndex != rows[j].candidateIndex
  }

  ghost predicate Mergeable(prepared: seq<Prepared>, rows: seq<Ranked>) {
    (forall i :: 0 <= i < |rows| ==> Known(prepared, rows[i])) && OneRowEach(rows)
  }

  lemma BeforeOrders()
    ensures Sorting.StrictOrder(Before)
  {
  }

  lemma SortIsRight(rows: seq<Ranked>)
    requires OneRowEach(rows)
    ensures Sorting.Sorted(Before, Sorting.Sort(Before, rows)) && multiset(Sorting.Sort(Before, rows)) == multiset(rows)
    ensures Sorting.SameElements(Sorting.Sort(Before, rows), rows)
  {
    BeforeOrders();
    forall x, y | x in rows && y in rows && x != y ensures Before(x, y) || Before(y, x) {
      assert x.candidateIndex != y.candidateIndex;
    }
    Sorting.SortElements(Before, rows);
    Sorting.SortSorts(Before, rows);
  }

  /** Rejects a row for an unknown, repeated or ineligible candidate; otherwise sorts the rows. */
  method MergeRustRankedCandidates(prepared: seq<Prepared>, rows: seq<Ranked>) returns (r: Option<seq<Ranked>>)
    ensures r.Some? <==> Mergeable(prepared, rows)
    ensures r.Some? ==> Sorting.Sorted(Before, r.value) && multiset(r.value) == multiset(rows)
    ensures r.Some? ==> forall i, j :: 0 <= i < j < |r.value| ==> Outranks(r.value[i], r.value[j])
  {
    var seen: set<nat> := {};
    for i := 0 to |rows|
      invariant forall j :: 0 <= j < i ==> Known(prepared, rows[j])
      invariant seen == set j | 0 <= j < i :: rows[j].candidateIndex
      invariant forall j, k :: 0 <= j < k < i ==> rows[j].candidateIndex != rows[k].candidateIndex
    {
      if !Known(prepared, rows[i]) || rows[i].candidateIndex in seen {
        return None;
      }
      seen := seen + {rows[i].candidateIndex};
    }
    SortIsRight(rows);
    r := Some(Sorting.Sort(Before, rows));
  }

  // ----- rows of different batches -----

  /** The answer's rows rank eligible candidates of the slice from `from` to `to`, each at most once. */
  ghost predicate RowsWithin(cs: seq<Prepared>, from: nat, to: nat, rows: seq<Ranked>) {
    && (forall i :: 0 <= i < |rows| ==> Known(cs, rows[i]) && from <= rows[i].candidateIndex < to)
    && OneRowEach(rows)
  }

  ghost predicate AnswerFor(b: Batch, received: Option<seq<ReceivedRow>>, answer: seq<Ranked>) {
    && |b.candidateIndexes| == |b.candidates|
    && received.Some? && ValidRows(received.value, b) && answer == Translated(received.value, b)
  }

  /** The answer to a batch is its validated response. */
  ghost predicate AnswersFor(batches: seq<Batch>, received: seq<Option<seq<ReceivedRow>>>, answers: Answers) {
    && |answers| == |batches| == |received|
    && forall b :: 0 <= b < |batches| && answers[b].Some? ==> AnswerFor(batches[b], received[b], answers[b].value)
  }

  lemma AnswerWithin(cs: seq<Prepared>, from: nat, to: nat, received: Option<seq<ReceivedRow>>, answer: seq<Ranked>)
    requires from <= to <= |cs| && AnswerFor(Slice(cs, from, to), received, answer)
    ensures RowsWithin(cs, from, to, answer)
  {
    var rows := received.value;
    forall i | 0 <= i < |answer|
      ensures Known(cs, answer[i]) && answer[i].candidateIndex == from + rows[i].candidateIndex < to
    {
      assert RowOk(rows[i], Slice(cs, from, to));
    }
  }

  lemma {:induction false} EndGrows(batches: seq<Batch>, i: nat, j: nat)
    requires i <= j <= |batches|
    ensures End(batches, i) <= End(batches, j)
  {
    if i < j {
      EndGrows(batches, i, j - 1);
    }
  }

  /** The row ranks a candidate of batch `b`. */
  predicate FromBatch(batches: seq<Batch>, b: nat, row: Ranked) {
    b < |batches| && End(batches, b) <= row.candidateIndex < End(batches, b + 1)
  }

  /** No candidate is in two batches. */
  lemma FromOneBatch(batches: seq<Batch>, a: nat, b: nat, x: Ranked, y: Ranked)
    requires FromBatch(batches, a, x) && FromBatch(batches, b, y) && a != b
    ensures x.candidateIndex != y.candidateIndex
  {
    if a < b {
      EndGrows(batches, a + 1, b);
    } else {
      EndGrows(batches, b + 1, a);
    }
  }

  ghost predicate Ranking(cs: seq<Prepared>, batches: seq<Batch>, received: seq<Option<seq<ReceivedRow>>>,
                          answers: Answers) {
    Split(batches, cs, |cs|) && AnswersFor(batches, received, answers)
  }

  lemma BatchRows(cs: seq<Prepared>, batches: seq<Batch>, received: seq<Option<seq<ReceivedRow>>>,
                  answers: Answers, b: nat)
    requires Ranking(cs, batches, received, answers) && b < |answers| && answers[b].Some?
    ensures Mergeable(cs, answers[b].value)
    ensures forall i :: 0 <= i < |answers[b].value| ==> FromBatch(batches, b, answers[b].value[i])
  {
    SplitAt(batches, cs, |cs|, b);
    AnswerWithin(cs, End(batches, b), End(batches, b + 1), received[b], answers[b].value);
  }

  ghost predicate NoRepeats(order: seq<nat>) {
    forall b: nat :: Times(order, b) <= 1
  }

  lemma {:induction false} TimesIn(order: seq<nat>, b: nat)
    ensures Times(order, b) > 0 <==> b in order
  {
    if order != [] {
      TimesIn(order[..|order| - 1], b);
      assert order == order[..|order| - 1] + [order[|order| - 1]];
    }
  }

  lemma NoRepeatsInit(order: seq<nat>)
    requires NoRepeats(order) && order != []
    ensures NoRepeats(order[..|order| - 1]) && order[|order| - 1] !in order[..|order| - 1]
  {
    var init, x := order[..|order| - 1], order[|order| - 1];
    forall b: nat ensures Times(init, b) <= 1 {
      assert Times(order, b) <= 1;
    }
    assert Times(order, x) <= 1;
    TimesIn(init, x);
  }

  /** Each row of a list of batches comes from one of them. */
  ghost predicate FromSome(batches: seq<Batch>, order: seq<nat>, row: Ranked) {
    exists j :: 0 <= j < |order| && FromBatch(batches, order[j], row)
  }

  lemma FromSomeMore(batches: seq<Batch>, order: seq<nat>, row: Ranked, x: nat)
    requires FromSome(batches, order, row) || FromBatch(batches, x, row)
    ensures FromSome(batches, order + [x], row)
  {
    var more := order + [x];
    if FromSome(batches, order, row) {
      var j :| 0 <= j < |order| && FromBatch(batches, order[j], row);
      assert more[j] == order[j];
    } else {
      assert more[|order|] == x;
    }
  }

  lemma MergeableConcat(cs: seq<Prepared>, batches: seq<Batch>, order: seq<nat>, b: nat, xs: seq<Ranked>,
                        ys: seq<Ranked>)
    requires Mergeable(cs, xs) && Mergeable(cs, ys) && b !in order
    requires forall i :: 0 <= i < |xs| ==> FromSome(batches, order, xs[i])
    requires forall i :: 0 <= i < |ys| ==> FromBatch(batches, b, ys[i])
    ensures Mergeable(cs, xs + ys)
  {
    forall i, j | 0 <= i < |xs| && 0 <= j < |ys| ensures xs[i].candidateIndex != ys[j].candidateIndex {
      var k :| 0 <= k < |order| && FromBatch(batches, order[k], xs[i]);
      FromOneBatch(batches, order[k], b, xs[i], ys[j]);
    }
  }

  /** The rows of batches that do not repeat can be merged. */
  lemma {:induction false} RowsMergeable(cs: seq<Prepared>, batches: seq<Batch>,
                                         received: seq<Option<seq<ReceivedRow>>>,
                                         answers: Answers, order: seq<nat>)
    requires Ranking(cs, batches, received, answers) && Answered(answers, order) && NoRepeats(order)
    ensures Mergeable(cs, Rows(answers, order))
    ensures forall i :: 0 <= i < |Rows(answers, order)| ==> FromSome(batches, order, Rows(answers, order)[i])
  {
    if order != [] {
      var init, b := order[..|order| - 1], order[|order| - 1];
      NoRepeatsInit(order);
      RowsMergeable(cs, batches, received, answers, init);
      BatchRows(cs, batches, received, answers, b);
      var xs, ys := Rows(answers, init), answers[b].value;
      MergeableConcat(cs, batches, init, b, xs, ys);
      assert order == init + [b];
      forall i | 0 <= i < |xs + ys| ensures FromSome(batches, order, (xs + ys)[i]) {
        FromSomeMore(batches, init, (xs + ys)[i], b);
      }
    }
  }

  /** The rows of a list of batches are the rows of the batches in it. */
  lemma {:induction false} RowsHave(answers: Answers, order: seq<nat>, row: Ranked)
    requires Answered(answers, order)
    ensures row in Rows(answers, order) <==> exists b :: b in order && row in answers[b].value
  {
    if order != [] {
      var init, b := order[..|order| - 1], order[|order| - 1];
      RowsHave(answers, init, row);
      assert order == init + [b];
    }
  }

  /** The rows of all batches, in the order of the batches. */
  ghost function AllRows(answers: Answers): seq<Ranked>
    requires Answered(answers, Range(0, |answers|))
  {
    Rows(answers, Range(0, |answers|))
  }

  lemma {:induction false} RangeOnce(n: nat, b: nat)
    ensures Times(Range(0, n), b) == if b < n then 1 else 0
  {
    if n > 0 {
      RangeOnce(n - 1, b);
      assert Range(0, n) == Range(0, n - 1) + [n - 1];
      TimesSnoc(Range(0, n - 1), n - 1, b);
    }
  }

  /** The batches completed are all the batches, once each. */
  lemma CompletedAll(answers: Answers, steps: seq<Step>)
    requires Succeeded(RunOf(answers, steps))
    ensures NoRepeats(RunOf(answers, steps).completed)
    ensures forall b: nat :: b in RunOf(answers, steps).completed <==> b < |answers|
    ensures Answered(answers, RunOf(answers, steps).completed) && Answered(answers, Range(0, |answers|))
  {
    var order := RunOf(answers, steps).completed;
    RunKeeps(answers, steps);
    forall b: nat ensures Times(order, b) <= 1 && (b in order <==> b < |answers|) {
      EveryBatchOnce(answers, steps, b);
      TimesIn(order, b);
    }
    forall b: nat | b < |answers| ensures answers[b].Some? {
      assert b in order;
    }
  }

  lemma SameRows(answers: Answers, order: seq<nat>)
    requires Answered(answers, order) && Answered(answers, Range(0, |answers|))
    requires forall b: nat :: b in order <==> b < |answers|
    ensures Sorting.SameElements(Rows(answers, order), AllRows(answers))
  {
    var all := Range(0, |answers|);
    forall b: nat ensures b in all <==> b in order {
      RangeOnce(|answers|, b);
      TimesIn(all, b);
    }
    forall row ensures row in Rows(answers, order) <==> row in AllRows(answers) {
      RowsHave(answers, order, row);
      RowsHave(answers, all, row);
    }
  }

  /**
   * However the workers interleave, a ranking that returns is accepted by the merge, and the final list
   * is the one obtained from all answers in batch order.
   */
  lemma Deterministic(cs: seq<Prepared>, batches: seq<Batch>, received: seq<Option<seq<ReceivedRow>>>,
                      answers: Answers, steps: seq<Step>, result: seq<Ranked>)
    requires Ranking(cs, batches, received, answers) && Succeeded(RunOf(answers, steps))
    requires Sorting.Sorted(Before, result) && multiset(result) == multiset(RunOf(answers, steps).ranked)
    ensures Mergeable(cs, RunOf(answers, steps).ranked)
    ensures Answered(answers, Range(0, |answers|))
    ensures result == Sorting.Sort(Before, AllRows(answers))
    ensures forall i, j :: 0 <= i < j < |result| ==> Outranks(result[i], result[j])
  {
    var s := RunOf(answers, steps);
    RunKeeps(answers, steps);
    CompletedAll(answers, steps);
    RowsMergeable(cs, batches, received, answers, s.completed);
    SameRows(answers, s.completed);
    forall b: nat ensures Times(Range(0, |answers|), b) <= 1 {
      RangeOnce(|answers|, b);
    }
    RowsMergeable(cs, batches, received, answers, Range(0, |answers|));
    SortIsRight(AllRows(answers));
    BeforeOrders();
    forall x ensures x in result <==> x in s.ranked {
      assert x in result <==> x in multiset(result);
    }
    Sorting.SortedUnique(Before, result, Sorting.Sort(Before, AllRows(answers)));
  }
}
