/**
 * The maintenance script `tests/cleanup-test-data.js`: select the test rows of
 * the "Submissions" table with a fixed Airtable formula, then destroy them in
 * batches of at most ten ids, the per-request limit of Airtable's API.
 */
module Cleanup {
  import opened JsValues
  import opened Airtable

  // ---------------------------------------------------------------------------
  // The selection formula
  //   OR({Name}="Test Designer", {Name}="Test User",
  //      FIND("Automated", {Name}) > 0, FIND("Test", {DesignStyle}) > 0)

  /** `needle` occurs in `haystack` starting at index `k`. */
  predicate OccursAt(needle: string, haystack: string, k: nat)
  {
    k + |needle| <= |haystack| && haystack[k..k + |needle|] == needle
  }

  /** `needle` occurs somewhere in `haystack`. */
  ghost predicate Occurs(needle: string, haystack: string)
  {
    exists k: nat :: OccursAt(needle, haystack, k)
  }

  /**
   * Airtable's `FIND(needle, haystack)`: the 1-based position of the first
   * occurrence of `needle`, or 0 when there is none.
   */
  function Find(needle: string, haystack: string): (pos: nat)
    ensures pos > 0 ==> OccursAt(needle, haystack, pos - 1)
    ensures pos > 0 ==> forall k: nat :: k < pos - 1 ==> !OccursAt(needle, haystack, k)
    ensures pos == 0 ==> forall k: nat :: !OccursAt(needle, haystack, k)
    decreases |haystack|
  {
    if |haystack| < |needle| then 0
    else if haystack[..|needle|] == needle then 1
    else
      var p := Find(needle, haystack[1..]);
      FindInTail(needle, haystack, p);
      if p == 0 then 0 else p + 1
  }

  /**
   * When `needle` is not a prefix of `haystack`, the first occurrence in the
   * tail, one index later, is the first occurrence in the whole.
   */
  lemma FindInTail(needle: string, haystack: string, p: nat)
    requires |needle| <= |haystack| && haystack[..|needle|] != needle
    requires p > 0 ==> OccursAt(needle, haystack[1..], p - 1)
    requires p > 0 ==> forall k: nat :: k < p - 1 ==> !OccursAt(needle, haystack[1..], k)
    requires p == 0 ==> forall k: nat :: !OccursAt(needle, haystack[1..], k)
    ensures p > 0 ==> OccursAt(needle, haystack, p)
    ensures p > 0 ==> forall k: nat :: k < p ==> !OccursAt(needle, haystack, k)
    ensures p == 0 ==> forall k: nat :: !OccursAt(needle, haystack, k)
  {
    ShiftOccurs(needle, haystack);
    assert !OccursAt(needle, haystack, 0);
  }

  /** An occurrence in the tail is an occurrence in the whole, one index later. */
  lemma ShiftOccurs(needle: string, haystack: string)
    requires |haystack| > 0
    ensures forall k: nat :: 1 <= k ==> (OccursAt(needle, haystack, k) <==> OccursAt(needle, haystack[1..], k - 1))
  {
    forall k: nat | 1 <= k
      ensures OccursAt(needle, haystack, k) <==> OccursAt(needle, haystack[1..], k - 1)
    {
      if k + |needle| <= |haystack| {
        assert haystack[1..][k - 1..k - 1 + |needle|] == haystack[k..k + |needle|];
      }
    }
  }

  /** `FIND(needle, haystack) > 0` holds exactly when `needle` occurs in `haystack`. */
  lemma FindPositiveIffOccurs(needle: string, haystack: string)
    ensures Find(needle, haystack) > 0 <==> Occurs(needle, haystack)
  {
  }

  /** A field as Airtable's formulas see it: text, or the empty string when blank. */
  function Text(r: Record, name: string): string
  {
    match Field(r, name)
    case Some(JStr(s)) => s
    case _ => ""
  }

  /**
   * The script's `filterByFormula`, evaluated on one row: selected exactly by
   * its name, or by a substring of its name or design style.
   */
  predicate IsTestRecord(r: Record): (b: bool)
    ensures b <==> || Text(r, "Name") in {"Test Designer", "Test User"}
                   || Occurs("Automated", Text(r, "Name"))
                   || Occurs("Test", Text(r, "DesignStyle"))
  {
    FindPositiveIffOccurs("Automated", Text(r, "Name"));
    FindPositiveIffOccurs("Test", Text(r, "DesignStyle"));
    || Text(r, "Name") == "Test Designer"
    || Text(r, "Name") == "Test User"
    || Find("Automated", Text(r, "Name")) > 0
    || Find("Test", Text(r, "DesignStyle")) > 0
  }

  /**
   * The rows Airtable returns for the formula, in table order: each test row
   * as often as the table holds it, and no other row.
   */
  function Select(table: seq<Record>): (s: seq<Record>)
    ensures forall r :: multiset(s)[r] == if IsTestRecord(r) then multiset(table)[r] else 0
  {
    if |table| == 0 then []
    else
      assert table == [table[0]] + table[1..];
      if IsTestRecord(table[0]) then [table[0]] + Select(table[1..])
      else Select(table[1..])
  }

  /** The selection keeps exactly the test rows, in table order. */
  lemma {:induction false} SelectSpec(table: seq<Record>)
    ensures forall r :: r in Select(table) <==> r in table && IsTestRecord(r)
    ensures IsSubsequence(Select(table), table)
    decreases |table|
  {
    if |table| > 0 {
      SelectSpec(table[1..]);
    }
  }

  /** `xs` is `ys` with some elements left out, in the same order. */
  ghost predicate IsSubsequence<T>(xs: seq<T>, ys: seq<T>)
    decreases |ys|
  {
    if |xs| == 0 then true
    else if |ys| == 0 then false
    else if xs[0] == ys[0] then IsSubsequence(xs[1..], ys[1..])
    else IsSubsequence(xs, ys[1..])
  }

  // ---------------------------------------------------------------------------
  // Batching

  /** Airtable's limit on the number of records one `destroy` call takes. */
  const BatchSize: nat := 10

  function Min(a: int, b: int): int
  {
    if a <= b then a else b
  }

  /** Every batch holds 1..n elements, and all but the last exactly n. */
  ghost predicate WellSized<T>(batches: seq<seq<T>>, n: nat)
  {
    forall k :: 0 <= k < |batches| ==> 0 < |batches[k]| <= n && (k < |batches| - 1 ==> |batches[k]| == n)
  }

  /**
   * `xs` cut, front to back, into pieces of `n` elements: every piece holds
   * 1..n elements, all but the last exactly n, and there is a piece exactly
   * when `xs` is not empty.
   */
  function Chunks<T>(xs: seq<T>, n: nat): (cs: seq<seq<T>>)
    requires n > 0
    ensures WellSized(cs, n)
    ensures |cs| == 0 <==> |xs| == 0
    decreases |xs|
  {
    if |xs| == 0 then []
    else
      var k := Min(n, |xs|);
      var rest := Chunks(xs[k..], n);
      assert |rest| > 0 ==> k == n;
      [xs[..k]] + rest
  }

  /** The concatenation of a sequence of sequences. */
  function Flatten<T>(css: seq<seq<T>>): seq<T>
  {
    if |css| == 0 then [] else css[0] + Flatten(css[1..])
  }

  /** Flattening the chunks gives back the original sequence. */
  lemma {:induction false} FlattenChunks<T>(xs: seq<T>, n: nat)
    requires n > 0
    ensures Flatten(Chunks(xs, n)) == xs
    decreases |xs|
  {
    if |xs| > 0 {
      var k := Min(n, |xs|);
      var cs := Chunks(xs, n);
      assert cs[0] == xs[..k] && cs[1..] == Chunks(xs[k..], n);
      FlattenChunks(xs[k..], n);
      assert xs == xs[..k] + xs[k..];
    }
  }

  /** There are ceil(|xs| / n) chunks: the smallest count whose total capacity holds `xs`. */
  lemma {:induction false} ChunksCount<T>(xs: seq<T>, n: nat)
    requires n > 0
    ensures (|Chunks(xs, n)| - 1) * n < |xs| <= |Chunks(xs, n)| * n
    decreases |xs|
  {
    if |xs| == 0 {
    } else if |xs| <= n {
      assert Chunks(xs, n) == [xs[..|xs|]] + Chunks(xs[|xs|..], n);
      assert xs[|xs|..] == [];
    } else {
      assert Chunks(xs, n) == [xs[..n]] + Chunks(xs[n..], n);
      ChunksCount(xs[n..], n);
      var c := |Chunks(xs[n..], n)|;
      MulSucc(c - 1, n);
      MulSucc(c, n);
    }
  }

  lemma MulSucc(c: int, n: int)
    ensures (c + 1) * n == c * n + n
  {
  }

  /** Taking the piece at offset `i` moves the boundary between done and remaining chunks. */
  lemma ChunksStep<T>(done: seq<seq<T>>, xs: seq<T>, i: nat, n: nat)
    requires n > 0 && i < |xs|
    requires done + Chunks(xs[i..], n) == Chunks(xs, n)
    ensures (done + [xs[i..Min(i + n, |xs|)]]) + Chunks(xs[Min(i + n, |xs|)..], n) == Chunks(xs, n)
  {
    var k := Min(n, |xs[i..]|);
    assert xs[i..][..k] == xs[i..Min(i + n, |xs|)];
    assert xs[i..][k..] == xs[Min(i + n, |xs|)..];
    assert Chunks(xs[i..], n) == [xs[i..Min(i + n, |xs|)]] + Chunks(xs[Min(i + n, |xs|)..], n);
  }

  /** The batch numbers 1, 2, ..., `count` of the progress lines. */
  function BatchNumbers(count: nat): (ns: seq<nat>)
    ensures |ns| == count
    ensures forall k :: 0 <= k < count ==> ns[k] == k + 1
  {
    if count == 0 then [] else BatchNumbers(count - 1) + [count]
  }

  /** Any prefix of the chunks keeps their size bounds. */
  lemma ChunkPrefixSizes<T>(calls: seq<seq<T>>, xs: seq<T>, n: nat)
    requires n > 0 && calls <= Chunks(xs, n)
    ensures WellSized(calls, n)
  {
    var cs := Chunks(xs, n);
    assert forall k :: 0 <= k < |calls| ==> calls[k] == cs[k];
  }

  /** Every batch in `batches` was destroyed without error. */
  ghost predicate AllSucceed(destroy: seq<string> -> Option<string>, batches: seq<seq<string>>)
  {
    forall k :: 0 <= k < |batches| ==> destroy(batches[k]) == None
  }

  /** The ids of a slice are the slice of the ids. */
  lemma IdsSlice(rs: seq<Record>, i: nat, j: nat)
    requires i <= j <= |rs|
    ensures Ids(rs[i..j]) == Ids(rs)[i..j]
  {
  }

  // ---------------------------------------------------------------------------
  // The script

  /** The store as the script finds it: its table, or the message of the error `select` throws. */
  datatype Base = Reachable(table: seq<Record>) | Unreachable(message: string)

  /**
   * How `cleanupTestData` ends: the early return, the success report with the
   * `deleted` counter, or the `catch` block's `process.exit(1)` with the
   * message it logs.
   */
  datatype Outcome = NoTestData | Completed(deleted: nat) | Aborted(message: string)

  /** The ids of the selected rows of a reachable store. */
  function SelectedIds(base: Base): seq<string>
    requires base.Reachable?
  {
    Ids(Select(base.table))
  }

  /**
   * The state of the batching loop before the iteration at offset `i`:
   * `calls` are the chunks of `all` before `i`, each destroyed without error
   * and reported under its number, and `deleted` counts their ids.
   */
  ghost predicate Progress(all: seq<string>, destroy: seq<string> -> Option<string>, i: nat,
                           calls: seq<seq<string>>, reported: seq<nat>, deleted: nat)
  {
    && i == BatchSize * |calls|
    && i < |all| + BatchSize
    && deleted == Min(i, |all|)
    && calls + Chunks(all[Min(i, |all|)..], BatchSize) == Chunks(all, BatchSize)
    && AllSucceed(destroy, calls)
    && reported == BatchNumbers(|calls|)
  }

  /** A successful iteration keeps `Progress`; its batch is numbered `i / 10 + 1`. */
  lemma ProgressStep(all: seq<string>, destroy: seq<string> -> Option<string>, i: nat,
                     calls: seq<seq<string>>, reported: seq<nat>, deleted: nat)
    requires Progress(all, destroy, i, calls, reported, deleted) && i < |all|
    requires destroy(all[i..Min(i + BatchSize, |all|)]) == None
    ensures Progress(all, destroy, i + BatchSize, calls + [all[i..Min(i + BatchSize, |all|)]],
                     reported + [i / BatchSize + 1], deleted + |all[i..Min(i + BatchSize, |all|)]|)
  {
    ChunksStep(calls, all, i, BatchSize);
    assert i / BatchSize + 1 == |calls| + 1;
  }

  /**
   * What the batching loop leaves behind: `calls` are a prefix of the chunks
   * of `all`; each batch but a failing last one was destroyed and reported
   * under its number; without a failure every chunk was destroyed and
   * `deleted` counts every id.
   */
  ghost predicate BatchRun(all: seq<string>, destroy: seq<string> -> Option<string>, calls: seq<seq<string>>,
                           reported: seq<nat>, deleted: nat, failure: Option<string>)
  {
    && calls <= Chunks(all, BatchSize)
    && reported == BatchNumbers(|reported|)
    && |reported| <= |calls|
    && AllSucceed(destroy, calls[..|reported|])
    && (failure.None? ==> calls == Chunks(all, BatchSize) && deleted == |all| && |reported| == |calls|)
    && (failure.Some? ==> |calls| > 0 && destroy(calls[|calls| - 1]) == failure && |reported| == |calls| - 1)
  }

  /**
   * A failing iteration ends the loop: its batch is the next chunk, and the
   * batches before it were all destroyed and reported.
   */
  lemma ProgressFail(all: seq<string>, destroy: seq<string> -> Option<string>, i: nat,
                     calls: seq<seq<string>>, reported: seq<nat>, deleted: nat, message: string)
    requires Progress(all, destroy, i, calls, reported, deleted) && i < |all|
    requires destroy(all[i..Min(i + BatchSize, |all|)]) == Some(message)
    ensures BatchRun(all, destroy, calls + [all[i..Min(i + BatchSize, |all|)]], reported, deleted, Some(message))
  {
    ChunksStep(calls, all, i, BatchSize);
    var calls' := calls + [all[i..Min(i + BatchSize, |all|)]];
    assert calls'[..|reported|] == calls;
  }

  /** Once the offset passes the end, the calls are all the chunks, each reported. */
  lemma ProgressDone(all: seq<string>, destroy: seq<string> -> Option<string>, i: nat,
                     calls: seq<seq<string>>, reported: seq<nat>, deleted: nat)
    requires Progress(all, destroy, i, calls, reported, deleted) && i >= |all|
    ensures BatchRun(all, destroy, calls, reported, deleted, None)
  {
  }

  /**
   * The `for` loop of `cleanupTestData` over the selected `records`.
   * `destroy(ids)` is Airtable's `destroy` for one batch: `None` when it
   * succeeds, `Some(message)` when it throws. `calls` logs every batch passed
   * to `destroy`, the failing one included; `reported` holds the batch numbers
   * of the "Deleted batch" progress lines; `deleted` is the loop's counter.
   */
  method DestroyInBatches(records: seq<Record>, destroy: seq<string> -> Option<string>)
    returns (calls: seq<seq<string>>, reported: seq<nat>, deleted: nat, failure: Option<string>)
    ensures BatchRun(Ids(records), destroy, calls, reported, deleted, failure)
  {
    calls, reported, deleted, failure := [], [], 0, None;
    ghost var all := Ids(records);
    var i: nat := 0;
    while i < |records|
      invariant Progress(all, destroy, i, calls, reported, deleted)
      invariant failure.None?
      decreases |records| - i
    {
      var end := Min(i + BatchSize, |records|);
      var ids := Ids(records[i..end]);
      IdsSlice(records, i, end);
      assert ids == all[i..Min(i + BatchSize, |all|)];
      failure := destroy(ids);
      if failure.Some? {
        ProgressFail(all, destroy, i, calls, reported, deleted, failure.value);
        calls := calls + [ids];
        return;
      }
      ProgressStep(all, destroy, i, calls, reported, deleted);
      calls := calls + [ids];
      deleted := deleted + |ids|;
      reported := reported + [i / BatchSize + 1];
      i := i + BatchSize;
    }
    ProgressDone(all, destroy, i, calls, reported, deleted);
  }

  /**
   * `cleanupTestData`: select the test rows, return early when there are
   * none, otherwise destroy them batch by batch; any thrown error ends the
   * script through its `catch` block.
   */
  method CleanupTestData(base: Base, destroy: seq<string> -> Option<string>)
    returns (calls: seq<seq<string>>, reported: seq<nat>, outcome: Outcome)
    ensures base.Unreachable? ==> outcome == Aborted(base.message) && calls == [] && reported == []
    ensures outcome == NoTestData <==> base.Reachable? && |Select(base.table)| == 0
    ensures outcome == NoTestData ==> calls == [] && reported == []
    // every batch holds 1..10 ids, all but the last exactly 10
    ensures WellSized(calls, BatchSize)
    // the batches are the chunks of the selected ids, in order
    ensures base.Reachable? ==> calls <= Chunks(SelectedIds(base), BatchSize)
    // one progress line, numbered 1, 2, ..., per batch destroyed without error
    ensures |reported| <= |calls| && AllSucceed(destroy, calls[..|reported|])
    ensures reported == BatchNumbers(|reported|)
    // the first batch that fails aborts the script
    ensures outcome.Aborted? && base.Reachable?
            ==> |calls| == |reported| + 1 && destroy(calls[|calls| - 1]) == Some(outcome.message)
    ensures outcome.Completed?
            ==> && base.Reachable?
                && calls == Chunks(SelectedIds(base), BatchSize)
                && |reported| == |calls|
                && outcome.deleted == |Select(base.table)|
    ensures base.Reachable? && |Select(base.table)| > 0 && AllSucceed(destroy, Chunks(SelectedIds(base), BatchSize))
            ==> outcome == Completed(|Select(base.table)|)
  {
    if base.Unreachable? {
      return [], [], Aborted(base.message);
    }
    var records := Select(base.table);
    if |records| == 0 {
      return [], [], NoTestData;
    }
    var deleted, failure;
    calls, reported, deleted, failure := DestroyInBatches(records, destroy);
    ChunkPrefixSizes(calls, Ids(records), BatchSize);
    if failure.Some? {
      outcome := Aborted(failure.value);
      assert calls[|calls| - 1] == Chunks(Ids(records), BatchSize)[|calls| - 1];
    } else {
      outcome := Completed(deleted);
    }
  }

  /** No element of `xs` appears twice. */
  ghost predicate Distinct<T>(xs: seq<T>)
  {
    forall i, j :: 0 <= i < j < |xs| ==> xs[i] != xs[j]
  }

  /** In a sequence without repetitions, each element occurs exactly once. */
  lemma {:induction false} DistinctOccursOnce<T>(xs: seq<T>)
    requires Distinct(xs)
    ensures forall x :: x in xs ==> multiset(xs)[x] == 1
    decreases |xs|
  {
    if |xs| > 0 {
      var tail := xs[1..];
      assert Distinct(tail) by {
        forall i, j | 0 <= i < j < |tail|
          ensures tail[i] != tail[j]
        {
          assert tail[i] == xs[i + 1] && tail[j] == xs[j + 1];
        }
      }
      DistinctOccursOnce(tail);
      assert xs == [xs[0]] + tail;
      assert xs[0] !in tail by {
        forall i | 0 <= i < |tail|
          ensures tail[i] != xs[0]
        {
          assert tail[i] == xs[i + 1];
        }
      }
    }
  }

  /**
   * A run that completes destroys every selected row, and nothing else, in
   * ceil(n / 10) calls; as Airtable's record ids are distinct, each selected
   * id is sent to `destroy` exactly once.
   */
  lemma CompletedRunDeletesSelection(base: Base, destroy: seq<string> -> Option<string>,
                                     calls: seq<seq<string>>, n: nat)
    requires base.Reachable? && calls == Chunks(SelectedIds(base), BatchSize)
    requires n == |Select(base.table)|
    ensures Flatten(calls) == SelectedIds(base)
    ensures |calls| == (n + BatchSize - 1) / BatchSize
    ensures Distinct(SelectedIds(base)) ==> forall id :: id in SelectedIds(base) ==> multiset(Flatten(calls))[id] == 1
  {
    FlattenChunks(SelectedIds(base), BatchSize);
    ChunksCount(SelectedIds(base), BatchSize);
    if Distinct(SelectedIds(base)) {
      DistinctOccursOnce(SelectedIds(base));
    }
  }
}
