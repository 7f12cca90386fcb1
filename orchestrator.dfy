/**
 * The bookkeeping of `download_all`: the pending list, the cursor `i` that
 * steps over failed rows while successful ones are deleted in place, and the
 * progress count `total - len(rows)` reported after every result. The
 * worker pool is abstracted away: the results of a pass arrive as a
 * sequence of outcomes in submission order.
 */
module Orchestrator {
  import opened Sequences
  import opened Rows

  /** The rows of a pass whose download failed, in submission order. */
  function Failures(rows: seq<Row>, outcomes: seq<bool>): seq<Row>
    requires |outcomes| == |rows|
    decreases |rows|
  {
    if rows == [] then []
    else
      var n := |rows| - 1;
      Failures(rows[..n], outcomes[..n]) + (if outcomes[n] then [] else [rows[n]])
  }

  /** How many downloads of a pass succeeded. */
  function Successes(outcomes: seq<bool>): nat
    decreases |outcomes|
  {
    if outcomes == [] then 0
    else
      var n := |outcomes| - 1;
      Successes(outcomes[..n]) + (if outcomes[n] then 1 else 0)
  }

  /** Every row either succeeded or is still pending. */
  lemma {:induction false} FailuresCount(rows: seq<Row>, outcomes: seq<bool>)
    requires |outcomes| == |rows|
    ensures |Failures(rows, outcomes)| + Successes(outcomes) == |rows|
    decreases |rows|
  {
    if rows != [] {
      FailuresCount(rows[..|rows| - 1], outcomes[..|rows| - 1]);
    }
  }

  /** The rows left pending keep their original order. */
  lemma {:induction false} FailuresSubsequence(rows: seq<Row>, outcomes: seq<bool>)
    requires |outcomes| == |rows|
    ensures IsSubsequence(Failures(rows, outcomes), rows)
    decreases |rows|
  {
    if rows != [] {
      var n := |rows| - 1;
      var before := Failures(rows[..n], outcomes[..n]);
      FailuresSubsequence(rows[..n], outcomes[..n]);
      assert rows == rows[..n] + [rows[n]];
      if outcomes[n] {
        SubsequenceAppend(before, rows[..n], [], [rows[n]]);
        assert before + [] == before;
      } else {
        SubsequenceReflexive([rows[n]]);
        SubsequenceAppend(before, rows[..n], [rows[n]], [rows[n]]);
      }
    }
  }

  /** A row whose download failed stays pending. */
  lemma {:induction false} FailedKept(rows: seq<Row>, outcomes: seq<bool>, k: nat)
    requires |outcomes| == |rows| && k < |rows| && !outcomes[k]
    ensures rows[k] in Failures(rows, outcomes)
    decreases |rows|
  {
    var n := |rows| - 1;
    if k < n {
      FailedKept(rows[..n], outcomes[..n], k);
      assert rows[..n][k] == rows[k];
    }
  }

  /** Only rows whose download failed stay pending. */
  lemma {:induction false} KeptFailed(rows: seq<Row>, outcomes: seq<bool>, r: Row)
    requires |outcomes| == |rows| && r in Failures(rows, outcomes)
    ensures exists k :: 0 <= k < |rows| && rows[k] == r && !outcomes[k]
    decreases |rows|
  {
    var n := |rows| - 1;
    if r in Failures(rows[..n], outcomes[..n]) {
      KeptFailed(rows[..n], outcomes[..n], r);
      var k :| 0 <= k < n && rows[..n][k] == r && !outcomes[..n][k];
      assert rows[k] == r && !outcomes[k];
    } else {
      assert rows[n] == r && !outcomes[n];
    }
  }

  /** The successes among a longer prefix of the results are at least as many. */
  lemma {:induction false} SuccessesGrow(outcomes: seq<bool>, j: nat, l: nat)
    requires j <= l <= |outcomes|
    ensures Successes(outcomes[..j]) <= Successes(outcomes[..l])
    decreases l
  {
    if j < l {
      SuccessesGrow(outcomes, j, l - 1);
      assert outcomes[..l][..l - 1] == outcomes[..l - 1];
    }
  }

  /** The counts printed during a pass that starts at `start`: one after each result. */
  function Progress(outcomes: seq<bool>, start: nat): seq<nat>
    decreases |outcomes|
  {
    if outcomes == [] then []
    else
      var n := |outcomes| - 1;
      Progress(outcomes[..n], start) + [start + Successes(outcomes)]
  }

  /** The count after the `k`-th result is the start plus the successes so far. */
  lemma {:induction false} ProgressCounts(outcomes: seq<bool>, start: nat)
    ensures |Progress(outcomes, start)| == |outcomes|
    ensures forall k :: 0 <= k < |outcomes| ==> Progress(outcomes, start)[k] == start + Successes(outcomes[..k + 1])
    decreases |outcomes|
  {
    if outcomes != [] {
      var n := |outcomes| - 1;
      ProgressCounts(outcomes[..n], start);
      assert outcomes[..|outcomes|] == outcomes;
      forall k | 0 <= k < n
        ensures Progress(outcomes, start)[k] == start + Successes(outcomes[..k + 1])
      {
        assert outcomes[..n][..k + 1] == outcomes[..k + 1];
      }
    }
  }

  /**
   * The counts of a pass never go down and stay between the start and the
   * count at the end of the pass.
   */
  lemma ProgressRising(outcomes: seq<bool>, start: nat)
    ensures Rising(Progress(outcomes, start), start, start + Successes(outcomes))
  {
    ProgressCounts(outcomes, start);
    var counts := Progress(outcomes, start);
    forall j, k | 0 <= j <= k < |counts|
      ensures start <= counts[j] <= counts[k] <= start + Successes(outcomes)
    {
      SuccessesGrow(outcomes, j + 1, k + 1);
      SuccessesGrow(outcomes, k + 1, |outcomes|);
      assert outcomes[..|outcomes|] == outcomes;
    }
  }

  /** One more result appends one more count. */
  lemma ProgressStep(outcomes: seq<bool>, start: nat, k: nat, count: nat)
    requires k < |outcomes| && count == start + Successes(outcomes[..k + 1])
    ensures Progress(outcomes[..k + 1], start) == Progress(outcomes[..k], start) + [count]
  {
    assert outcomes[..k + 1][..k] == outcomes[..k];
  }

  /** The counts never go down and stay between `bottom` and `top`. */
  ghost predicate Rising(counts: seq<nat>, bottom: int, top: int)
  {
    forall j, k :: 0 <= j <= k < |counts| ==> bottom <= counts[j] <= counts[k] <= top
  }

  /** Two runs of a rising count, the second starting where the first may end, make one. */
  lemma RisingAppend(first: seq<nat>, second: seq<nat>, bottom: int, middle: int, top: int)
    requires Rising(first, bottom, middle) && Rising(second, middle, top)
    requires bottom <= middle <= top
    ensures Rising(first + second, bottom, top)
  {
  }

  /** Extending a pass by one more result. */
  lemma FailuresStep(rows: seq<Row>, outcomes: seq<bool>, k: nat)
    requires |outcomes| == |rows| && k < |rows|
    ensures Failures(rows[..k + 1], outcomes[..k + 1])
         == Failures(rows[..k], outcomes[..k]) + (if outcomes[k] then [] else [rows[k]])
    ensures Successes(outcomes[..k + 1]) == Successes(outcomes[..k]) + (if outcomes[k] then 1 else 0)
  {
    assert rows[..k + 1][..k] == rows[..k] && outcomes[..k + 1][..k] == outcomes[..k];
  }

  /** The pending list of a pass and the cursor `i` into it. */
  datatype Cursor = Cursor(pending: seq<Row>, i: nat)

  /** One result of a pass: a success deletes `rows[i]`, a failure steps over it. */
  function Advance(c: Cursor, success: bool): (r: Cursor)
    requires c.i < |c.pending|
    ensures r.i <= |r.pending|
    ensures |r.pending| - r.i == |c.pending| - c.i - 1
  {
    if success then Cursor(c.pending[..c.i] + c.pending[c.i + 1..], c.i) else Cursor(c.pending, c.i + 1)
  }

  /** The cursor after the first `k` results of a pass. */
  ghost function PassState(rows: seq<Row>, outcomes: seq<bool>, k: nat): (c: Cursor)
    requires |outcomes| == |rows| && k <= |rows|
    ensures |c.pending| == c.i + |rows| - k
    ensures c.i + Successes(outcomes[..k]) == k
    decreases k
  {
    if k == 0 then Cursor(rows, 0)
    else
      assert outcomes[..k][..k - 1] == outcomes[..k - 1];
      Advance(PassState(rows, outcomes, k - 1), outcomes[k - 1])
  }

  /** One more result advances the cursor once. */
  lemma PassStateNext(rows: seq<Row>, outcomes: seq<bool>, k: nat)
    requires |outcomes| == |rows| && k < |rows|
    ensures PassState(rows, outcomes, k).i < |PassState(rows, outcomes, k).pending|
    ensures PassState(rows, outcomes, k + 1) == Advance(PassState(rows, outcomes, k), outcomes[k])
  {
  }

  /** The failed rows among the first `k`, then the rows not yet seen; the cursor between them. */
  ghost function Expected(rows: seq<Row>, outcomes: seq<bool>, k: nat): Cursor
    requires |outcomes| == |rows| && k <= |rows|
  {
    Cursor(Failures(rows[..k], outcomes[..k]) + rows[k..], |Failures(rows[..k], outcomes[..k])|)
  }

  /** The cursor sits on `rows[k]`; deleting it or stepping over it keeps the failed rows before it. */
  lemma PassStep(rows: seq<Row>, outcomes: seq<bool>, k: nat)
    requires |outcomes| == |rows| && k < |rows|
    ensures Expected(rows, outcomes, k).i < |Expected(rows, outcomes, k).pending|
    ensures Advance(Expected(rows, outcomes, k), outcomes[k]) == Expected(rows, outcomes, k + 1)
  {
    var done := Failures(rows[..k], outcomes[..k]);
    FailuresStep(rows, outcomes, k);
    assert rows[k..] == [rows[k]] + rows[k + 1..];
    assert (done + rows[k..])[..|done|] == done;
    assert (done + rows[k..])[|done| + 1..] == rows[k + 1..];
    if outcomes[k] {
      assert done + [] == done;
    }
  }

  /** After `k` results the pending list holds the rows that failed so far, then the rows not yet seen. */
  lemma {:induction false} PassStateFailures(rows: seq<Row>, outcomes: seq<bool>, k: nat)
    requires |outcomes| == |rows| && k <= |rows|
    ensures PassState(rows, outcomes, k) == Expected(rows, outcomes, k)
    decreases k
  {
    if k == 0 {
      assert rows[..0] == [] && rows[0..] == rows;
    } else {
      PassStateFailures(rows, outcomes, k - 1);
      PassStep(rows, outcomes, k - 1);
    }
  }

  /**
   * One pass of the `for success in pool.imap(download, rows)` loop, given
   * the outcomes in submission order. A success deletes `rows[i]`; a failure
   * advances `i`. `progress` holds the count printed after each result.
   */
  method DownloadPass(rows: seq<Row>, outcomes: seq<bool>, total: nat)
    returns (pending: seq<Row>, progress: seq<nat>)
    requires |outcomes| == |rows| <= total
    ensures pending == Failures(rows, outcomes)
    ensures progress == Progress(outcomes, total - |rows|)
  {
    pending := rows;
    progress := [];
    var i := 0;
    for k := 0 to |outcomes|
      invariant Cursor(pending, i) == PassState(rows, outcomes, k)
      invariant progress == Progress(outcomes[..k], total - |rows|)
    {
      ghost var before := Cursor(pending, i);
      PassStateNext(rows, outcomes, k);
      var row := pending[i];  // the source unpacks rows[i] here; the cursor is always in range
      if outcomes[k] {
        pending := pending[..i] + pending[i + 1..];
      } else {
        i := i + 1;
      }
      assert Cursor(pending, i) == Advance(before, outcomes[k]);
      var count: nat := total - |pending|;
      ProgressStep(outcomes, total - |rows|, k, count);
      progress := progress + [count];
    }
    PassStateFailures(rows, outcomes, |rows|);
    assert rows[..|rows|] == rows && outcomes[..|rows|] == outcomes;
  }

  /** Every download of a pass succeeded: nothing stays pending and the count reaches the total. */
  lemma {:induction false} AllSucceeded(rows: seq<Row>, outcomes: seq<bool>)
    requires |outcomes| == |rows|
    requires forall k :: 0 <= k < |outcomes| ==> outcomes[k]
    ensures Failures(rows, outcomes) == [] && Successes(outcomes) == |rows|
    decreases |rows|
  {
    if rows != [] {
      AllSucceeded(rows[..|rows| - 1], outcomes[..|rows| - 1]);
    }
  }

  /** Every download of a pass failed: the pending list is unchanged. */
  lemma {:induction false} AllFailed(rows: seq<Row>, outcomes: seq<bool>)
    requires |outcomes| == |rows|
    requires forall k :: 0 <= k < |outcomes| ==> !outcomes[k]
    ensures Failures(rows, outcomes) == rows
    decreases |rows|
  {
    if rows != [] {
      AllFailed(rows[..|rows| - 1], outcomes[..|rows| - 1]);
      assert rows == rows[..|rows| - 1] + [rows[|rows| - 1]];
    }
  }

  /** The outcomes of pass `pass`, when `(pass, r) in served` says whether downloading `r` then works. */
  function PassOutcomes(rows: seq<Row>, served: iset<(nat, Row)>, pass: nat): (o: seq<bool>)
    ensures |o| == |rows|
    ensures forall k :: 0 <= k < |rows| ==> o[k] == ((pass, rows[k]) in served)
  {
    seq(|rows|, k requires 0 <= k < |rows| => (pass, rows[k]) in served)
  }

  /** The pending list after `passes` passes of the `while rows:` loop. */
  function Pending(rows: seq<Row>, served: iset<(nat, Row)>, passes: nat): seq<Row>
  {
    if passes == 0 then rows
    else
      Pass(Pending(rows, served, passes - 1), served, passes - 1)
  }

  /** One more pass runs over the rows pending before it. */
  lemma PendingNext(rows: seq<Row>, served: iset<(nat, Row)>, pass: nat)
    ensures Pending(rows, served, pass + 1) == Pass(Pending(rows, served, pass), served, pass)
  {
  }

  /** The rows still pending after pass `pass` over `rows`. */
  function Pass(rows: seq<Row>, served: iset<(nat, Row)>, pass: nat): seq<Row>
  {
    Failures(rows, PassOutcomes(rows, served, pass))
  }

  /** When each outcome depends on the row alone, a row is kept exactly when its download failed. */
  lemma {:induction false} FailedInPass(rows: seq<Row>, served: iset<(nat, Row)>, pass: nat, r: Row)
    ensures r in Pass(rows, served, pass) <==> r in rows && (pass, r) !in served
    decreases |rows|
  {
    if rows != [] {
      var n := |rows| - 1;
      var outcomes := PassOutcomes(rows, served, pass);
      assert outcomes[..n] == PassOutcomes(rows[..n], served, pass);
      assert rows == rows[..n] + [rows[n]];
      FailedInPass(rows[..n], served, pass, r);
    }
  }

  /** The download of `r` failed in each of the first `passes` passes. */
  ghost predicate FailedEveryPass(served: iset<(nat, Row)>, r: Row, passes: nat)
  {
    forall p: nat :: p < passes ==> (p, r) !in served
  }

  lemma FailedEveryPassStep(served: iset<(nat, Row)>, r: Row, pass: nat)
    ensures FailedEveryPass(served, r, pass + 1) <==>
      FailedEveryPass(served, r, pass) && (pass, r) !in served
  {
  }

  /** A row is still pending after one more pass exactly when it was pending before and failed again. */
  lemma PendingStep(rows: seq<Row>, served: iset<(nat, Row)>, pass: nat, r: Row)
    ensures r in Pending(rows, served, pass + 1) <==>
      r in Pending(rows, served, pass) && (pass, r) !in served
  {
    PendingNext(rows, served, pass);
    FailedInPass(Pending(rows, served, pass), served, pass, r);
  }

  /** A row is still pending after some passes exactly when it failed in every one of them. */
  lemma {:induction false} PendingExactly(rows: seq<Row>, served: iset<(nat, Row)>, passes: nat, r: Row)
    ensures r in Pending(rows, served, passes) <==> r in rows && FailedEveryPass(served, r, passes)
    decreases passes
  {
    if passes > 0 {
      var pass := passes - 1;
      PendingExactly(rows, served, pass, r);
      PendingStep(rows, served, pass, r);
      FailedEveryPassStep(served, r, pass);
      assert pass + 1 == passes;
    } else {
      assert Pending(rows, served, 0) == rows;
      assert FailedEveryPass(served, r, 0);
    }
  }

  /** A row that always fails is never dropped: without a bound the source retries forever. */
  lemma {:induction false} AlwaysFailing(rows: seq<Row>, served: iset<(nat, Row)>, passes: nat)
    requires forall p, r :: (p, r) !in served
    ensures Pending(rows, served, passes) == rows
    decreases passes
  {
    if passes > 0 {
      AlwaysFailing(rows, served, passes - 1);
      AllFailed(rows, PassOutcomes(rows, served, passes - 1));
    }
  }

  /**
   * `download_all` after the rows are listed: passes run while rows are
   * pending, at most `fuel` of them. `progress` is every count printed.
   */
  method DownloadAll(rows: seq<Row>, served: iset<(nat, Row)>, fuel: nat)
    returns (pending: seq<Row>, passes: nat, progress: seq<nat>)
    ensures passes <= fuel
    ensures pending == [] || passes == fuel
    ensures pending == Pending(rows, served, passes)
    ensures Rising(progress, 0, |rows| - |pending|)
  {
    var total := |rows|;
    pending, passes, progress := rows, 0, [];
    while pending != [] && passes < fuel
      invariant passes <= fuel
      invariant pending == Pending(rows, served, passes)
      invariant |pending| <= total
      invariant Rising(progress, 0, total - |pending|)
      decreases fuel - passes
    {
      var outcomes := PassOutcomes(pending, served, passes);
      var log;
      ghost var before := pending;
      PendingNext(rows, served, passes);
      pending, log := DownloadPass(pending, outcomes, total);
      ProgressRising(outcomes, total - |before|);
      FailuresCount(before, outcomes);
      RisingAppend(progress, log, 0, total - |before|, total - |pending|);
      progress := progress + log;
      passes := passes + 1;
    }
  }
}
