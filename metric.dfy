/** `calculate_metric`: the 7-slot tally `[incorrect, correct, label0, ...,
    label4]` of a shard of scored rows, and the per-shard collection of those
    tallies in `evaluate`. */
module Metric {
  import opened Outcome
  import opened PyStr
  import Shard

  /** One scored row: the generated answer, the text whose presence in the
      answer makes the row correct, and the gold label. */
  datatype Row = Row(answer: string, expected: string, gold: int)

  /** The number of slots of the tally vector. */
  const Width: nat := 7

  function Zeros(): (v: seq<int>)
    ensures |v| == Width && forall j :: 0 <= j < Width ==> v[j] == 0
  {
    [0, 0, 0, 0, 0, 0, 0]
  }

  function Sum(v: seq<int>): int
  {
    if v == [] then 0 else Sum(v[..|v| - 1]) + v[|v| - 1]
  }

  /** Adding `d` to one slot adds `d` to the sum. */
  lemma {:induction false} SumUpdate(v: seq<int>, i: nat, d: int)
    requires i < |v|
    ensures Sum(v[i := v[i] + d]) == Sum(v) + d
  {
    var w := v[i := v[i] + d];
    var n := |v|;
    assert w[..n - 1] == if i < n - 1 then v[..n - 1][i := v[i] + d] else v[..n - 1];
    if i < n - 1 {
      SumUpdate(v[..n - 1], i, d);
    }
  }

  lemma {:induction false} SumZeros(v: seq<int>)
    requires forall j :: 0 <= j < |v| ==> v[j] == 0
    ensures Sum(v) == 0
  {
    if v != [] {
      SumZeros(v[..|v| - 1]);
    }
  }

  /** numpy's reading of index `j` on an axis of `Width` slots: an index
      from -Width to -1 counts from the end, any other outside index is an
      error. */
  function Slot(j: int): (r: Option<nat>)
    ensures r.Some? <==> -(Width as int) <= j < Width
    ensures r.Some? ==> r.value < Width && (r.value == j || r.value == j + Width)
  {
    if 0 <= j < Width then Some(j)
    else if -(Width as int) <= j < 0 then Some(j + Width)
    else None
  }

  /** 1 when the row is correct (`expected in answer`), 0 otherwise. */
  function Hit(row: Row): (r: nat)
    ensures r <= 1
    ensures r == 1 <==> exists j :: OccursAt(row.answer, row.expected, j)
  {
    ContainsIff(row.answer, row.expected);
    if Contains(row.answer, row.expected) then 1 else 0
  }

  /** One loop iteration on the vector `v`: add one to the slot of the row's
      correctness and one to slot `gold + 2`. */
  function Step(v: seq<int>, row: Row): (r: Result<seq<int>>)
    requires |v| == Width
    ensures r.Failure? <==> Slot(row.gold + 2).None?
    ensures r.Failure? ==> r.error == IndexError
    ensures r.Success? ==> |r.value| == Width && Sum(r.value) == Sum(v) + 2
    ensures r.Success? && 0 <= row.gold <= 4 ==>
      && r.value[0] + r.value[1] == v[0] + v[1] + 1
      && r.value[1] == v[1] + Hit(row)
      && (forall s :: 2 <= s < Width ==> r.value[s] == v[s] + (if s == row.gold + 2 then 1 else 0))
  {
    var h := Hit(row);
    var v1 := v[h := v[h] + 1];
    SumUpdate(v, h, 1);
    match Slot(row.gold + 2)
    case None => Failure(IndexError)
    case Some(s) =>
      SumUpdate(v1, s, 1);
      Success(v1[s := v1[s] + 1])
  }

  /** The vector one row leaves behind when it starts from a fresh zero
      vector, as every iteration of `calculate_metric` does. */
  function RowVector(row: Row): (r: Result<seq<int>>)
    ensures r.Success? ==> Sum(r.value) == 2
  {
    SumZeros(Zeros());
    Step(Zeros(), row)
  }

  /** The result of `calculate_metric` as written: the vector is re-created
      on every row, so a shard whose rows all index in range yields the
      vector of its last row only; a row whose slot is out of range stops
      the loop with IndexError; an empty shard never binds the vector. */
  function Tally(rows: seq<Row>): Result<seq<int>>
  {
    if |rows| == 0 then Failure(UnboundLocalError)
    else if |rows| > 1 && Tally(rows[..|rows| - 1]).Failure? then Tally(rows[..|rows| - 1])
    else RowVector(rows[|rows| - 1])
  }

  /** Once a prefix of the shard has failed, the whole shard fails alike. */
  lemma {:induction false} TallyFailurePersists(rows: seq<Row>, i: nat)
    requires 0 < i <= |rows| && Tally(rows[..i]).Failure?
    ensures Tally(rows) == Tally(rows[..i])
  {
    if i < |rows| {
      assert rows[..|rows| - 1][..i] == rows[..i];
      TallyFailurePersists(rows[..|rows| - 1], i);
    } else {
      assert rows[..i] == rows;
    }
  }

  /** `calculate_metric` over explicit rows. `v` is null until the first
      iteration binds it, as the Python name is unbound. */
  method CalculateMetric(rows: seq<Row>) returns (r: Result<seq<int>>)
    ensures r == Tally(rows)
  {
    var v: array?<int> := null;
    for i := 0 to |rows|
      invariant v == null <==> i == 0
      invariant v != null ==> v.Length == Width && Tally(rows[..i]) == Success(v[..])
    {
      v := new int[Width](_ => 0);
      assert v[..] == Zeros();
      var h := Hit(rows[i]);
      v[h] := v[h] + 1;
      var j := rows[i].gold + 2;
      assert rows[..i + 1][..i] == rows[..i];
      if j < -(Width as int) || j >= Width {
        TallyFailurePersists(rows, i + 1);
        return Failure(IndexError);
      }
      var s := if j < 0 then j + Width else j;
      v[s] := v[s] + 1;
    }
    if v == null {
      return Failure(UnboundLocalError);
    }
    assert rows[..|rows|] == rows;
    return Success(v[..]);
  }

  /** Every gold label names one of the five endings. */
  predicate LabelsInRange(rows: seq<Row>)
  {
    forall i :: 0 <= i < |rows| ==> 0 <= rows[i].gold <= 4
  }

  /** The shard fails exactly when it is empty or some row's slot is out of
      range. */
  lemma {:induction false} TallyFails(rows: seq<Row>)
    ensures Tally(rows).Failure? <==>
      rows == [] || exists i :: 0 <= i < |rows| && RowVector(rows[i]).Failure?
  {
    if |rows| > 1 {
      var init := rows[..|rows| - 1];
      TallyFails(init);
      if Tally(init).Failure? {
        var i :| 0 <= i < |init| && RowVector(init[i]).Failure?;
        assert rows[i] == init[i];
      } else if RowVector(rows[|rows| - 1]).Failure? {
      } else {
        forall i | 0 <= i < |rows| ensures RowVector(rows[i]).Success? {
          if i < |init| { assert rows[i] == init[i]; }
        }
      }
    }
  }

  /** With the labels in range, the tally of a shard is the vector of its
      last row alone: one of the two correctness slots and the slot of the
      last gold label hold 1, every other slot 0. */
  lemma {:induction false} TallyKeepsOnlyLastRow(rows: seq<Row>)
    requires rows != [] && LabelsInRange(rows)
    ensures Tally(rows) == RowVector(rows[|rows| - 1])
    ensures Tally(rows).Success?
    ensures Tally(rows).value[0] + Tally(rows).value[1] == 1
    ensures Tally(rows).value[1] == Hit(rows[|rows| - 1])
    ensures forall s :: 2 <= s < Width ==> Tally(rows).value[s] == if s == rows[|rows| - 1].gold + 2 then 1 else 0
  {
    if |rows| > 1 {
      TallyKeepsOnlyLastRow(rows[..|rows| - 1]);
    }
  }

  /** A shard of two or more rows is counted as a single answer: the
      correctness slots of its tally add up to 1, not to the row count. */
  lemma {:induction false} TallyUndercounts(rows: seq<Row>)
    requires |rows| >= 2 && LabelsInRange(rows)
    ensures Tally(rows).Success? && Tally(rows).value[0] + Tally(rows).value[1] < |rows|
  {
    TallyKeepsOnlyLastRow(rows);
  }

  /** The evidently intended tally: one vector for the whole shard, every
      row adding to it. */
  function Accumulate(rows: seq<Row>): Result<seq<int>>
  {
    if rows == [] then Success(Zeros())
    else
      match Accumulate(rows[..|rows| - 1])
      case Failure(e) => Failure(e)
      case Success(v) => if |v| == Width then Step(v, rows[|rows| - 1]) else Failure(IndexError)
  }

  function CountHits(rows: seq<Row>): nat
  {
    if rows == [] then 0 else CountHits(rows[..|rows| - 1]) + Hit(rows[|rows| - 1])
  }

  function CountGold(rows: seq<Row>, l: int): nat
  {
    if rows == [] then 0
    else CountGold(rows[..|rows| - 1], l) + (if rows[|rows| - 1].gold == l then 1 else 0)
  }

  /** With the labels in range the intended tally counts every row once as
      correct or incorrect, the correct ones in slot 1, and each label in
      its own slot; its slots add up to twice the row count. */
  lemma {:induction false} AccumulateCounts(rows: seq<Row>)
    requires LabelsInRange(rows)
    ensures Accumulate(rows).Success? && |Accumulate(rows).value| == Width
    ensures Accumulate(rows).value[0] + Accumulate(rows).value[1] == |rows|
    ensures Accumulate(rows).value[1] == CountHits(rows)
    ensures forall s :: 2 <= s < Width ==> Accumulate(rows).value[s] == CountGold(rows, s - 2)
    ensures Sum(Accumulate(rows).value) == 2 * |rows|
  {
    if rows == [] {
      SumZeros(Zeros());
    } else {
      AccumulateCounts(rows[..|rows| - 1]);
    }
  }

  /** The intended `calculate_metric`: the vector is created once, before
      the loop. */
  method AccumulateMetric(rows: seq<Row>) returns (r: Result<seq<int>>)
    ensures r == Accumulate(rows)
  {
    var v := new int[Width](_ => 0);
    assert v[..] == Zeros();
    for i := 0 to |rows|
      invariant Accumulate(rows[..i]) == Success(v[..])
    {
      assert rows[..i + 1][..i] == rows[..i];
      var h := Hit(rows[i]);
      v[h] := v[h] + 1;
      var j := rows[i].gold + 2;
      if j < -(Width as int) || j >= Width {
        AccumulateFailurePersists(rows, i + 1);
        return Failure(IndexError);
      }
      var s := if j < 0 then j + Width else j;
      v[s] := v[s] + 1;
    }
    assert rows[..|rows|] == rows;
    return Success(v[..]);
  }

  lemma {:induction false} AccumulateFailurePersists(rows: seq<Row>, i: nat)
    requires i <= |rows| && Accumulate(rows[..i]).Failure?
    ensures Accumulate(rows) == Accumulate(rows[..i])
  {
    if i < |rows| {
      assert rows[..|rows| - 1][..i] == rows[..i];
      AccumulateFailurePersists(rows[..|rows| - 1], i);
    } else {
      assert rows[..i] == rows;
    }
  }

  /** Slots 0 and 1 summed over all collected tallies: the number of
      answers the tallies record, the intended `metrics[0] + metrics[1]`. */
  function Answered(results: seq<seq<int>>): int
  {
    if results == [] then 0
    else
      var v := results[|results| - 1];
      Answered(results[..|results| - 1]) + (if |v| >= 2 then v[0] + v[1] else 0)
  }

  /** When every tally records exactly one answer, the tallies together
      record as many answers as there are tallies. */
  lemma {:induction false} AnsweredCountsShards(results: seq<seq<int>>)
    requires forall j :: 0 <= j < |results| ==> |results[j]| == Width && results[j][0] + results[j][1] == 1
    ensures Answered(results) == |results|
  {
    if results != [] {
      AnsweredCountsShards(results[..|results| - 1]);
    }
  }

  /** The metric pass of `evaluate` without the remote calls: split the
      scored rows among `numGpus` workers, tally each shard and collect the
      tallies in shard order. With the labels in range every tally records
      exactly one answer, so slots 0 and 1 summed over the collected
      tallies give the number of shards, not the number of rows. */
  method CollectMetrics(rows: seq<Row>, numGpus: int) returns (r: Result<seq<seq<int>>>, ghost shards: seq<seq<Row>>)
    ensures numGpus == 0 ==> r == Failure(ZeroDivisionError)
    ensures numGpus != 0 && Shard.FloorDiv(|rows|, numGpus) == 0 ==> r == Failure(ValueError)
    ensures numGpus != 0 && Shard.FloorDiv(|rows|, numGpus) < 0 ==> r == Success([])
    ensures numGpus != 0 && Shard.FloorDiv(|rows|, numGpus) > 0 ==>
      && Shard.IsSharding(shards, rows, Shard.FloorDiv(|rows|, numGpus))
      && (r.Success? ==> |r.value| == |shards| && forall j :: 0 <= j < |shards| ==> Tally(shards[j]) == Success(r.value[j]))
      && (r.Failure? ==> exists j :: 0 <= j < |shards| && Tally(shards[j]) == Failure(r.error))
    ensures numGpus != 0 && Shard.FloorDiv(|rows|, numGpus) > 0 && LabelsInRange(rows) ==>
      r.Success? && Answered(r.value) == |r.value| == |shards|
  {
    shards := [];
    var split := Shard.Split(rows, numGpus);
    if split.Failure? {
      return Failure(split.error), shards;
    }
    var parts := split.value;
    shards := parts;
    var results: seq<seq<int>> := [];
    for j := 0 to |parts|
      invariant |results| == j
      invariant forall k :: 0 <= k < j ==> Tally(parts[k]) == Success(results[k])
    {
      var m := CalculateMetric(parts[j]);
      if m.Failure? {
        if Shard.FloorDiv(|rows|, numGpus) > 0 && LabelsInRange(rows) {
          ShardLabelsInRange(parts, rows, Shard.FloorDiv(|rows|, numGpus), j);
          TallyKeepsOnlyLastRow(parts[j]);
          assert false;
        }
        assert Tally(parts[j]) == Failure(m.error);
        return Failure(m.error), shards;
      }
      results := results + [m.value];
    }
    if numGpus != 0 && Shard.FloorDiv(|rows|, numGpus) > 0 && LabelsInRange(rows) {
      ShardsAnswerOnce(shards, rows, Shard.FloorDiv(|rows|, numGpus), results);
    }
    return Success(results), shards;
  }

  /** Tallied shard by shard, rows whose labels are in range give one
      answer per shard. */
  lemma ShardsAnswerOnce(shards: seq<seq<Row>>, rows: seq<Row>, c: nat, results: seq<seq<int>>)
    requires Shard.IsSharding(shards, rows, c) && LabelsInRange(rows) && c > 0
    requires |results| == |shards| && forall k :: 0 <= k < |shards| ==> Tally(shards[k]) == Success(results[k])
    ensures Answered(results) == |results|
  {
    forall k | 0 <= k < |shards|
      ensures |results[k]| == Width && results[k][0] + results[k][1] == 1
    {
      ShardLabelsInRange(shards, rows, c, k);
      TallyKeepsOnlyLastRow(shards[k]);
    }
    AnsweredCountsShards(results);
  }

  /** A shard of rows whose labels are in range is non-empty and has its
      labels in range. */
  lemma ShardLabelsInRange(shards: seq<seq<Row>>, rows: seq<Row>, c: nat, k: nat)
    requires Shard.IsSharding(shards, rows, c) && LabelsInRange(rows) && k < |shards| && c > 0
    ensures shards[k] != [] && LabelsInRange(shards[k])
  {
    Shard.ShardAt(shards, rows, c, k);
    var lo := k * c;
    forall i | 0 <= i < |shards[k]| ensures 0 <= shards[k][i].gold <= 4 {
      assert shards[k][i] == rows[lo + i];
    }
  }
}
