/**
 The per-operator aggregation `calculate_operator_stats` (app/main.py:45-80):
 a fold of the call records into a table keyed by operator id.

 The table is a Python dict, which keeps its keys in insertion order and is
 iterated in that order by the formatter, so it is modelled as the sequence
 of keys in insertion order beside the map from key to entry.
 */
module Aggregator {
  import opened Wrappers
  import opened Calls
  import opened Counters

  /** One entry of the table. */
  datatype OperatorStats = OperatorStats(
    name: string,
    totalCalls: nat,
    successfulCalls: nat,
    totalDuration: int,
    callTypes: Counter)

  /** The entry the `defaultdict` factory creates on first access (app/main.py:47-53). */
  const NewOperator: OperatorStats := OperatorStats(UnknownName, 0, 0, 0, map[])

  /** An insertion-ordered dict from operator id to entry. */
  datatype OperatorTable = OperatorTable(order: seq<UserId>, entries: map<UserId, OperatorStats>)

  const EmptyTable: OperatorTable := OperatorTable([], map[])

  /** What every Python dict satisfies: each key listed once, in `order`, and nothing else. */
  ghost predicate WellFormed(t: OperatorTable) {
    && (forall i, j :: 0 <= i < j < |t.order| ==> t.order[i] != t.order[j])
    && (forall id :: id in t.entries <==> id in t.order)
  }

  /** How one counted record updates its operator's entry (app/main.py:67-78). */
  function Absorb(s: OperatorStats, c: CallRecord): OperatorStats {
    OperatorStats(
      NameOf(c),
      s.totalCalls + 1,
      s.successfulCalls + (if IsSuccess(c) then 1 else 0),
      s.totalDuration + DurationOf(c),
      Bump(s.callTypes, TypeOf(c)))
  }

  /** One iteration of the loop over `report_data['data']` (app/main.py:59-78). */
  function Step(t: OperatorTable, c: CallRecord): OperatorTable {
    if !Counted(c) then t
    else
      var id := c.userId.value;
      if id in t.entries then OperatorTable(t.order, t.entries[id := Absorb(t.entries[id], c)])
      else OperatorTable(t.order + [id], t.entries[id := Absorb(NewOperator, c)])
  }

  /** The table after the loop has consumed `calls`, in order. */
  function Fold(calls: seq<CallRecord>): OperatorTable
    decreases |calls|
  {
    if calls == [] then EmptyTable
    else Step(Fold(calls[..|calls| - 1]), calls[|calls| - 1])
  }

  // ---------------------------------------------------------------------------
  // The reference definition: each operator's entry summarises its own records.
  // ---------------------------------------------------------------------------

  /** The records counted for operator `id`, in input order. */
  function RecordsOf(calls: seq<CallRecord>, id: UserId): seq<CallRecord>
    decreases |calls|
  {
    if calls == [] then []
    else
      RecordsOf(calls[..|calls| - 1], id)
      + (if BelongsTo(calls[|calls| - 1], id) then [calls[|calls| - 1]] else [])
  }

  function SuccessCount(rs: seq<CallRecord>): nat
    decreases |rs|
  {
    if rs == [] then 0
    else SuccessCount(rs[..|rs| - 1]) + (if IsSuccess(rs[|rs| - 1]) then 1 else 0)
  }

  function DurationSum(rs: seq<CallRecord>): int
    decreases |rs|
  {
    if rs == [] then 0 else DurationSum(rs[..|rs| - 1]) + DurationOf(rs[|rs| - 1])
  }

  /** The number of records whose type code (defaulted) is `k`. */
  function TypeCount(rs: seq<CallRecord>, k: string): nat
    decreases |rs|
  {
    if rs == [] then 0
    else TypeCount(rs[..|rs| - 1], k) + (if TypeOf(rs[|rs| - 1]) == k then 1 else 0)
  }

  /** The type codes that occur in `rs`, each with its number of records. */
  function TypeCounts(rs: seq<CallRecord>): Counter {
    map k | k in (set r | r in rs :: TypeOf(r)) :: TypeCount(rs, k)
  }

  /** The entry an operator with records `rs` should have; no records gives the default entry. */
  function Summary(rs: seq<CallRecord>): OperatorStats {
    OperatorStats(
      if rs == [] then UnknownName else NameOf(rs[|rs| - 1]),
      |rs|,
      SuccessCount(rs),
      DurationSum(rs),
      TypeCounts(rs))
  }

  /** The entry invariant: successes never exceed calls, and the type counters add up to the calls. */
  ghost predicate Consistent(s: OperatorStats) {
    s.successfulCalls <= s.totalCalls && Total(s.callTypes) == s.totalCalls
  }

  // ---------------------------------------------------------------------------
  // The method, as the source runs it.
  // ---------------------------------------------------------------------------

  /**
   `calculate_operator_stats`: a missing response or one without `'data'`
   gives the empty table; otherwise every record with a truthy user id
   creates or updates its operator's entry.
   */
  method CalculateOperatorStats(report: Option<ReportData>) returns (table: OperatorTable)
    ensures table == Fold(RecordsIn(report))
    ensures WellFormed(table)
    ensures RecordsIn(report) == [] ==> table == EmptyTable
    ensures forall id :: id in table.entries <==> RecordsOf(RecordsIn(report), id) != []
    ensures forall id :: id in table.entries ==>
              table.entries[id] == Summary(RecordsOf(RecordsIn(report), id))
    ensures forall id :: id in table.entries ==>
              Consistent(table.entries[id]) && table.entries[id].totalCalls > 0
    ensures forall a, b, j ::
              (0 <= a < b < |table.order| && 0 <= j < |RecordsIn(report)| && BelongsTo(RecordsIn(report)[j], table.order[b]))
              ==> SeenBefore(RecordsIn(report), table.order[a], j)
  {
    table := EmptyTable;
    if report.None? || report.value.data.None? {
      return;
    }
    var calls := report.value.data.value;
    for i := 0 to |calls|
      invariant table == Fold(calls[..i])
    {
      assert calls[..i + 1][..i] == calls[..i];
      var call := calls[i];
      var userId := call.userId;
      var userName := call.userName.GetOr(UnknownName);
      if userId.None? || !Truthy(userId.value) {
        continue;
      }
      var id := userId.value;
      var operator := NewOperator;
      if id in table.entries {
        operator := table.entries[id];
      } else {
        table := table.(order := table.order + [id]);
      }
      operator := operator.(name := userName);
      operator := operator.(totalCalls := operator.totalCalls + 1);
      operator := operator.(totalDuration := operator.totalDuration + call.duration.GetOr(0));
      if call.resultTitle.Some? && Contains(call.resultTitle.value, SuccessMarker) {
        operator := operator.(successfulCalls := operator.successfulCalls + 1);
      }
      var callType := call.callTypeCode.GetOr(UnknownType);
      var seen := if callType in operator.callTypes then operator.callTypes[callType] else 0;
      operator := operator.(callTypes := operator.callTypes[callType := seen + 1]);
      table := table.(entries := table.entries[id := operator]);
    }
    assert calls[..|calls|] == calls;
    FoldProperties(calls);
    FoldOrderFirstSeen(calls);
  }

  /** What the method promises about the fold, gathered for all operators at once. */
  lemma FoldProperties(calls: seq<CallRecord>)
    ensures WellFormed(Fold(calls))
    ensures forall id :: id in Fold(calls).entries <==> RecordsOf(calls, id) != []
    ensures forall id :: id in Fold(calls).entries ==>
              Fold(calls).entries[id] == Summary(RecordsOf(calls, id))
    ensures forall id :: id in Fold(calls).entries ==>
              Consistent(Fold(calls).entries[id]) && Fold(calls).entries[id].totalCalls > 0
  {
    FoldWellFormed(calls);
    FoldConsistent(calls);
    forall id ensures (id in Fold(calls).entries <==> RecordsOf(calls, id) != [])
      && (id in Fold(calls).entries ==> Fold(calls).entries[id] == Summary(RecordsOf(calls, id)))
    {
      FoldIsSummary(calls, id);
    }
  }

  // ---------------------------------------------------------------------------
  // Properties of the fold.
  // ---------------------------------------------------------------------------

  /** The fold builds a well-formed dict: each operator id is inserted once. */
  lemma {:induction false} FoldWellFormed(calls: seq<CallRecord>)
    ensures WellFormed(Fold(calls))
    decreases |calls|
  {
    if calls != [] {
      FoldWellFormed(calls[..|calls| - 1]);
    }
  }

  /** Some record before index `j` is counted for operator `id`. */
  ghost predicate SeenBefore(calls: seq<CallRecord>, id: UserId, j: int) {
    exists i :: 0 <= i < j && i < |calls| && BelongsTo(calls[i], id)
  }

  /** An operator is in the table iff some record is counted for it. */
  lemma {:induction false} InTableIffSeen(calls: seq<CallRecord>, id: UserId)
    ensures id in Fold(calls).entries <==> SeenBefore(calls, id, |calls|)
  {
    FoldIsSummary(calls, id);
    RecordsOfNonEmpty(calls, id);
  }

  /**
   The dict lists operators in the order of their first counted record: every
   record of a later-listed operator comes after some record of each
   earlier-listed one.
   */
  lemma {:induction false} FoldOrderFirstSeen(calls: seq<CallRecord>)
    ensures forall a, b, j ::
              (0 <= a < b < |Fold(calls).order| && 0 <= j < |calls| && BelongsTo(calls[j], Fold(calls).order[b]))
              ==> SeenBefore(calls, Fold(calls).order[a], j)
    decreases |calls|
  {
    if calls != [] {
      var init, c := calls[..|calls| - 1], calls[|calls| - 1];
      var t, o := Fold(init), Fold(calls).order;
      FoldOrderFirstSeen(init);
      FoldWellFormed(init);
      forall a, b, j | 0 <= a < b < |o| && 0 <= j < |calls| && BelongsTo(calls[j], o[b])
        ensures SeenBefore(calls, o[a], j)
      {
        assert o[a] == t.order[a];
        if j < |init| {
          assert init[j] == calls[j];
          InTableIffSeen(init, o[b]);
          assert o[b] == t.order[b];
          var i :| 0 <= i < j && i < |init| && BelongsTo(init[i], o[a]);
          assert calls[i] == init[i];
        } else {
          InTableIffSeen(init, o[a]);
          var i :| 0 <= i < |init| && BelongsTo(init[i], o[a]);
          assert calls[i] == init[i];
        }
      }
    }
  }

  /** Taking in one more record extends the summary of its own operator by that record. */
  lemma AbsorbSummary(rs: seq<CallRecord>, c: CallRecord)
    ensures Absorb(Summary(rs), c) == Summary(rs + [c])
  {
    var rs' := rs + [c];
    assert rs'[..|rs'| - 1] == rs;
    TypeCountsSnoc(rs, c);
  }

  /** The type counts of `rs + [c]` are those of `rs` with `c`'s type bumped. */
  lemma {:induction false} TypeCountsSnoc(rs: seq<CallRecord>, c: CallRecord)
    ensures TypeCounts(rs + [c]) == Bump(TypeCounts(rs), TypeOf(c))
  {
    var rs' := rs + [c];
    assert rs'[..|rs'| - 1] == rs;
    var a, b := TypeCounts(rs'), Bump(TypeCounts(rs), TypeOf(c));
    forall k ensures k in a <==> k in b {
      if k in b && k != TypeOf(c) {
        var r :| r in rs && TypeOf(r) == k;
        assert r in rs';
      }
      if k in a && k != TypeOf(c) {
        var r :| r in rs' && TypeOf(r) == k;
        assert r in rs;
      }
    }
    forall k | k in a ensures a[k] == b[k] {
      if k !in TypeCounts(rs) {
        TypeCountAbsent(rs, k);
      }
    }
  }

  /** A type code that no record carries has count zero. */
  lemma {:induction false} TypeCountAbsent(rs: seq<CallRecord>, k: string)
    requires forall r :: r in rs ==> TypeOf(r) != k
    ensures TypeCount(rs, k) == 0
    decreases |rs|
  {
    if rs != [] {
      TypeCountAbsent(rs[..|rs| - 1], k);
    }
  }

  /** `Count(TypeCounts(rs), k)`, i.e. `call_types.get(k, 0)`, is the number of records of type `k`. */
  lemma {:induction false} CountTypeCounts(rs: seq<CallRecord>, k: string)
    ensures Count(TypeCounts(rs), k) == TypeCount(rs, k)
  {
    if k !in TypeCounts(rs) {
      TypeCountAbsent(rs, k);
    }
  }

  /**
   The fold agrees with the reference definition: operator `id` has an entry
   iff some record is counted for it, and its entry summarises exactly those
   records (count, successes, summed durations, type counters, last name).
   */
  lemma {:induction false} FoldIsSummary(calls: seq<CallRecord>, id: UserId)
    ensures id in Fold(calls).entries <==> RecordsOf(calls, id) != []
    ensures id in Fold(calls).entries ==> Fold(calls).entries[id] == Summary(RecordsOf(calls, id))
    decreases |calls|
  {
    if calls != [] {
      var init, c := calls[..|calls| - 1], calls[|calls| - 1];
      FoldIsSummary(init, id);
      if BelongsTo(c, id) {
        var rs := RecordsOf(init, id);
        assert RecordsOf(calls, id) == rs + [c];
        if rs == [] {
          assert TypeCounts(rs) == map[];
          assert Summary(rs) == NewOperator;
        }
        AbsorbSummary(rs, c);
      } else {
        assert RecordsOf(calls, id) == RecordsOf(init, id) + [] == RecordsOf(init, id);
      }
    }
  }

  /** An operator's records are all of its counted records: the key set is the set of truthy ids seen. */
  lemma {:induction false} RecordsOfNonEmpty(calls: seq<CallRecord>, id: UserId)
    ensures RecordsOf(calls, id) != [] <==> exists i :: 0 <= i < |calls| && BelongsTo(calls[i], id)
    decreases |calls|
  {
    if calls != [] {
      var init := calls[..|calls| - 1];
      RecordsOfNonEmpty(init, id);
      if exists i :: 0 <= i < |init| && BelongsTo(init[i], id) {
        var i :| 0 <= i < |init| && BelongsTo(init[i], id);
        assert calls[i] == init[i];
      }
      if exists i :: 0 <= i < |calls| && BelongsTo(calls[i], id) {
        var i :| 0 <= i < |calls| && BelongsTo(calls[i], id);
        if i < |init| {
          assert init[i] == calls[i];
        }
      }
    }
  }

  /** Taking in a record keeps an entry consistent, and leaves it with at least one call. */
  lemma AbsorbConsistent(s: OperatorStats, c: CallRecord)
    requires Consistent(s)
    ensures Consistent(Absorb(s, c)) && Absorb(s, c).totalCalls > 0
  {
    TotalBump(s.callTypes, TypeOf(c));
  }

  /** Every entry of the table is consistent and has at least one call. */
  lemma {:induction false} FoldConsistent(calls: seq<CallRecord>)
    ensures forall id :: id in Fold(calls).entries ==>
              Consistent(Fold(calls).entries[id]) && Fold(calls).entries[id].totalCalls > 0
    decreases |calls|
  {
    if calls != [] {
      var init, c := calls[..|calls| - 1], calls[|calls| - 1];
      FoldConsistent(init);
      if Counted(c) {
        var t := Fold(init);
        if c.userId.value in t.entries {
          AbsorbConsistent(t.entries[c.userId.value], c);
        } else {
          AbsorbConsistent(NewOperator, c);
        }
      }
    }
  }

  /** A record without a truthy user id is skipped entirely, wherever it stands. */
  lemma {:induction false} SkippedRecordIsInert(before: seq<CallRecord>, c: CallRecord, after: seq<CallRecord>)
    requires !Counted(c)
    ensures Fold(before + [c] + after) == Fold(before + after)
    decreases |after|
  {
    if after == [] {
      assert before + [c] + after == before + [c];
      assert (before + [c])[..|before|] == before;
      assert before + after == before;
    } else {
      var init, last := after[..|after| - 1], after[|after| - 1];
      SkippedRecordIsInert(before, c, init);
      assert (before + [c] + after)[..|before + [c] + after| - 1] == before + [c] + init;
      assert (before + after)[..|before + after| - 1] == before + init;
    }
  }
}
