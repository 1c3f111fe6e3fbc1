/**
 The report formatter `format_stats_message` (app/main.py:82-104).

 The message is modelled as the structured value it renders: either the fixed
 "no data" text, or a header carrying the date period followed by one block
 per operator, in table order. Each block holds the values its lines print;
 the two floating-point figures are kept as exact fractions.
 */
module Formatter {
  import opened Wrappers
  import opened Calls
  import opened Counters
  import opened Aggregator

  /** The exact value `num / den` of a float the source prints with `:.1f`. */
  datatype Ratio = Ratio(num: int, den: nat)

  /** The lines printed for one operator (app/main.py:96-102). */
  datatype OperatorBlock = OperatorBlock(
    name: string,
    totalCalls: nat,
    successfulCalls: nat,
    successRate: Ratio,
    totalMinutes: int,
    avgDuration: Ratio,
    outgoing: nat,
    incoming: nat)

  /** `NoData` is the fixed "no call data for the period" text; `Summary` the header and blocks. */
  datatype Message = NoData | Summary(period: string, blocks: seq<OperatorBlock>)

  /** The block printed for an operator with at least one call. */
  function BlockOf(s: OperatorStats): (b: OperatorBlock)
    requires s.totalCalls > 0
    ensures b.name == s.name && b.totalCalls == s.totalCalls && b.successfulCalls == s.successfulCalls
    ensures b.totalMinutes * 60 <= s.totalDuration < b.totalMinutes * 60 + 60
    ensures b.successRate.den > 0 && b.successRate.num * s.totalCalls == 100 * s.successfulCalls * b.successRate.den
    ensures s.successfulCalls <= s.totalCalls ==> 0 <= b.successRate.num <= 100 * b.successRate.den
    ensures b.avgDuration.den == s.totalCalls && b.avgDuration.num == s.totalDuration
    ensures b.outgoing == (if "outgoing" in s.callTypes then s.callTypes["outgoing"] else 0)
    ensures b.incoming == (if "incoming" in s.callTypes then s.callTypes["incoming"] else 0)
  {
    OperatorBlock(
      s.name,
      s.totalCalls,
      s.successfulCalls,
      Ratio(s.successfulCalls * 100, s.totalCalls),
      s.totalDuration / 60,
      Ratio(s.totalDuration, s.totalCalls),
      Count(s.callTypes, "outgoing"),
      Count(s.callTypes, "incoming"))
  }

  /** The ids among `ks` whose entries are printed: those with at least one call, in order. */
  function ShownIds(entries: map<UserId, OperatorStats>, ks: seq<UserId>): seq<UserId>
    decreases |ks|
  {
    if ks == [] then []
    else
      var k := ks[|ks| - 1];
      ShownIds(entries, ks[..|ks| - 1])
      + (if k in entries && entries[k].totalCalls > 0 then [k] else [])
  }

  /** The blocks printed for the ids `ks`, in order, skipping operators with no calls. */
  function ShownBlocks(entries: map<UserId, OperatorStats>, ks: seq<UserId>): seq<OperatorBlock>
    requires forall i :: 0 <= i < |ks| ==> ks[i] in entries
    decreases |ks|
  {
    if ks == [] then []
    else
      var k := ks[|ks| - 1];
      ShownBlocks(entries, ks[..|ks| - 1])
      + (if entries[k].totalCalls > 0 then [BlockOf(entries[k])] else [])
  }

  /** The message the formatter produces for `table`. */
  function StatsMessage(table: OperatorTable, datePeriod: string): Message
    requires forall i :: 0 <= i < |table.order| ==> table.order[i] in table.entries
  {
    if table.entries == map[] then NoData
    else Summary(datePeriod, ShownBlocks(table.entries, table.order))
  }

  /**
   `format_stats_message`: the fixed "no data" message exactly when the
   table is empty; otherwise the header for `datePeriod` and one block per
   operator with at least one call, appended in the table's order.
   */
  method FormatStatsMessage(table: OperatorTable, datePeriod: string) returns (message: Message)
    requires WellFormed(table)
    ensures message.NoData? <==> table.entries == map[]
    ensures message == StatsMessage(table, datePeriod)
    ensures message.Summary? ==> forall i :: 0 <= i < |message.blocks| ==> message.blocks[i].totalCalls > 0
  {
    if table.entries == map[] {
      return NoData;
    }
    message := Summary(datePeriod, []);
    for i := 0 to |table.order|
      invariant message == Summary(datePeriod, ShownBlocks(table.entries, table.order[..i]))
    {
      assert table.order[..i + 1][..i] == table.order[..i];
      var stats := table.entries[table.order[i]];
      if stats.totalCalls == 0 {
        continue;
      }
      message := message.(blocks := message.blocks + [BlockOf(stats)]);
    }
    assert table.order[..|table.order|] == table.order;
    ShownBlocksAreBlocksOfShownIds(table.entries, table.order);
  }

  // ---------------------------------------------------------------------------
  // Which operators are printed, and what their blocks say.
  // ---------------------------------------------------------------------------

  /** An id is printed iff it is in `ks` and its entry has a call; no id is printed twice. */
  lemma {:induction false} ShownIdsExactly(entries: map<UserId, OperatorStats>, ks: seq<UserId>)
    requires forall i, j :: 0 <= i < j < |ks| ==> ks[i] != ks[j]
    ensures forall k :: k in ShownIds(entries, ks) <==> k in ks && k in entries && entries[k].totalCalls > 0
    ensures forall i, j :: 0 <= i < j < |ShownIds(entries, ks)| ==> ShownIds(entries, ks)[i] != ShownIds(entries, ks)[j]
    decreases |ks|
  {
    if ks != [] {
      var init, k := ks[..|ks| - 1], ks[|ks| - 1];
      ShownIdsExactly(entries, init);
      assert k !in init;
      assert forall x :: x in ks <==> x in init || x == k;
    }
  }

  /** The i-th printed block is the block of the i-th printed id. */
  lemma {:induction false} ShownBlocksAreBlocksOfShownIds(entries: map<UserId, OperatorStats>, ks: seq<UserId>)
    requires forall i :: 0 <= i < |ks| ==> ks[i] in entries
    ensures |ShownBlocks(entries, ks)| == |ShownIds(entries, ks)|
    ensures forall i :: 0 <= i < |ShownIds(entries, ks)| ==>
              ShownIds(entries, ks)[i] in entries
              && entries[ShownIds(entries, ks)[i]].totalCalls > 0
              && ShownBlocks(entries, ks)[i] == BlockOf(entries[ShownIds(entries, ks)[i]])
    decreases |ks|
  {
    if ks != [] {
      ShownBlocksAreBlocksOfShownIds(entries, ks[..|ks| - 1]);
    }
  }

  /** For a table built by the aggregator, no operator is skipped: every id is printed, in order. */
  lemma {:induction false} AggregatedTableShowsAll(calls: seq<CallRecord>)
    ensures ShownIds(Fold(calls).entries, Fold(calls).order) == Fold(calls).order
  {
    var t := Fold(calls);
    FoldWellFormed(calls);
    FoldConsistent(calls);
    ShownIdsOfCalledOperators(t.entries, t.order);
  }

  /** When every listed id has an entry with a call, all of them are printed. */
  lemma {:induction false} ShownIdsOfCalledOperators(entries: map<UserId, OperatorStats>, ks: seq<UserId>)
    requires forall i :: 0 <= i < |ks| ==> ks[i] in entries && entries[ks[i]].totalCalls > 0
    ensures ShownIds(entries, ks) == ks
    decreases |ks|
  {
    if ks != [] {
      ShownIdsOfCalledOperators(entries, ks[..|ks| - 1]);
      assert ks[..|ks| - 1] + [ks[|ks| - 1]] == ks;
    }
  }

  /** Block `b` prints what operator records `rs` add up to. */
  ghost predicate ShowsRecords(b: OperatorBlock, rs: seq<CallRecord>) {
    && b.totalCalls == |rs| > 0
    && b.name == NameOf(rs[|rs| - 1])
    && b.successfulCalls == SuccessCount(rs) <= |rs|
    && b.successRate == Ratio(100 * SuccessCount(rs), |rs|)
    && b.totalMinutes == DurationSum(rs) / 60
    && b.avgDuration == Ratio(DurationSum(rs), |rs|)
    && b.outgoing == TypeCount(rs, "outgoing")
    && b.incoming == TypeCount(rs, "incoming")
  }

  /** The aggregated table is empty iff no record has a truthy user id. */
  lemma {:induction false} EmptyIffNothingCounted(calls: seq<CallRecord>)
    ensures Fold(calls).entries == map[] <==> forall i :: 0 <= i < |calls| ==> !Counted(calls[i])
  {
    var table := Fold(calls);
    if forall i :: 0 <= i < |calls| ==> !Counted(calls[i]) {
      forall id ensures id !in table.entries {
        FoldIsSummary(calls, id);
        RecordsOfNonEmpty(calls, id);
      }
    } else {
      var i :| 0 <= i < |calls| && Counted(calls[i]);
      var id := calls[i].userId.value;
      FoldIsSummary(calls, id);
      RecordsOfNonEmpty(calls, id);
      assert id in table.entries;
    }
  }

  /** The block printed for an operator of the aggregated table shows what its records add up to. */
  lemma BlockShowsRecords(calls: seq<CallRecord>, id: UserId)
    requires id in Fold(calls).entries
    ensures Fold(calls).entries[id].totalCalls > 0
    ensures ShowsRecords(BlockOf(Fold(calls).entries[id]), RecordsOf(calls, id))
  {
    var rs := RecordsOf(calls, id);
    FoldIsSummary(calls, id);
    FoldConsistent(calls);
    CountTypeCounts(rs, "outgoing");
    CountTypeCounts(rs, "incoming");
  }

  /**
   The daily report, end to end: the message is "no data" iff no record has a
   truthy user id; otherwise the i-th block belongs to the i-th operator in
   first-seen order and shows what that operator's records add up to.
   */
  lemma DailyReport(report: Option<ReportData>, datePeriod: string)
    ensures WellFormed(Fold(RecordsIn(report)))
    ensures (StatsMessage(Fold(RecordsIn(report)), datePeriod).NoData?
             <==> forall i :: 0 <= i < |RecordsIn(report)| ==> !Counted(RecordsIn(report)[i]))
    ensures var table := Fold(RecordsIn(report));
            var message := StatsMessage(table, datePeriod);
            message.Summary? ==>
              && message.period == datePeriod
              && |message.blocks| == |table.order|
              && forall i :: 0 <= i < |message.blocks| ==> ShowsRecords(message.blocks[i], RecordsOf(RecordsIn(report), table.order[i]))
  {
    var calls := RecordsIn(report);
    var table := Fold(calls);
    FoldWellFormed(calls);
    EmptyIffNothingCounted(calls);
    var message := StatsMessage(table, datePeriod);
    if message.Summary? {
      AggregatedTableShowsAll(calls);
      ShownBlocksAreBlocksOfShownIds(table.entries, table.order);
      forall i | 0 <= i < |message.blocks|
        ensures ShowsRecords(message.blocks[i], RecordsOf(calls, table.order[i]))
      {
        BlockShowsRecords(calls, table.order[i]);
      }
    }
  }

  /**
   Two calls of operator 1, one successful (60 s, incoming) and one without a
   result group (30 s, outgoing): 2 calls, 1 success at 50 %, 1 whole minute
   of 90 seconds, one call of each direction.
   */
  lemma TwoCallsExample()
    ensures Fold([
              CallRecord(Some(IntId(1)), Some("A"), Some(60), Some("Успешно"), Some("incoming")),
              CallRecord(Some(IntId(1)), Some("A"), Some(30), None, Some("outgoing"))])
            == OperatorTable([IntId(1)], map[IntId(1) := OperatorStats("A", 2, 1, 90, map["incoming" := 1, "outgoing" := 1])])
    ensures StatsMessage(
              OperatorTable([IntId(1)], map[IntId(1) := OperatorStats("A", 2, 1, 90, map["incoming" := 1, "outgoing" := 1])]),
              "01.01.2025")
            == Summary("01.01.2025", [OperatorBlock("A", 2, 1, Ratio(100, 2), 1, Ratio(90, 2), 1, 1)])
  {
    var c1 := CallRecord(Some(IntId(1)), Some("A"), Some(60), Some("Успешно"), Some("incoming"));
    var c2 := CallRecord(Some(IntId(1)), Some("A"), Some(30), None, Some("outgoing"));
    assert "Успешно"[..|SuccessMarker|] == SuccessMarker;
    assert IsSuccess(c1);
    assert [c1, c2][..1] == [c1];
    assert [c1][..0] == [];
    assert Fold([c1]) == OperatorTable([IntId(1)], map[IntId(1) := OperatorStats("A", 1, 1, 60, map["incoming" := 1])]);
    var ks := [IntId(1)];
    assert ks[..0] == [];
  }
}
