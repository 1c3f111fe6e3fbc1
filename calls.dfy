/**
 Call records as the telemetry API reports them, with the defaults the
 aggregator applies to their missing fields (app/main.py:58-78).
 */
module Calls {
  import opened Wrappers

  /** An operator id as it comes in the JSON: a number or a string. */
  datatype UserId = IntId(n: int) | StrId(s: string)

  /** Python truthiness of an id: `0` and `""` are falsy, every other id is truthy. */
  predicate Truthy(id: UserId) {
    match id
    case IntId(n) => n != 0
    case StrId(s) => s != ""
  }

  /**
   One call event. Every field may be missing:
   - `userId`, `userName`: `call['user']['id']` and `call['user']['name']`
     (a record without `user` has neither);
   - `duration`: `call['duration']`, in seconds;
   - `resultTitle`: `call['scenario_result_group']['title']`, `None` when the
     group is missing, empty, or has no title;
   - `callTypeCode`: `call['call_type_code']`, e.g. "incoming" or "outgoing".
   */
  datatype CallRecord = CallRecord(
    userId: Option<UserId>,
    userName: Option<string>,
    duration: Option<int>,
    resultTitle: Option<string>,
    callTypeCode: Option<string>)

  /** The decoded report response; `data` is `None` when the key `'data'` is absent. */
  datatype ReportData = ReportData(data: Option<seq<CallRecord>>)

  /** Placeholder name of an operator ("unknown" in Russian). */
  const UnknownName: string := "Неизвестно"
  /** Type code of a record without `call_type_code`. */
  const UnknownType: string := "unknown"
  /** Marker whose presence in the result-group title makes a call successful. */
  const SuccessMarker: string := "Успешн"

  /** The records the aggregator reads: none for a missing response or a missing `'data'` key. */
  function RecordsIn(report: Option<ReportData>): seq<CallRecord> {
    if report.Some? && report.value.data.Some? then report.value.data.value else []
  }

  /** A record is counted iff its user id is present and truthy. */
  predicate Counted(c: CallRecord) {
    c.userId.Some? && Truthy(c.userId.value)
  }

  /** The record is counted for operator `id`. */
  predicate BelongsTo(c: CallRecord, id: UserId) {
    c.userId == Some(id) && Truthy(id)
  }

  function NameOf(c: CallRecord): string {
    c.userName.GetOr(UnknownName)
  }

  function DurationOf(c: CallRecord): int {
    c.duration.GetOr(0)
  }

  function TypeOf(c: CallRecord): string {
    c.callTypeCode.GetOr(UnknownType)
  }

  predicate StartsWith(s: string, prefix: string) {
    |prefix| <= |s| && s[..|prefix|] == prefix
  }

  /** Python's substring test `sub in s`, scanning start positions left to right. */
  predicate Contains(s: string, sub: string)
    decreases |s|
  {
    StartsWith(s, sub) || (|s| > 0 && Contains(s[1..], sub))
  }

  /** `sub` occurs in `s` starting at index `i`. */
  ghost predicate OccursAt(s: string, sub: string, i: int) {
    0 <= i && i + |sub| <= |s| && s[i..i + |sub|] == sub
  }

  /** The scan finds `sub` exactly when it occurs somewhere in `s`. */
  lemma {:induction false} ContainsIffOccurs(s: string, sub: string)
    ensures Contains(s, sub) <==> exists i :: OccursAt(s, sub, i)
    decreases |s|
  {
    if |s| > 0 {
      ContainsIffOccurs(s[1..], sub);
    }
    if Contains(s, sub) {
      if StartsWith(s, sub) {
        assert OccursAt(s, sub, 0);
      } else {
        var i :| OccursAt(s[1..], sub, i);
        assert s[1..][i..i + |sub|] == s[i + 1..i + 1 + |sub|];
        assert OccursAt(s, sub, i + 1);
      }
    }
    if exists i :: OccursAt(s, sub, i) {
      var i :| OccursAt(s, sub, i);
      if i > 0 {
        assert s[1..][i - 1..i - 1 + |sub|] == s[i..i + |sub|];
        assert OccursAt(s[1..], sub, i - 1);
      }
    }
  }

  /** `result_group and 'Успешн' in result_group.get('title', '')`. */
  predicate IsSuccess(c: CallRecord) {
    c.resultTitle.Some? && Contains(c.resultTitle.value, SuccessMarker)
  }

  /**
   The match is case-sensitive: a title without a capital "У" never contains
   the marker, so it is never a success, whatever else it says.
   */
  lemma {:induction false} NoCapitalMarkerNoSuccess(title: string)
    requires forall i :: 0 <= i < |title| ==> title[i] != SuccessMarker[0]
    ensures !Contains(title, SuccessMarker)
  {
    forall i ensures !OccursAt(title, SuccessMarker, i) {
      if 0 <= i && i + |SuccessMarker| <= |title| {
        assert title[i..i + |SuccessMarker|][0] == title[i];
      }
    }
    ContainsIffOccurs(title, SuccessMarker);
  }

  /** For instance "Неуспешно" ("unsuccessful", with a lower-case "у") is not a success. */
  lemma MarkerIsCaseSensitive()
    ensures !Contains("Неуспешно", SuccessMarker)
  {
    var s := "Неуспешно";
    forall i | 0 <= i < |s| ensures s[i] != SuccessMarker[0] {
    }
    NoCapitalMarkerNoSuccess(s);
  }
}
