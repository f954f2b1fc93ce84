/**
 * The per-day and per-month totals that `dailyTotalsForMonth` and
 * `monthlyTotalsForYear` build, as functions of the session list, and what
 * they add up to.
 */
module Aggregates {
  import opened Wrappers
  import opened Document
  import opened Calendar

  /**
   * Which record entry a session is added to: its start day when it starts in
   * `month` of `year` in the local calendar `dayOf`, otherwise none.
   */
  function DayBucket(year: int, month: int, dayOf: Timestamp -> CalendarDate): Session -> Option<int> {
    (s: Session) => var d := dayOf(s.start); if d.year == year && d.month == month then Some(d.day) else None
  }

  /** Its start month when the session starts in `year`, otherwise none. */
  function MonthBucket(year: int, dayOf: Timestamp -> CalendarDate): Session -> Option<int> {
    (s: Session) => var d := dayOf(s.start); if d.year == year then Some(d.month) else None
  }

  /** `totals[key] = (totals[key] || 0) + amount`. */
  function AddTo(totals: map<int, int>, key: int, amount: int): map<int, int> {
    totals[key := (if key in totals then totals[key] else 0) + amount]
  }

  /** The record built by visiting the sessions front to back and adding each to its bucket. */
  function Totals(s: seq<Session>, bucket: Session -> Option<int>): map<int, int>
    decreases |s|
  {
    if s == [] then map[]
    else
      var last := s[|s| - 1];
      var before := Totals(s[..|s| - 1], bucket);
      match bucket(last)
      case None => before
      case Some(k) => AddTo(before, k, last.durationSec)
  }

  /** The seconds of the sessions that fall in bucket `k`. */
  function BucketTotal(s: seq<Session>, bucket: Session -> Option<int>, k: int): int
    decreases |s|
  {
    if s == [] then 0
    else
      var last := s[|s| - 1];
      BucketTotal(s[..|s| - 1], bucket, k) + (if bucket(last) == Some(k) then last.durationSec else 0)
  }

  /** The seconds of the sessions that fall in some bucket. */
  function MatchedTotal(s: seq<Session>, bucket: Session -> Option<int>): int
    decreases |s|
  {
    if s == [] then 0
    else
      var last := s[|s| - 1];
      MatchedTotal(s[..|s| - 1], bucket) + (if bucket(last).Some? then last.durationSec else 0)
  }

  lemma {:induction false} MinExists(keys: set<int>)
    requires exists x :: x in keys
    ensures exists k :: k in keys && forall j :: j in keys ==> k <= j
    decreases keys
  {
    var x :| x in keys;
    var rest := keys - {x};
    if exists y :: y in rest {
      MinExists(rest);
      var k :| k in rest && forall j :: j in rest ==> k <= j;
      var least := if x < k then x else k;
      forall j | j in keys ensures least <= j {
        if j != x { assert j in rest; }
      }
    } else {
      forall j | j in keys ensures x <= j {
        assert j !in rest;
      }
    }
  }

  /** The least key of a non-empty record. */
  function MinKey(m: map<int, int>): (k: int)
    requires exists k :: k in m
    ensures k in m && forall j :: j in m ==> k <= j
  {
    MinExists(m.Keys);
    var k :| k in m && forall j :: j in m ==> k <= j;
    k
  }

  /**
   * `Object.values(m).reduce((a, b) => a + b, 0)`: integer keys are visited in
   * ascending order.
   */
  function SumValues(m: map<int, int>): int
    decreases m.Keys
  {
    if exists k :: k in m then
      var k := MinKey(m);
      assert (m - {k}).Keys < m.Keys;
      m[k] + SumValues(m - {k})
    else 0
  }

  /** The sum does not depend on the order the keys are visited in: any key can be taken out first. */
  lemma {:induction false} SumValuesRemove(m: map<int, int>, k: int)
    requires k in m
    ensures SumValues(m) == m[k] + SumValues(m - {k})
    decreases m.Keys
  {
    var j := MinKey(m);
    assert (m - {j}).Keys < m.Keys;
    if j != k {
      SumValuesRemove(m - {j}, k);
      var mk := m - {k};
      assert j in mk.Keys;
      var jk := MinKey(mk);
      assert jk <= j && j <= jk;
      assert mk - {j} == m - {j} - {k};
    }
  }

  lemma SumValuesAddTo(m: map<int, int>, key: int, amount: int)
    ensures SumValues(AddTo(m, key, amount)) == SumValues(m) + amount
  {
    var m' := AddTo(m, key, amount);
    SumValuesRemove(m', key);
    assert m' - {key} == m - {key};
    if key in m {
      SumValuesRemove(m, key);
    } else {
      assert m - {key} == m;
    }
  }

  /** The record has an entry for `k` exactly when some session falls in bucket `k`. */
  lemma {:induction false} TotalsKeys(s: seq<Session>, bucket: Session -> Option<int>, k: int)
    ensures k in Totals(s, bucket) <==> exists i :: 0 <= i < |s| && bucket(s[i]) == Some(k)
    decreases |s|
  {
    if s != [] {
      var init := s[..|s| - 1];
      TotalsKeys(init, bucket, k);
      assert forall i :: 0 <= i < |init| ==> init[i] == s[i];
      if exists i :: 0 <= i < |s| && bucket(s[i]) == Some(k) {
        var i :| 0 <= i < |s| && bucket(s[i]) == Some(k);
        if i < |init| {
          assert bucket(init[i]) == Some(k);
        }
      }
    }
  }

  /** Each entry, with a missing entry read as 0, is the total of the sessions in its bucket. */
  lemma {:induction false} TotalsValue(s: seq<Session>, bucket: Session -> Option<int>, k: int)
    ensures (var t := Totals(s, bucket); if k in t then t[k] else 0) == BucketTotal(s, bucket, k)
    decreases |s|
  {
    if s != [] {
      TotalsValue(s[..|s| - 1], bucket, k);
    }
  }

  /** The entries add up to the total of all sessions that fall in some bucket. */
  lemma {:induction false} TotalsSum(s: seq<Session>, bucket: Session -> Option<int>)
    ensures SumValues(Totals(s, bucket)) == MatchedTotal(s, bucket)
    decreases |s|
  {
    if s != [] {
      var last := s[|s| - 1];
      TotalsSum(s[..|s| - 1], bucket);
      if bucket(last).Some? {
        SumValuesAddTo(Totals(s[..|s| - 1], bucket), bucket(last).value, last.durationSec);
      }
    }
  }

  /** A month's entry in the yearly record is the total of that month's daily record. */
  lemma {:induction false} MonthlyAgreesWithDaily(s: seq<Session>, year: int, month: int, dayOf: Timestamp -> CalendarDate)
    ensures BucketTotal(s, MonthBucket(year, dayOf), month) == MatchedTotal(s, DayBucket(year, month, dayOf))
    decreases |s|
  {
    if s != [] {
      MonthlyAgreesWithDaily(s[..|s| - 1], year, month, dayOf);
    }
  }
}
