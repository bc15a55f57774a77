/**
 * The Kerbal Alarm Clock store behind the console's alarm commands, and the
 * one-shot monitor that raises each alarm once and marks it "(TRIGGERED)".
 * Times are UT seconds; `Utils.GetUt` turns them into datetimes.
 */
module Alarms {
  import opened Wrappers
  import opened Text
  import opened PyDict
  import opened Utils
  import ConsoleApp

  /** An alarm as the store holds it: `id`, `name`, `notes` (the description) and trigger UT. */
  datatype Alarm = Alarm(id: string, name: string, description: string, time: int)

  /** What `_on_alarm_trigger` sends: the UT of the poll and the alarm as it was before the rename. */
  datatype Notification = Notification(at: int, alarm: Alarm)

  const TriggeredStr: string := "(TRIGGERED)"

  /** `Alarm.get_remaining_time`: trigger time minus the current time, both read as datetimes. */
  function RemainingTime(a: Alarm, now: int): (d: int)
    ensures d == GetUt(a.time) - GetUt(now)
    ensures d <= 0 <==> a.time <= now
  {
    a.time - now
  }

  /** `Alarm.update_name`: only the name changes. */
  function UpdateName(a: Alarm, value: string): (b: Alarm)
    ensures b.name == value && b.id == a.id && b.description == a.description && b.time == a.time
  {
    a.(name := value)
  }

  predicate UniqueIds(s: seq<Alarm>)
  {
    forall i, j :: 0 <= i < j < |s| ==> s[i].id != s[j].id
  }

  function Ids(s: seq<Alarm>): (ids: seq<string>)
    ensures |ids| == |s| && forall i :: 0 <= i < |s| ==> ids[i] == s[i].id
  {
    seq(|s|, i requires 0 <= i < |s| => s[i].id)
  }

  /** The dictionary `get_alarms` builds: alarms keyed by id, in store order. */
  function AsDict(s: seq<Alarm>): (d: Dict<string, Alarm>)
    ensures |d| == |s| && forall i :: 0 <= i < |s| ==> d[i] == (s[i].id, s[i])
    ensures Keys(d) == Ids(s)
  {
    seq(|s|, i requires 0 <= i < |s| => (s[i].id, s[i]))
  }

  // ------------------------------------------------------------- one poll

  /** The condition checked for each alarm by one pass of `monitor_alarms`. */
  predicate Fires(a: Alarm, now: int)
  {
    RemainingTime(a, now) <= 0 && !Contains(a.name, TriggeredStr)
  }

  /** What one pass does to one alarm: a firing alarm gets " (TRIGGERED)" appended to its name. */
  function Step(a: Alarm, now: int): (b: Alarm)
    ensures b.id == a.id && b.time == a.time && b.description == a.description
    ensures Fires(a, now) ==> b.name == a.name + " " + TriggeredStr && Contains(b.name, TriggeredStr)
    ensures !Fires(a, now) ==> b == a
  {
    if Fires(a, now) then
      ContainsSuffix(a.name + " ", TriggeredStr);
      UpdateName(a, a.name + " " + TriggeredStr)
    else a
  }

  /** The store after one pass. */
  function Poll(s: seq<Alarm>, now: int): (r: seq<Alarm>)
    ensures |r| == |s| && forall i :: 0 <= i < |s| ==> r[i] == Step(s[i], now)
  {
    seq(|s|, i requires 0 <= i < |s| => Step(s[i], now))
  }

  /** The notifications of one pass, in store order. */
  function Alerts(s: seq<Alarm>, now: int): seq<Notification>
  {
    if |s| == 0 then []
    else
      var last := s[|s| - 1];
      Alerts(s[..|s| - 1], now) + (if Fires(last, now) then [Notification(now, last)] else [])
  }

  /** One pass notifies exactly the firing alarms, at the time of the poll. */
  lemma {:induction false} AlertsSpec(s: seq<Alarm>, now: int)
    ensures forall n :: n in Alerts(s, now) <==> n.at == now && n.alarm in s && Fires(n.alarm, now)
    ensures |Alerts(s, now)| <= |s|
  {
    if |s| > 0 {
      var init := s[..|s| - 1];
      AlertsSpec(init, now);
      assert s == init + [s[|s| - 1]];
      forall n ensures n in Alerts(s, now) <==> n.at == now && n.alarm in s && Fires(n.alarm, now) {
        if n.alarm in s && n.alarm !in init {
          assert n.alarm == s[|s| - 1];
        }
      }
    }
  }

  /** With unique ids in the store, no two notifications of one pass name the same alarm. */
  lemma {:induction false} AlertsDistinct(s: seq<Alarm>, now: int)
    requires UniqueIds(s)
    ensures forall p, q :: 0 <= p < q < |Alerts(s, now)| ==> Alerts(s, now)[p].alarm.id != Alerts(s, now)[q].alarm.id
  {
    if |s| > 0 {
      var init := s[..|s| - 1];
      var last := s[|s| - 1];
      AlertsDistinct(init, now);
      AlertsSpec(init, now);
      var a := Alerts(init, now);
      forall p, q | 0 <= p < q < |Alerts(s, now)|
        ensures Alerts(s, now)[p].alarm.id != Alerts(s, now)[q].alarm.id
      {
        if q >= |a| {
          assert Alerts(s, now)[q].alarm == last;
          assert a[p] in a;
          var j :| 0 <= j < |init| && init[j] == a[p].alarm;
          assert s[j] == init[j];
        }
      }
    }
  }

  // ------------------------------------------------ polls over time, per alarm

  /** One alarm after the passes made at the given clock readings, oldest first. */
  function AfterPolls(a: Alarm, readings: seq<int>): Alarm
  {
    if |readings| == 0 then a
    else Step(AfterPolls(a, readings[..|readings| - 1]), readings[|readings| - 1])
  }

  /** The alarm fires in the pass made at readings[k]. */
  predicate FiresAt(a: Alarm, readings: seq<int>, k: nat)
    requires k < |readings|
  {
    Fires(AfterPolls(a, readings[..k]), readings[k])
  }

  /** An alarm not yet reached by any reading is left as it was. */
  lemma {:induction false} Untouched(a: Alarm, readings: seq<int>)
    requires !Contains(a.name, TriggeredStr)
    requires forall j :: 0 <= j < |readings| ==> readings[j] < a.time
    ensures AfterPolls(a, readings) == a
  {
    if |readings| > 0 {
      Untouched(a, readings[..|readings| - 1]);
    }
  }

  /** An alarm whose name already says "(TRIGGERED)" is never changed. */
  lemma {:induction false} TriggeredStays(a: Alarm, readings: seq<int>)
    requires Contains(a.name, TriggeredStr)
    ensures AfterPolls(a, readings) == a
  {
    if |readings| > 0 {
      TriggeredStays(a, readings[..|readings| - 1]);
    }
  }

  /** An alarm still without the mark has never fired: it is unchanged and no reading reached it. */
  lemma {:induction false} NotYetMarked(a: Alarm, readings: seq<int>)
    requires !Contains(AfterPolls(a, readings).name, TriggeredStr)
    ensures AfterPolls(a, readings) == a
    ensures forall j :: 0 <= j < |readings| ==> readings[j] < a.time
  {
    if |readings| > 0 {
      var init := readings[..|readings| - 1];
      var b := AfterPolls(a, init);
      assert !Contains(b.name, TriggeredStr);
      NotYetMarked(a, init);
      assert !Fires(a, readings[|readings| - 1]);
    }
  }

  /**
   * The monitor fires an alarm in exactly one pass: the first whose clock reading has
   * reached the alarm's time, and only if its name was not already marked. The readings
   * need not increase.
   */
  lemma FiresAtIff(a: Alarm, readings: seq<int>, k: nat)
    requires k < |readings|
    ensures FiresAt(a, readings, k) <==>
      !Contains(a.name, TriggeredStr) && a.time <= readings[k]
      && forall j :: 0 <= j < k ==> readings[j] < a.time
  {
    var before := readings[..k];
    assert forall j :: 0 <= j < k ==> before[j] == readings[j];
    if FiresAt(a, readings, k) {
      NotYetMarked(a, before);
    }
    if !Contains(a.name, TriggeredStr) && forall j :: 0 <= j < k ==> readings[j] < a.time {
      Untouched(a, before);
    }
  }

  /** An alarm fires in at most one pass, whatever the clock does between passes. */
  lemma OneShot(a: Alarm, readings: seq<int>, j: nat, k: nat)
    requires j < |readings| && k < |readings|
    requires FiresAt(a, readings, j) && FiresAt(a, readings, k)
    ensures j == k
  {
    FiresAtIff(a, readings, j);
    FiresAtIff(a, readings, k);
  }

  /** An alarm created with "(TRIGGERED)" already in its name never fires. */
  lemma NeverFiresIfMarked(a: Alarm, readings: seq<int>, k: nat)
    requires k < |readings| && Contains(a.name, TriggeredStr)
    ensures !FiresAt(a, readings, k)
  {
    FiresAtIff(a, readings, k);
  }

  // ------------------------------------------------ polls over time, whole store

  /** The store after the passes made at the given readings. */
  function RunPolls(s: seq<Alarm>, readings: seq<int>): seq<Alarm>
  {
    if |readings| == 0 then s
    else Poll(RunPolls(s, readings[..|readings| - 1]), readings[|readings| - 1])
  }

  /** The notifications of all those passes, pass by pass. */
  function RunAlerts(s: seq<Alarm>, readings: seq<int>): seq<Notification>
  {
    if |readings| == 0 then []
    else
      var init := readings[..|readings| - 1];
      RunAlerts(s, init) + Alerts(RunPolls(s, init), readings[|readings| - 1])
  }

  /** Each alarm of the store evolves on its own; the store keeps its size, order, ids, times and notes. */
  lemma {:induction false} RunPollsPointwise(s: seq<Alarm>, readings: seq<int>)
    ensures |RunPolls(s, readings)| == |s|
    ensures forall i :: 0 <= i < |s| ==> RunPolls(s, readings)[i] == AfterPolls(s[i], readings)
  {
    if |readings| > 0 {
      RunPollsPointwise(s, readings[..|readings| - 1]);
    }
  }

  /** Ids, times and notes never change under polling, and ids stay unique. */
  lemma RunPollsKeeps(s: seq<Alarm>, readings: seq<int>)
    requires UniqueIds(s)
    ensures |RunPolls(s, readings)| == |s|
    ensures UniqueIds(RunPolls(s, readings))
    ensures forall i :: 0 <= i < |s| ==>
      var b := RunPolls(s, readings)[i];
      b.id == s[i].id && b.time == s[i].time && b.description == s[i].description
  {
    RunPollsPointwise(s, readings);
    forall i | 0 <= i < |s| ensures AfterPolls(s[i], readings).id == s[i].id
      && AfterPolls(s[i], readings).time == s[i].time
      && AfterPolls(s[i], readings).description == s[i].description
    {
      AfterPollsKeeps(s[i], readings);
    }
  }

  /**
   * The pass at readings[k] reports the i-th alarm exactly when that alarm fires then, so
   * `FiresAtIff` and `OneShot` describe what the monitor sends for every alarm of the store.
   */
  lemma RunAlertsPerAlarm(s: seq<Alarm>, readings: seq<int>, k: nat, i: nat)
    requires UniqueIds(s) && k < |readings| && i < |s|
    ensures (exists n :: n in Alerts(RunPolls(s, readings[..k]), readings[k]) && n.alarm.id == s[i].id)
        <==> FiresAt(s[i], readings, k)
  {
    var t := RunPolls(s, readings[..k]);
    RunPollsPointwise(s, readings[..k]);
    RunPollsKeeps(s, readings[..k]);
    AlertsSpec(t, readings[k]);
    if FiresAt(s[i], readings, k) {
      assert Notification(readings[k], t[i]) in Alerts(t, readings[k]);
    }
    forall n | n in Alerts(t, readings[k]) && n.alarm.id == s[i].id
      ensures FiresAt(s[i], readings, k)
    {
      var j :| 0 <= j < |t| && t[j] == n.alarm;
      assert j == i;
    }
  }

  /** Every notification of a run names an alarm of the store in a pass where that alarm fires. */
  lemma {:induction false} RunAlertsFrom(s: seq<Alarm>, readings: seq<int>, n: Notification)
    requires UniqueIds(s) && n in RunAlerts(s, readings)
    ensures exists k, i ::
              0 <= k < |readings| && 0 <= i < |s|
              && n.alarm.id == s[i].id && n.at == readings[k] && FiresAt(s[i], readings, k)
  {
    var last := |readings| - 1;
    var init := readings[..last];
    assert readings[..last] == init;
    if n in RunAlerts(s, init) {
      RunAlertsFrom(s, init, n);
      var k, i :| 0 <= k < |init| && 0 <= i < |s|
        && n.alarm.id == s[i].id && n.at == init[k] && FiresAt(s[i], init, k);
      assert init[..k] == readings[..k];
      assert FiresAt(s[i], readings, k);
    } else {
      var t := RunPolls(s, init);
      assert n in Alerts(t, readings[last]);
      AlertsSpec(t, readings[last]);
      RunPollsKeeps(s, init);
      var i :| 0 <= i < |t| && t[i] == n.alarm;
      RunAlertsPerAlarm(s, readings, last, i);
    }
  }

  /** A notification of an earlier pass and one of the latest pass name different alarms. */
  lemma LaterPassDistinct(s: seq<Alarm>, readings: seq<int>, early: Notification, late: Notification)
    requires UniqueIds(s) && |readings| > 0
    requires early in RunAlerts(s, readings[..|readings| - 1])
    requires late in Alerts(RunPolls(s, readings[..|readings| - 1]), readings[|readings| - 1])
    ensures early.alarm.id != late.alarm.id
  {
    var last := |readings| - 1;
    var init := readings[..last];
    var t := RunPolls(s, init);
    RunPollsKeeps(s, init);
    AlertsSpec(t, readings[last]);
    var i2 :| 0 <= i2 < |t| && t[i2] == late.alarm;
    RunAlertsPerAlarm(s, readings, last, i2);
    RunAlertsFrom(s, init, early);
    var k, i :| 0 <= k < |init| && 0 <= i < |s|
      && early.alarm.id == s[i].id && early.at == init[k] && FiresAt(s[i], init, k);
    assert init[..k] == readings[..k];
    assert FiresAt(s[i], readings, k);
    if early.alarm.id == late.alarm.id {
      assert i == i2;
      OneShot(s[i], readings, k, last);
    }
  }

  /**
   * Over a whole run of `monitor_alarms`, no two notifications name the same alarm: the
   * monitor sends at most one notification per alarm, whatever the clock does.
   */
  lemma {:induction false} RunAlertsDistinct(s: seq<Alarm>, readings: seq<int>)
    requires UniqueIds(s)
    ensures forall p, q :: 0 <= p < q < |RunAlerts(s, readings)| ==>
      RunAlerts(s, readings)[p].alarm.id != RunAlerts(s, readings)[q].alarm.id
  {
    if |readings| > 0 {
      var last := |readings| - 1;
      var init := readings[..last];
      var first := RunAlerts(s, init);
      var t := RunPolls(s, init);
      var now := Alerts(t, readings[last]);
      var all := RunAlerts(s, readings);
      assert all == first + now;
      RunAlertsDistinct(s, init);
      RunPollsKeeps(s, init);
      AlertsDistinct(t, readings[last]);
      forall p, q | 0 <= p < q < |all| ensures all[p].alarm.id != all[q].alarm.id {
        if p < |first| <= q {
          assert all[q] == now[q - |first|] && all[q] in now;
          assert all[p] == first[p] && all[p] in first;
          LaterPassDistinct(s, readings, all[p], all[q]);
        } else if q < |first| {
          assert all[p] == first[p] && all[q] == first[q];
        } else {
          assert all[p] == now[p - |first|] && all[q] == now[q - |first|];
        }
      }
    }
  }

  lemma {:induction false} AfterPollsKeeps(a: Alarm, readings: seq<int>)
    ensures AfterPolls(a, readings).id == a.id && AfterPolls(a, readings).time == a.time
    ensures AfterPolls(a, readings).description == a.description
  {
    if |readings| > 0 {
      AfterPollsKeeps(a, readings[..|readings| - 1]);
    }
  }

  // ---------------------------------------------------------------- listing

  /** One entry of the `do_get_alarms` listing; `position` is the alarm's place in the store. */
  datatype Row = Row(position: nat, alarm: Alarm, remaining: int)

  /** What `do_get_alarms` prints: "No alarms set", or the entries sorted by remaining time. */
  datatype Listing = NoAlarms | Listed(rows: seq<Row>)

  function RowsOf(s: seq<Alarm>, now: int): (rows: seq<Row>)
    ensures |rows| == |s|
    ensures forall i :: 0 <= i < |s| ==> rows[i] == Row(i, s[i], RemainingTime(s[i], now))
  {
    seq(|s|, i requires 0 <= i < |s| => Row(i, s[i], RemainingTime(s[i], now)))
  }

  /** Row x goes before row y in a stable sort by remaining time. */
  predicate Before(x: Row, y: Row)
  {
    x.remaining < y.remaining || (x.remaining == y.remaining && x.position < y.position)
  }

  predicate StablySorted(rows: seq<Row>)
  {
    forall i, j :: 0 <= i < j < |rows| ==> Before(rows[i], rows[j])
  }

  /** Places x before the first row that does not have less remaining time. */
  function Insert(x: Row, rows: seq<Row>): (r: seq<Row>)
    ensures multiset(r) == multiset(rows) + multiset{x}
  {
    if |rows| == 0 then [x]
    else if x.remaining <= rows[0].remaining then [x] + rows
    else
      assert rows == [rows[0]] + rows[1..];
      [rows[0]] + Insert(x, rows[1..])
  }

  /** Python's `sorted(..., key=remaining)`, by insertion. */
  function SortRows(rows: seq<Row>): (r: seq<Row>)
    ensures multiset(r) == multiset(rows)
  {
    if |rows| == 0 then []
    else
      assert rows == [rows[0]] + rows[1..];
      Insert(rows[0], SortRows(rows[1..]))
  }

  lemma {:induction false} InsertSorted(x: Row, rows: seq<Row>)
    requires StablySorted(rows)
    requires forall y :: y in rows ==> x.position < y.position
    ensures StablySorted(Insert(x, rows))
  {
    if |rows| == 0 {
    } else if x.remaining <= rows[0].remaining {
      var r := [x] + rows;
      forall i, j | 0 <= i < j < |r| ensures Before(r[i], r[j]) {
        if i == 0 {
          assert r[j] == rows[j - 1] && r[j] in rows;
          if j > 1 {
            assert Before(rows[0], rows[j - 1]);
          }
        } else {
          assert r[i] == rows[i - 1] && r[j] == rows[j - 1];
        }
      }
    } else {
      var tail := rows[1..];
      assert StablySorted(tail) by {
        forall i, j | 0 <= i < j < |tail| ensures Before(tail[i], tail[j]) {
          assert tail[i] == rows[i + 1] && tail[j] == rows[j + 1];
        }
      }
      InsertSorted(x, tail);
      var t := Insert(x, tail);
      var r := [rows[0]] + t;
      forall i, j | 0 <= i < j < |r| ensures Before(r[i], r[j]) {
        if i == 0 {
          assert r[j] == t[j - 1];
          assert r[j] in multiset(t);
          if r[j] != x {
            assert r[j] in tail;
            var k :| 0 <= k < |tail| && tail[k] == r[j];
            assert Before(rows[0], rows[k + 1]);
          }
        } else {
          assert r[i] == t[i - 1] && r[j] == t[j - 1];
        }
      }
    }
  }

  /** With positions increasing along the input, the sort orders by remaining time, ties by position. */
  lemma {:induction false} SortRowsSorted(rows: seq<Row>)
    requires forall i, j :: 0 <= i < j < |rows| ==> rows[i].position < rows[j].position
    ensures StablySorted(SortRows(rows))
  {
    if |rows| > 0 {
      var tail := rows[1..];
      assert forall i, j :: 0 <= i < j < |tail| ==> tail[i].position < tail[j].position by {
        forall i, j | 0 <= i < j < |tail| ensures tail[i].position < tail[j].position {
          assert tail[i] == rows[i + 1] && tail[j] == rows[j + 1];
        }
      }
      SortRowsSorted(tail);
      forall y | y in SortRows(tail) ensures rows[0].position < y.position {
        assert y in multiset(SortRows(tail));
        assert y in tail;
      }
      InsertSorted(rows[0], SortRows(tail));
    }
  }

  /** `do_get_alarms`: the listing for the store at clock reading `now`. */
  function ListAlarms(s: seq<Alarm>, now: int): Listing
  {
    if |s| == 0 then NoAlarms else Listed(SortRows(RowsOf(s, now)))
  }

  /**
   * The listing is "No alarms set" exactly for an empty store; otherwise every alarm
   * appears once with its remaining time, ascending, ties in store order.
   */
  lemma ListAlarmsSpec(s: seq<Alarm>, now: int)
    ensures ListAlarms(s, now).NoAlarms? <==> |s| == 0
    ensures ListAlarms(s, now).Listed? ==>
      var rows := ListAlarms(s, now).rows;
      StablySorted(rows) && multiset(rows) == multiset(RowsOf(s, now)) && |rows| == |s|
  {
    if |s| > 0 {
      SortRowsSorted(RowsOf(s, now));
      assert |multiset(SortRows(RowsOf(s, now)))| == |multiset(RowsOf(s, now))|;
    }
  }

  // ------------------------------------------------------------- the manager

  /** `AlarmManager`: the Kerbal Alarm Clock's alarm list, in the clock's order. */
  class AlarmManager {
    var alarms: seq<Alarm>

    /** The alarm clock hands out a distinct id for every alarm. */
    predicate Valid()
      reads this
    {
      UniqueIds(alarms)
    }

    /** `__init__`: clears the alarm clock only when `remove_alarms_on_init` is set. */
    constructor (existing: seq<Alarm>, removeAlarmsOnInit: bool)
      requires UniqueIds(existing)
      ensures Valid()
      ensures alarms == if removeAlarmsOnInit then [] else existing
    {
      alarms := existing;
      new;
      if removeAlarmsOnInit {
        RemoveAllAlarms();
      }
    }

    /** `_remove_all_alarms`: removes every alarm of a snapshot of the list, one at a time. */
    method RemoveAllAlarms()
      requires Valid()
      modifies this
      ensures Valid() && alarms == []
    {
      var snapshot := alarms;
      var i := 0;
      while i < |snapshot|
        invariant i <= |snapshot| && alarms == snapshot[i..]
      {
        alarms := RemoveId(alarms, snapshot[i].id);
        i := i + 1;
      }
    }

    /** `get_alarms`: the store as a dictionary keyed by alarm id. */
    method GetAlarms() returns (d: Dict<string, Alarm>)
      requires Valid()
      ensures d == AsDict(alarms) && UniqueKeys(d)
    {
      d := [];
      var i := 0;
      while i < |alarms|
        invariant i <= |alarms| && d == AsDict(alarms[..i])
      {
        assert alarms[i].id !in Keys(d) by {
          assert forall k :: 0 <= k < i ==> Keys(d)[k] == alarms[k].id;
        }
        d := Put(d, alarms[i].id, alarms[i]);
        assert alarms[..i + 1] == alarms[..i] + [alarms[i]];
        i := i + 1;
      }
      assert alarms[..i] == alarms;
    }

    /** `do_get_alarms` at clock reading `now`. */
    method DoGetAlarms(now: int) returns (out: Listing)
      requires Valid()
      ensures out == ListAlarms(alarms, now)
    {
      var d := GetAlarms();
      if |d| == 0 {
        return NoAlarms;
      }
      var rows := seq(|d|, i requires 0 <= i < |d| => Row(i, d[i].1, RemainingTime(d[i].1, now)));
      assert rows == RowsOf(alarms, now);
      out := Listed(SortRows(rows));
    }

    /**
     * `add_alarm`: refuses a name equal to an existing alarm's id (the keys of
     * `get_alarms`); otherwise adds one alarm at UT `time - epoch`, with notes "" when no
     * description is given. `newId` is the id the alarm clock assigns.
     */
    method AddAlarm(name: string, time: DateTime, description: Option<string>, newId: string)
      returns (r: Result<Alarm, string>)
      requires Valid() && newId !in Ids(alarms)
      modifies this
      ensures Valid()
      ensures name in Ids(old(alarms)) ==> r == Err(DuplicateMessage(name)) && alarms == old(alarms)
      ensures name !in Ids(old(alarms)) ==>
        r.Ok? && alarms == old(alarms) + [r.value]
        && r.value == Alarm(newId, name, description.GetOr(""), UtOf(time))
        && GetUt(r.value.time) == time
    {
      var d := GetAlarms();
      if name in Keys(d) {
        return Err(DuplicateMessage(name));
      }
      var ut := UtOf(time);
      var alarm := Alarm(newId, name, description.GetOr(""), ut);
      alarms := alarms + [alarm];
      r := Ok(alarm);
    }

    /**
     * `do_add_alarm`: an unparseable time is refused with an error line and nothing is
     * created; otherwise `add_alarm` decides. `r` is the outcome and `writes` the console
     * calls made. A refused name hands the ValueError object itself to `perror`; a new
     * alarm is reported with `poutput`. `parse` stands for `strptime` with the format
     * YYYY-MM-DDTHH:MM:SS, and `render` for the alarm's JSON dump.
     */
    method DoAddAlarm(name: string, timeText: string, description: Option<string>,
                      parse: string -> Option<DateTime>, newId: string, render: Alarm -> string)
      returns (r: Result<Alarm, string>, writes: seq<ConsoleApp.Write>)
      requires Valid() && newId !in Ids(alarms)
      modifies this
      ensures Valid()
      ensures parse(timeText).None? ==>
        r == Err(TimeFormatMessage(timeText)) && alarms == old(alarms)
        && writes == [ConsoleApp.Stderr(TimeFormatMessage(timeText))]
      ensures parse(timeText).Some? && name in Ids(old(alarms)) ==>
        r == Err(DuplicateMessage(name)) && alarms == old(alarms)
        && writes == [ConsoleApp.StderrObject(DuplicateMessage(name))]
      ensures parse(timeText).Some? && name !in Ids(old(alarms)) ==>
        r.Ok? && alarms == old(alarms) + [r.value] && GetUt(r.value.time) == parse(timeText).value
        && writes == [ConsoleApp.Stdout("New alarm created:\n" + render(r.value), false)]
    {
      var time := parse(timeText);
      if time.None? {
        r := Err(TimeFormatMessage(timeText));
        writes := [ConsoleApp.Stderr(TimeFormatMessage(timeText))];
        return;
      }
      r := AddAlarm(name, time.value, description, newId);
      match r {
        case Err(e) => writes := [ConsoleApp.StderrObject(e)];
        case Ok(alarm) => writes := [ConsoleApp.Stdout("New alarm created:\n" + render(alarm), false)];
      }
    }

    /**
     * One pass of `monitor_alarms` at clock reading `now`: each firing alarm is reported,
     * as it was, and then renamed.
     */
    method MonitorPoll(now: int) returns (alerts: seq<Notification>)
      requires Valid()
      modifies this
      ensures Valid()
      ensures alarms == Poll(old(alarms), now)
      ensures alerts == Alerts(old(alarms), now)
    {
      var snapshot := GetAlarms();
      ghost var start := alarms;
      alerts := [];
      var i := 0;
      while i < |snapshot|
        invariant i <= |snapshot| == |start| == |alarms|
        invariant forall k :: 0 <= k < |start| ==> alarms[k] == if k < i then Step(start[k], now) else start[k]
        invariant alerts == Alerts(start[..i], now)
      {
        var alarm := snapshot[i].1;
        assert start[..i + 1][..i] == start[..i];
        if Fires(alarm, now) {
          alerts := alerts + [OnAlarmTrigger(alarm, now)];
          alarms := alarms[i := UpdateName(alarm, alarm.name + " " + TriggeredStr)];
        }
        i := i + 1;
      }
      assert start[..i] == start;
      assert UniqueIds(alarms) by {
        assert forall k :: 0 <= k < |alarms| ==> alarms[k].id == start[k].id;
      }
    }

    /** `monitor_alarms` over a finite run of clock readings, one pass per reading. */
    method MonitorAlarms(readings: seq<int>) returns (alerts: seq<Notification>)
      requires Valid()
      modifies this
      ensures Valid()
      ensures alarms == RunPolls(old(alarms), readings)
      ensures alerts == RunAlerts(old(alarms), readings)
    {
      ghost var start := alarms;
      alerts := [];
      var k := 0;
      while k < |readings|
        invariant k <= |readings| && Valid()
        invariant alarms == RunPolls(start, readings[..k])
        invariant alerts == RunAlerts(start, readings[..k])
      {
        var polled := MonitorPoll(readings[k]);
        alerts := alerts + polled;
        assert readings[..k + 1][..k] == readings[..k];
        k := k + 1;
      }
      assert readings[..k] == readings;
    }
  }

  /** The text of the ValueError `add_alarm` raises for a name already in use. */
  function DuplicateMessage(name: string): string
  {
    "An alarm with name '" + name + "' already exists"
  }

  function TimeFormatMessage(timeText: string): string
  {
    "Invalid time format '" + timeText + "'. Must be YYYY-MM-DDTHH:MM:SS."
  }

  /**
   * The controller sends `add_alarm` with a name already in use. `do_add_alarm` hands the
   * ValueError itself to `perror`, so the join in `get_output` raises: no reply is sent,
   * the error stays buffered, the receive thread ends and no later message is read.
   */
  lemma DuplicateNameEndsReceiving(s: ConsoleApp.State, data: Option<string>, name: string,
                                   run: Option<string> -> seq<ConsoleApp.Write>, d: ConsoleApp.Dashboard,
                                   ut: string, quiet: bool, rest: seq<ConsoleApp.Message>)
    requires s.receiving && run(data) == [ConsoleApp.StderrObject(DuplicateMessage(name))]
    ensures var m := ConsoleApp.Message(ConsoleApp.COMMAND, data);
      var r := ConsoleApp.Receive(s, m, run, d, ut, quiet);
      ConsoleApp.ReceiveAll(s, [m] + rest, run, d, ut, quiet) == r
      && !r.receiving && r.outbox == s.outbox
      && r.buffer == s.buffer + [ConsoleApp.Object(DuplicateMessage(name))]
  {
    var m := ConsoleApp.Message(ConsoleApp.COMMAND, data);
    var ws := run(data);
    assert ws[..0] == [];
    assert ConsoleApp.Buffered(ws, ut) == [ConsoleApp.Object(DuplicateMessage(name))];
    assert ConsoleApp.AlertsOf(ws) == [];
    var b := s.buffer + ConsoleApp.Buffered(ws, ut);
    assert b[|b| - 1].Object?;
    ConsoleApp.CommandReply(s, m, run, d, ut, quiet);
    ConsoleApp.LastMessageRead(s, m, rest, run, d, ut, quiet);
  }

  /** `_on_alarm_trigger`: the notification for the alarm as it stands. */
  function OnAlarmTrigger(a: Alarm, now: int): (n: Notification)
    ensures n.alarm == a && n.at == now
  {
    Notification(now, a)
  }

  /** Removes the alarm with the given id (`alarm_obj.remove()`). */
  function RemoveId(s: seq<Alarm>, id: string): (r: seq<Alarm>)
    ensures (forall k :: 0 <= k < |s| ==> s[k].id != id) ==> r == s
    ensures |s| > 0 && s[0].id == id && (forall k :: 1 <= k < |s| ==> s[k].id != id) ==> r == s[1..]
  {
    if |s| == 0 then []
    else if s[0].id == id then RemoveId(s[1..], id)
    else [s[0]] + RemoveId(s[1..], id)
  }
}
