/**
  Trading sessions on weekdays, and how long it is to the next one. Instants are microseconds since a Monday at
  midnight.
 */
module SessionFilter {
  import opened Wrappers

  const SECOND: int := 1000000
  const HOUR: int := 3600 * 1000000
  const DAY: int := 86400 * 1000000

  datatype Session = London | NewYork

  function Opens(s: Session): int {
    match s case London => 7 * HOUR case NewYork => 13 * HOUR
  }

  function Closes(s: Session): int {
    match s case London => 10 * HOUR case NewYork => 16 * HOUR
  }

  function DayOf(t: int): int {
    t / DAY
  }

  /** Monday is zero. */
  function Weekday(day: int): int {
    day % 7
  }

  function ActiveSession(t: int): Option<Session> {
    var time := t % DAY;
    if Weekday(DayOf(t)) >= 5 then None
    else if Opens(London) <= time < Closes(London) then Some(London)
    else if Opens(NewYork) <= time < Closes(NewYork) then Some(NewYork)
    else None
  }

  predicate Trading(t: int) {
    ActiveSession(t).Some?
  }

  /** `t` lies on a day from Monday to Friday, between these seconds of the day. */
  ghost predicate OnWorkday(t: int, from: int, to: int) {
    exists day | 0 <= day % 7 <= 4 :: (86400 * day + from) * 1000000 <= t < (86400 * day + to) * 1000000
  }

  /** London trades from seven to ten on workdays, New York from one to four in the afternoon, and nothing else does. */
  lemma SessionHours(t: int)
    ensures ActiveSession(t) == Some(London) <==> OnWorkday(t, 25200, 36000)
    ensures ActiveSession(t) == Some(NewYork) <==> OnWorkday(t, 46800, 57600)
    ensures ActiveSession(t) == None <==> !OnWorkday(t, 25200, 36000) && !OnWorkday(t, 46800, 57600)
  {
    var day := DayOf(t);
    assert t == day * DAY + t % DAY;
    OnlyThatDay(t, 25200, 36000);
    OnlyThatDay(t, 46800, 57600);
  }

  lemma OnlyThatDay(t: int, from: int, to: int)
    requires 0 <= from <= to <= 86400
    ensures OnWorkday(t, from, to)
      <==> Weekday(DayOf(t)) < 5 && from * 1000000 <= t % DAY < to * 1000000
  {
    assert t == DayOf(t) * DAY + t % DAY;
    if OnWorkday(t, from, to) {
      var day :| 0 <= day % 7 <= 4 && (86400 * day + from) * 1000000 <= t < (86400 * day + to) * 1000000;
      DayAndTime(day, t - day * DAY);
    } else if Weekday(DayOf(t)) < 5 {
      assert (86400 * DayOf(t) + from) * 1000000 == DayOf(t) * DAY + from * 1000000;
      assert (86400 * DayOf(t) + to) * 1000000 == DayOf(t) * DAY + to * 1000000;
    }
  }

  /** When the session opens on that day. */
  function OpeningTime(day: int, s: Session): int {
    day * DAY + Opens(s)
  }

  lemma OpeningIsTrading(day: int, s: Session)
    requires Weekday(day) < 5
    ensures DayOf(OpeningTime(day, s)) == day && Trading(OpeningTime(day, s))
  {
    DayAndTime(day, Opens(s));
  }

  lemma DayAndTime(day: int, time: int)
    requires 0 <= time < DAY
    ensures DayOf(day * DAY + time) == day && (day * DAY + time) % DAY == time
  {
  }

  /** A session that is active at `u` opened on the same day, and it is active from then on until `u`. */
  lemma OpenedBefore(u: int) returns (s: Session)
    requires Trading(u)
    ensures Weekday(DayOf(u)) < 5 && OpeningTime(DayOf(u), s) <= u
    ensures forall t | OpeningTime(DayOf(u), s) <= t <= u :: Trading(t)
  {
    s := ActiveSession(u).value;
    var day := DayOf(u);
    assert u == day * DAY + u % DAY;
    forall t | OpeningTime(day, s) <= t <= u ensures Trading(t) {
      DayAndTime(day, t - day * DAY);
    }
  }

  /** Within three days there is a weekday to come. */
  lemma WeekdayComes(day: int) returns (offset: int)
    ensures 1 <= offset <= 3 && Weekday(day + offset) < 5
  {
    offset := if day % 7 == 4 then 3 else if day % 7 == 5 then 2 else 1;
  }

  /** `m` is the first instant at or after `t` at which a session is active. */
  ghost predicate NextTrading(t: int, m: int) {
    t <= m && Trading(m) && forall u | t <= u < m :: !Trading(u)
  }

  /** Everything the search collects lies ahead and is the opening of a session on one of the days searched. */
  ghost predicate Collected(t: int, upcoming: seq<int>, days: int) {
    && (forall o | o in upcoming :: t < o && Trading(o) && DayOf(o) <= DayOf(t) + 6)
    && (forall day, s | DayOf(t) <= day < DayOf(t) + days && Weekday(day) < 5 && OpeningTime(day, s) > t ::
         OpeningTime(day, s) in upcoming)
  }

  /** A session active in the days searched, but not at `t`, has its opening among those collected. */
  lemma OpeningCollected(t: int, upcoming: seq<int>, u: int) returns (o: int)
    requires !Trading(t) && Collected(t, upcoming, 7) && t <= u && Trading(u) && DayOf(u) <= DayOf(t) + 6
    ensures o in upcoming && o <= u
  {
    var s := OpenedBefore(u);
    o := OpeningTime(DayOf(u), s);
    assert o > t;
    assert DayOf(t) <= DayOf(u);
  }

  lemma LeastIsNext(t: int, upcoming: seq<int>, m: int)
    requires !Trading(t) && Collected(t, upcoming, 7)
    requires m in upcoming && forall o | o in upcoming :: m <= o
    ensures NextTrading(t, m)
  {
    forall u | t <= u < m && Trading(u) ensures false {
      var o := OpeningCollected(t, upcoming, u);
    }
  }

  method LeastOf(times: seq<int>) returns (m: int)
    requires times != []
    ensures m in times && forall o | o in times :: m <= o
  {
    m := times[0];
    for i := 1 to |times|
      invariant m in times && forall j | 0 <= j < i :: m <= times[j]
    {
      if times[i] < m {
        m := times[i];
      }
    }
  }

  /** The openings on one day that lie ahead. */
  method CollectDay(t: int, upcoming0: seq<int>, offset: int) returns (upcoming: seq<int>)
    requires 0 <= offset < 7 && Collected(t, upcoming0, offset)
    ensures Collected(t, upcoming, offset + 1)
    ensures upcoming0 <= upcoming
  {
    upcoming := upcoming0;
    var day := DayOf(t) + offset;
    if Weekday(day) >= 5 {
      return;
    }
    OpeningIsTrading(day, London);
    OpeningIsTrading(day, NewYork);
    if OpeningTime(day, London) > t {
      upcoming := upcoming + [OpeningTime(day, London)];
    }
    if OpeningTime(day, NewYork) > t {
      upcoming := upcoming + [OpeningTime(day, NewYork)];
    }
    forall d, s | DayOf(t) <= d < DayOf(t) + offset + 1 && Weekday(d) < 5 && OpeningTime(d, s) > t
      ensures OpeningTime(d, s) in upcoming
    {
      assert s == London || s == NewYork;
    }
  }

  /** From a whole second the wait to the first active instant is whole, and no shorter wait of whole seconds does. */
  lemma WholeSecondsAreExact(t: int, m: int)
    requires t % SECOND == 0 && NextTrading(t, m)
    ensures var n := (m - t) / SECOND;
      n >= 0 && Trading(t + n * SECOND) && forall k | 0 <= k < n :: !Trading(t + k * SECOND)
  {
    if m > t {
      FirstIsOpening(t, m);
    }
    WholeDistance(t, m);
  }

  lemma WholeDistance(t: int, m: int)
    requires t % SECOND == 0 && m % SECOND == 0
    ensures m == t + (m - t) / SECOND * SECOND
  {
    var a, b := t / SECOND, m / SECOND;
    assert m - t == (b - a) * SECOND;
  }

  lemma FirstIsOpening(t: int, m: int)
    requires NextTrading(t, m) && t < m
    ensures m % SECOND == 0
  {
    var s := OpenedBefore(m);
    var o := OpeningTime(DayOf(m), s);
    assert Trading(o) && !Trading(t) && o <= m;
    assert m == o;
    OpeningIsWhole(DayOf(m), s);
  }

  lemma OpeningIsWhole(day: int, s: Session)
    ensures OpeningTime(day, s) % SECOND == 0
  {
    var seconds := day * 86400 + if s == London then 7 * 3600 else 13 * 3600;
    assert OpeningTime(day, s) == seconds * SECOND;
  }

  /** `seconds` is the distance of the first active instant, rounded down. */
  ghost predicate WaitsFor(t: int, seconds: int) {
    exists m | NextTrading(t, m) :: seconds == (m - t) / SECOND
  }

  /**
    Seconds to the next session: the whole seconds that fit before the first active instant, and exactly the least
    wait for an instant of whole seconds. The search of seven days always finds an opening, so the answer for an
    empty search is never given.
   */
  method SecondsToNextSession(t: int) returns (seconds: int)
    ensures WaitsFor(t, seconds)
    ensures t % SECOND == 0 ==> seconds >= 0 && Trading(t + seconds * SECOND)
    ensures t % SECOND == 0 ==> forall k | 0 <= k < seconds :: !Trading(t + k * SECOND)
  {
    if Trading(t) {
      assert NextTrading(t, t);
      return 0;
    }
    var upcoming := [];
    for offset := 0 to 7
      invariant Collected(t, upcoming, offset)
    {
      upcoming := CollectDay(t, upcoming, offset);
    }
    ghost var later := WeekdayComes(DayOf(t));
    assert OpeningTime(DayOf(t) + later, London) in upcoming;
    if upcoming == [] {
      assert false;
    }
    var nearest := LeastOf(upcoming);
    LeastIsNext(t, upcoming, nearest);
    if t % SECOND == 0 {
      WholeSecondsAreExact(t, nearest);
    }
    return (nearest - t) / SECOND;
  }

  lemma RoundedDown(t: int, m: int)
    requires m % SECOND == 0 && t < m
    ensures var end := t + (m - t) / SECOND * SECOND;
      t <= end <= m && (end == m <==> t % SECOND == 0)
  {
    var a, rest, b := t / SECOND, t % SECOND, m / SECOND;
    assert m - t == (b - a) * SECOND - rest;
    if rest > 0 {
      assert m - t == (b - a - 1) * SECOND + (SECOND - rest);
    }
  }

  /**
    When the wait is over a session is active exactly if one was active at the start, or the start was a whole second.
   */
  lemma RoundedDownBetweenSeconds(t: int, seconds: int)
    requires WaitsFor(t, seconds)
    ensures Trading(t + seconds * SECOND) <==> Trading(t) || t % SECOND == 0
  {
    var m :| NextTrading(t, m) && seconds == (m - t) / SECOND;
    if t < m {
      FirstIsOpening(t, m);
      RoundedDown(t, m);
    } else {
      assert m == t && seconds == 0;
    }
  }

  /** In the last second before any opening the wait is zero, and no session is active. */
  lemma ZeroBeforeOpening(day: int, s: Session, t: int)
    requires Weekday(day) < 5 && OpeningTime(day, s) - SECOND < t < OpeningTime(day, s)
    ensures WaitsFor(t, 0) && !Trading(t)
  {
    var o := OpeningTime(day, s);
    OpeningIsTrading(day, s);
    forall u | t <= u < o ensures !Trading(u) {
      DayAndTime(day, u - day * DAY);
    }
    assert NextTrading(t, o);
  }
}
