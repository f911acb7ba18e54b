/** Which reminders the bot arms after a meeting is created or its date is
    changed: one for each offset of 24 and 1 hours whose delay
    `dt - offset - now` is still positive.  The timers themselves are not
    modelled; a reminder is the offset and the delay it would sleep for. */
module Reminders {
  import opened Base
  import opened DateTimes

  datatype Reminder = Reminder(hours: int, delay: int)

  /** The offsets tried, in order: `for h in (24, 1)`. */
  const Offsets: seq<int> := [24, 1]

  /** The delay before the reminder `hours` ahead of `when`. */
  function DelayFor(when: int, now: int, hours: int): int {
    when - hours * SecondsPerHour - now
  }

  /** One reminder per offset in `hs`, in that order, for the offsets whose
      delay is positive; each sleeps until `hours` before the meeting. */
  function ArmEach(hs: seq<int>, when: int, now: int): (rs: seq<Reminder>)
    ensures |rs| <= |hs|
    ensures forall i :: 0 <= i < |rs| ==>
              rs[i].hours in hs && rs[i].delay > 0 && now + rs[i].delay == when - rs[i].hours * SecondsPerHour
    ensures forall h :: h in hs ==> (Reminder(h, DelayFor(when, now, h)) in rs <==> DelayFor(when, now, h) > 0)
  {
    if hs == [] then []
    else
      var d := DelayFor(when, now, hs[0]);
      var rest := ArmEach(hs[1..], when, now);
      assert forall h :: h in hs[1..] ==> h in hs;
      assert forall h :: h in hs ==> h == hs[0] || h in hs[1..];
      if d > 0 then [Reminder(hs[0], d)] + rest else rest
  }

  /** The reminders armed for a meeting at `when` (seconds) at time `now`. */
  function Arm(when: int, now: int): (rs: seq<Reminder>)
    ensures |rs| <= 2
    ensures Reminder(24, DelayFor(when, now, 24)) in rs <==> when - now > 24 * SecondsPerHour
    ensures Reminder(1, DelayFor(when, now, 1)) in rs <==> when - now > SecondsPerHour
    ensures forall i :: 0 <= i < |rs| ==>
              (rs[i].hours == 24 || rs[i].hours == 1) && rs[i].delay > 0
              && now + rs[i].delay == when - rs[i].hours * SecondsPerHour
  {
    ArmEach(Offsets, when, now)
  }

  /** A meeting an hour or less away gets no reminder; one more than a day
      away gets both; the day-ahead reminder is never armed alone. */
  lemma ArmedOffsets(when: int, now: int)
    ensures when - now <= SecondsPerHour ==> Arm(when, now) == []
    ensures when - now > 24 * SecondsPerHour ==>
              Arm(when, now) == [Reminder(24, DelayFor(when, now, 24)), Reminder(1, DelayFor(when, now, 1))]
    ensures SecondsPerHour < when - now <= 24 * SecondsPerHour ==>
              Arm(when, now) == [Reminder(1, DelayFor(when, now, 1))]
  {
    assert Offsets[1..] == [1];
    assert [1][1..] == [];
    var last := ArmEach([1], when, now);
    assert last == (if DelayFor(when, now, 1) > 0 then [Reminder(1, DelayFor(when, now, 1))] else []);
    assert Arm(when, now) == (if DelayFor(when, now, 24) > 0 then [Reminder(24, DelayFor(when, now, 24))] else []) + last;
  }

  /** The reminder code after `create_get_desc` and `edit_get_date`: the
      stored text is parsed again; were it not to parse, the `except`
      branch would arm nothing. */
  function RemindersFor(datetime: string, now: int): (rs: seq<Reminder>)
    ensures Parse(datetime).None? ==> rs == []
    ensures |rs| <= 2
    ensures forall i :: 0 <= i < |rs| ==>
              Parse(datetime).Some? && rs[i].delay > 0
              && now + rs[i].delay == Seconds(Parse(datetime).value) - rs[i].hours * SecondsPerHour
  {
    match Parse(datetime)
    case None => []
    case Some(dt) => Arm(Seconds(dt), now)
  }
}
