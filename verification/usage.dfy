/**
  The usage counters kept in `data.json`, and their daily rollover: the
  today-count is forgotten once the stored date lies strictly in the past.
 */
module Usage {
  import opened Wrappers

  /** A calendar day, as a day number; later days are larger. */
  type Date = int

  /** `UserData`; the source's `i32` counters are unbounded here. */
  datatype UserData = UserData(lastDate: Option<Date>, countToday: nat, countTotal: nat)

  /** The counters written on first use: no date, both counts zero. */
  const Fresh := UserData(None, 0, 0)

  /** The stored today-count belongs to a day strictly before `today`. */
  predicate Stale(d: UserData, today: Date)
  {
    d.lastDate.Some? && today > d.lastDate.value
  }

  /** The today-count is never larger than the total. */
  predicate Consistent(d: UserData)
  {
    d.countToday <= d.countTotal
  }

  /** The counters as of `today`: a stale today-count is reset to zero, nothing else moves. */
  function RollOver(d: UserData, today: Date): (r: UserData)
    ensures r.lastDate == d.lastDate && r.countTotal == d.countTotal
    ensures Stale(d, today) ==> r.countToday == 0
    ensures !Stale(d, today) ==> r == d
    ensures Consistent(d) ==> Consistent(r)
  {
    if Stale(d, today) then d.(countToday := 0) else d
  }

  /**
    The `-c` view: the today-count shown is zero when the stored day is
    past, the stored today-count otherwise; the total is the stored total.
   */
  function DisplayCounts(d: UserData, today: Date): (r: (nat, nat))
    ensures r.0 == 0 <==> Stale(d, today) || d.countToday == 0
    ensures r.0 != 0 ==> r.0 == d.countToday
    ensures r.1 == d.countTotal
  {
    var rolled := RollOver(d, today);
    (rolled.countToday, rolled.countTotal)
  }

  /**
    The update after a save the server accepted: roll over, stamp today,
    and count the save once in each counter. The date is stamped even
    when `today` lies before the stored date.
   */
  function RecordSuccess(d: UserData, today: Date): (r: UserData)
    ensures r.lastDate == Some(today)
    ensures r.countTotal == d.countTotal + 1
    ensures r.countToday == DisplayCounts(d, today).0 + 1
    ensures Consistent(d) ==> Consistent(r)
  {
    var rolled := RollOver(d, today);
    rolled.(lastDate := Some(today), countToday := rolled.countToday + 1, countTotal := rolled.countTotal + 1)
  }

  /** Rolling over twice on the same day is rolling over once. */
  lemma RollOverIdempotent(d: UserData, today: Date)
    ensures RollOver(RollOver(d, today), today) == RollOver(d, today)
  {
  }

  /** What `-c` shows right after a save on the same day: one more of each. */
  lemma DisplayAfterRecord(d: UserData, today: Date)
    ensures DisplayCounts(RecordSuccess(d, today), today) ==
              (DisplayCounts(d, today).0 + 1, DisplayCounts(d, today).1 + 1)
  {
  }

  /** What `-c` shows on a later day than the last save: nothing today, the same total. */
  lemma DisplayNextDay(d: UserData, saved: Date, today: Date)
    requires today > saved
    ensures DisplayCounts(RecordSuccess(d, saved), today) == (0, d.countTotal + 1)
  {
  }

  /** `n` successful saves, all on `today`. */
  function RecordTimes(d: UserData, today: Date, n: nat): UserData
  {
    if n == 0 then d else RecordSuccess(RecordTimes(d, today, n - 1), today)
  }

  /**
    Same-day saves accumulate: after `n > 0` saves on one day, the
    today-count has grown by `n` from what `-c` showed before, and the
    total by `n`.
   */
  lemma {:induction false} SameDayAccumulates(d: UserData, today: Date, n: nat)
    requires n > 0
    ensures RecordTimes(d, today, n).lastDate == Some(today)
    ensures RecordTimes(d, today, n).countToday == DisplayCounts(d, today).0 + n
    ensures RecordTimes(d, today, n).countTotal == d.countTotal + n
  {
    if n > 1 {
      SameDayAccumulates(d, today, n - 1);
      var prev := RecordTimes(d, today, n - 1);
      assert !Stale(prev, today);
    }
  }

  /** The counters after one successful save on each day of `days`, in order. */
  function RecordAll(d: UserData, days: seq<Date>): UserData
    decreases |days|
  {
    if days == [] then d else RecordSuccess(RecordAll(d, days[..|days| - 1]), days[|days| - 1])
  }

  /**
    Whatever the days of the saves, even a clock that runs backwards,
    every save adds exactly one to the total, and the today-count never
    exceeds the total if it did not before.
   */
  lemma {:induction false} SavesKeepConsistent(d: UserData, days: seq<Date>)
    requires Consistent(d)
    ensures Consistent(RecordAll(d, days))
    ensures RecordAll(d, days).countTotal == d.countTotal + |days|
    ensures days != [] ==> RecordAll(d, days).lastDate == Some(days[|days| - 1])
    decreases |days|
  {
    if days != [] {
      SavesKeepConsistent(d, days[..|days| - 1]);
    }
  }
}
