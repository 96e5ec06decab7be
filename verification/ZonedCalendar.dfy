/** Calendar dates in a time zone: the conversions between instants (milliseconds of UTC)
    and local dates of src/lib/calendar-timezone.ts.

    A zone is an offset from UTC that changes at a sorted list of instants. Around one
    midnight at most one change matters: `OnlyChange` names it. */
module ZonedCalendar {
  import opened Wrappers
  import opened Decimal
  import opened Gregorian
  import opened CalendarDates

  datatype Change = Change(at: int, offset: int)

  datatype Zone = Zone(initial: int, changes: seq<Change>)

  /** Offsets are whole seconds, at most `bound` either way and so less than a day. */
  predicate ValidZone(z: Zone, bound: int) {
    && 0 <= bound < MS_PER_DAY
    && ValidOffset(z.initial, bound)
    && (forall i | 0 <= i < |z.changes| :: ValidOffset(z.changes[i].offset, bound))
    && (forall i, j | 0 <= i < j < |z.changes| :: z.changes[i].at < z.changes[j].at)
  }

  predicate ValidOffset(offset: int, bound: int) {
    -bound <= offset <= bound && offset % 1000 == 0
  }

  function OffsetAt(z: Zone, t: int): int
    decreases |z.changes|
  {
    if z.changes == [] then z.initial
    else
      var last := z.changes[|z.changes| - 1];
      if last.at <= t then last.offset else OffsetAt(z.(changes := z.changes[..|z.changes| - 1]), t)
  }

  /** The wall clock at an instant, as the milliseconds UTC would show it. */
  function LocalTime(z: Zone, t: int): int {
    t + OffsetAt(z, t)
  }

  function LocalDate(z: Zone, t: int): Civil {
    CivilOf(LocalTime(z, t) / MS_PER_DAY)
  }

  // ---- The conversions ----

  datatype Parts = Parts(year: nat, month: nat, day: nat, hour: nat, minute: nat, second: nat)

  /** Intl prints the year of the era, so the years before 1 count up again. */
  function EraYear(y: int): nat {
    if y >= 1 then y else 1 - y
  }

  function TimeZoneParts(z: Zone, t: int): Parts {
    var c := LocalDate(z, t);
    var ms := LocalTime(z, t) % MS_PER_DAY;
    Parts(EraYear(c.year), c.month, c.day, ms / 3_600_000, ms / 60_000 % 60, ms / 1000 % 60)
  }

  /** Date.UTC of the parts. */
  function DateUtc(p: Parts): int {
    DateUtcDay(p.year, p.month - 1, p.day) * MS_PER_DAY + p.hour * 3_600_000 + p.minute * 60_000 + p.second * 1000
  }

  function UtcToZonedCalendarDate(z: Zone, t: int): string {
    var p := TimeZoneParts(z, t);
    PadStart(Dec(p.year), 4) + "-" + Pad2(p.month) + "-" + Pad2(p.day)
  }

  /** One correction of the candidate. */
  function Correction(z: Zone, naive: int): int -> int {
    candidate => naive - (DateUtc(TimeZoneParts(z, candidate)) - candidate)
  }

  function Iterate(f: int -> int, x: int, k: nat): int {
    if k == 0 then x else f(Iterate(f, x, k - 1))
  }

  /** The candidate after k corrections; it starts at the naive instant. */
  function Candidate(z: Zone, naive: int, k: nat): int {
    Iterate(Correction(z, naive), naive, k)
  }

  function ToUtc(z: Zone, v: string): Option<int> {
    match CalendarSerial(v)
    case None => None
    case Some(naive) => Some(Candidate(z, naive, 4))
  }

  method ZonedCalendarDateToUtc(v: string, z: Zone) returns (r: Option<int>)
    ensures r == ToUtc(z, v)
  {
    var serial := CalendarSerial(v);
    if serial.None? {
      return None;
    }
    var candidate := SettleCandidate(serial.value, z);
    return Some(candidate);
  }

  /** The loop of the conversion. */
  method SettleCandidate(naive: int, z: Zone) returns (candidate: int)
    ensures candidate == Candidate(z, naive, 4)
  {
    candidate := naive;
    for attempt := 0 to 4
      invariant candidate == Candidate(z, naive, attempt)
    {
      var parts := TimeZoneParts(z, candidate);
      var wallClock := DateUtc(parts);
      candidate := naive - (wallClock - candidate);
    }
  }

  function EndOfDayToUtc(z: Zone, v: string): Option<int> {
    InstantBefore(z, AddCalendarDays(v, 1))
  }

  function InstantBefore(z: Zone, next: Option<string>): Option<int> {
    if next.None? || ToUtc(z, next.value).None? then None else Some(ToUtc(z, next.value).value - 1)
  }

  // ---- Offsets around one change ----

  /** Within (lo, hi] the offset changes at `at` or not at all. */
  predicate OnlyChange(z: Zone, lo: int, hi: int, at: int) {
    lo < at <= hi && forall i | 0 <= i < |z.changes| :: lo < z.changes[i].at <= hi ==> z.changes[i].at == at
  }

  lemma {:induction false} OffsetValid(z: Zone, bound: int, t: int)
    requires ValidZone(z, bound)
    ensures ValidOffset(OffsetAt(z, t), bound)
    decreases |z.changes|
  {
    if z.changes != [] && z.changes[|z.changes| - 1].at > t {
      OffsetValid(z.(changes := z.changes[..|z.changes| - 1]), bound, t);
    }
  }

  lemma {:induction false} OffsetConstant(z: Zone, s: int, t: int)
    requires s <= t && forall i | 0 <= i < |z.changes| :: !(s < z.changes[i].at <= t)
    ensures OffsetAt(z, s) == OffsetAt(z, t)
    decreases |z.changes|
  {
    if z.changes != [] && z.changes[|z.changes| - 1].at > t {
      OffsetConstant(z.(changes := z.changes[..|z.changes| - 1]), s, t);
    }
  }

  /** After a change and before the next one its offset holds. */
  lemma {:induction false} OffsetIsOfChange(z: Zone, t: int, i: nat)
    requires i < |z.changes| && z.changes[i].at <= t
    requires forall j | i < j < |z.changes| :: t < z.changes[j].at
    ensures OffsetAt(z, t) == z.changes[i].offset
    decreases |z.changes|
  {
    if i < |z.changes| - 1 {
      OffsetIsOfChange(z.(changes := z.changes[..|z.changes| - 1]), t, i);
    }
  }

  /** Before all changes the initial one does. */
  lemma {:induction false} OffsetIsInitial(z: Zone, t: int)
    requires forall j | 0 <= j < |z.changes| :: t < z.changes[j].at
    ensures OffsetAt(z, t) == z.initial
    decreases |z.changes|
  {
    if z.changes != [] {
      OffsetIsInitial(z.(changes := z.changes[..|z.changes| - 1]), t);
    }
  }

  lemma OffsetSplits(z: Zone, lo: int, hi: int, at: int, t: int)
    requires OnlyChange(z, lo, hi, at) && lo <= t <= hi
    ensures OffsetAt(z, t) == if t < at then OffsetAt(z, at - 1) else OffsetAt(z, at)
  {
    if t < at {
      OffsetConstant(z, t, at - 1);
    } else {
      OffsetConstant(z, at, t);
    }
  }

  // ---- Reading the wall clock ----

  lemma ClockSplits(ms: int)
    requires 0 <= ms && ms % 1000 == 0
    ensures ms / 3_600_000 * 3_600_000 + ms / 60_000 % 60 * 60_000 + ms / 1000 % 60 * 1000 == ms
  {
    var s := ms / 1000;
    assert ms / 60_000 == s / 60 && ms / 3_600_000 == s / 3600;
    assert s / 60 / 60 == s / 3600;
  }

  /** From the year 100 on, Date.UTC of the parts is the wall clock. */
  lemma {:induction false} DateUtcReads(z: Zone, t: int)
    requires LocalTime(z, t) % 1000 == 0 && LocalTime(z, t) >= FIRST_DAY * MS_PER_DAY
    ensures DateUtc(TimeZoneParts(z, t)) == LocalTime(z, t)
  {
    var local := LocalTime(z, t);
    var day := local / MS_PER_DAY;
    YearBound(CivilOf(day), 100);
    MakeDayOfCivil(CivilOf(day), 0);
    SecondsOfDay(local);
    ClockSplits(local % MS_PER_DAY);
  }

  lemma SecondsOfDay(local: int)
    requires local % 1000 == 0
    ensures local % MS_PER_DAY % 1000 == 0
    ensures local >= FIRST_DAY * MS_PER_DAY ==> local / MS_PER_DAY >= FIRST_DAY
  {
    assert local == MS_PER_DAY * (local / MS_PER_DAY) + local % MS_PER_DAY;
    assert local % MS_PER_DAY == 1000 * (local / 1000 - 86_400 * (local / MS_PER_DAY));
  }

  // ---- One midnight ----

  /** The dates whose candidates all have a local year of 100 or later. */
  predicate Naive(n: int) {
    n % MS_PER_DAY == 0 && n >= (FIRST_DAY + 2) * MS_PER_DAY
  }

  lemma CorrectIs(z: Zone, bound: int, n: int, at: int, c: int)
    requires ValidZone(z, bound) && Naive(n) && OnlyChange(z, n - bound - 1, n + bound, at)
    requires n - bound <= c <= n + bound && c % 1000 == 0
    ensures Correction(z, n)(c) == Pick(n, at, OffsetAt(z, at - 1), OffsetAt(z, at), c)
  {
    OffsetValid(z, bound, c);
    LocalInRange(n, bound, c, OffsetAt(z, c));
    DateUtcReads(z, c);
    OffsetSplits(z, n - bound - 1, n + bound, at, c);
  }

  lemma LocalInRange(n: int, bound: int, c: int, offset: int)
    requires 0 <= bound < MS_PER_DAY && Naive(n) && n - bound <= c && -bound <= offset
    requires c % 1000 == 0 && offset % 1000 == 0
    ensures c + offset >= FIRST_DAY * MS_PER_DAY && (c + offset) % 1000 == 0
  {
  }

  lemma WholeSeconds(n: int)
    requires n % MS_PER_DAY == 0
    ensures n % 1000 == 0
  {
    assert n == 1000 * (86_400 * (n / MS_PER_DAY));
  }

  /** The candidate after one correction, written with the two offsets around the change. */
  function Pick(n: int, at: int, before: int, after: int, c: int): int {
    n - if c < at then before else after
  }

  /** Four steps of any correction that picks one of two offsets around the change. */
  lemma PicksIterate(f: int -> int, n: int, bound: int, at: int, before: int, after: int)
    requires n % 1000 == 0 && ValidOffset(before, bound) && ValidOffset(after, bound)
    requires forall c | n - bound <= c <= n + bound && c % 1000 == 0 :: f(c) == Pick(n, at, before, after, c)
    ensures Iterate(f, n, 1) == Pick(n, at, before, after, n)
    ensures Iterate(f, n, 2) == Pick(n, at, before, after, Iterate(f, n, 1))
    ensures Iterate(f, n, 3) == Pick(n, at, before, after, Iterate(f, n, 2))
    ensures Iterate(f, n, 4) == Pick(n, at, before, after, Iterate(f, n, 3))
    ensures n - bound <= Iterate(f, n, 4) <= n + bound
  {
    PicksStep(f, n, bound, at, before, after, 0);
    PicksStep(f, n, bound, at, before, after, 1);
    PicksStep(f, n, bound, at, before, after, 2);
    PicksStep(f, n, bound, at, before, after, 3);
  }

  lemma PicksStep(f: int -> int, n: int, bound: int, at: int, before: int, after: int, k: nat)
    requires ValidOffset(before, bound) && ValidOffset(after, bound) && n % 1000 == 0
    requires forall c | n - bound <= c <= n + bound && c % 1000 == 0 :: f(c) == Pick(n, at, before, after, c)
    requires n - bound <= Iterate(f, n, k) <= n + bound && Iterate(f, n, k) % 1000 == 0
    ensures Iterate(f, n, k + 1) == Pick(n, at, before, after, Iterate(f, n, k))
    ensures n - bound <= Iterate(f, n, k + 1) <= n + bound && Iterate(f, n, k + 1) % 1000 == 0
  {
    SecondsApart(n, before);
    SecondsApart(n, after);
  }

  lemma SecondsApart(n: int, offset: int)
    requires n % 1000 == 0 && offset % 1000 == 0
    ensures (n - offset) % 1000 == 0
  {
    assert n == 1000 * (n / 1000) && offset == 1000 * (offset / 1000);
    assert n - offset == 1000 * (n / 1000 - offset / 1000);
  }

  lemma CandidateIs(z: Zone, bound: int, n: int, at: int)
    requires ValidZone(z, bound) && Naive(n) && OnlyChange(z, n - bound - 1, n + bound, at)
    ensures var before, after := OffsetAt(z, at - 1), OffsetAt(z, at);
            && Candidate(z, n, 1) == Pick(n, at, before, after, n)
            && Candidate(z, n, 2) == Pick(n, at, before, after, Candidate(z, n, 1))
            && Candidate(z, n, 3) == Pick(n, at, before, after, Candidate(z, n, 2))
            && Candidate(z, n, 4) == Pick(n, at, before, after, Candidate(z, n, 3))
    ensures n - bound <= Candidate(z, n, 4) <= n + bound
  {
    OffsetValid(z, bound, at - 1);
    OffsetValid(z, bound, at);
    WholeSeconds(n);
    forall c | n - bound <= c <= n + bound && c % 1000 == 0
      ensures Correction(z, n)(c) == Pick(n, at, OffsetAt(z, at - 1), OffsetAt(z, at), c)
    {
      CorrectIs(z, bound, n, at, c);
    }
    PicksIterate(Correction(z, n), n, bound, at, OffsetAt(z, at - 1), OffsetAt(z, at));
  }

  /** The instants at which the wall clock shows n are at most two, one on each side of the change. */
  lemma ShowsAt(z: Zone, bound: int, n: int, at: int, u: int)
    requires ValidZone(z, bound) && OnlyChange(z, n - bound - 1, n + bound, at)
    ensures LocalTime(z, u) == n
       <==> (u == n - OffsetAt(z, at - 1) && u < at) || (u == n - OffsetAt(z, at) && u >= at)
  {
    OffsetValid(z, bound, u);
    OffsetValid(z, bound, at - 1);
    OffsetValid(z, bound, at);
    if n - bound <= u <= n + bound {
      OffsetSplits(z, n - bound - 1, n + bound, at, u);
    }
  }

  /** Local midnight n exists. */
  ghost predicate Exists(z: Zone, n: int) {
    exists u :: LocalTime(z, u) == n
  }

  /** The wall clock just before the change and at it: together, what the change skips or repeats. */
  function ClockBefore(z: Zone, at: int): int {
    at + OffsetAt(z, at - 1)
  }

  /** The change skips midnight n. */
  predicate Skips(z: Zone, n: int, at: int) {
    ClockBefore(z, at) <= n < LocalTime(z, at)
  }

  /** Midnight exists exactly if the change does not skip it. */
  lemma {:induction false} ExistsExactly(z: Zone, bound: int, n: int, at: int)
    requires ValidZone(z, bound) && OnlyChange(z, n - bound - 1, n + bound, at)
    ensures Exists(z, n) <==> !Skips(z, n, at)
  {
    ShowsAt(z, bound, n, at, n - OffsetAt(z, at - 1));
    ShowsAt(z, bound, n, at, n - OffsetAt(z, at));
    if u :| LocalTime(z, u) == n {
      ShowsAt(z, bound, n, at, u);
    }
  }

  /** If local midnight exists, two corrections find an instant that shows it and the other
      two stay there; if it is skipped, the corrections alternate and the result's wall clock
      misses it by exactly the jump, early when the naive instant precedes the change and late
      when it does not. */
  lemma {:induction false} LoopFindsMidnight(z: Zone, bound: int, n: int, at: int)
    requires ValidZone(z, bound) && Naive(n) && OnlyChange(z, n - bound - 1, n + bound, at)
    ensures Exists(z, n) ==>
              && LocalTime(z, Candidate(z, n, 4)) == n
              && Candidate(z, n, 2) == Candidate(z, n, 3) == Candidate(z, n, 4)
    ensures !Exists(z, n) ==>
              var jump := OffsetAt(z, at) - OffsetAt(z, at - 1);
              && jump > 0
              && LocalTime(z, Candidate(z, n, 4)) == (if n < at then n - jump else n + jump)
              && Candidate(z, n, 1) == Candidate(z, n, 3) != Candidate(z, n, 2) == Candidate(z, n, 4)
  {
    var before, after := OffsetAt(z, at - 1), OffsetAt(z, at);
    CandidateIs(z, bound, n, at);
    var r := Candidate(z, n, 4);
    OffsetSplits(z, n - bound - 1, n + bound, at, r);
    ShowsAt(z, bound, n, at, n - before);
    ShowsAt(z, bound, n, at, n - after);
    if u :| LocalTime(z, u) == n {
      ShowsAt(z, bound, n, at, u);
    }
  }

  /** When midnight occurs twice, the loop returns the earlier instant exactly if the naive
      instant precedes the change. */
  lemma {:induction false} LoopPicksMidnight(z: Zone, bound: int, n: int, at: int, first: int, second: int)
    requires ValidZone(z, bound) && Naive(n) && OnlyChange(z, n - bound - 1, n + bound, at)
    requires first < second && LocalTime(z, first) == n == LocalTime(z, second)
    ensures Candidate(z, n, 4) == if n < at then first else second
  {
    CandidateIs(z, bound, n, at);
    ShowsAt(z, bound, n, at, first);
    ShowsAt(z, bound, n, at, second);
  }

  // ---- Where the days begin ----

  /** From u on, and only from u on, the wall clock shows n or later. */
  ghost predicate Cuts(z: Zone, u: int, n: int) {
    forall t :: LocalTime(z, t) >= n <==> t >= u
  }

  /** Midnight n occurs exactly once. */
  ghost predicate OccursOnce(z: Zone, n: int) {
    exists u :: LocalTime(z, u) == n && forall w :: LocalTime(z, w) == n ==> w == u
  }

  /** The conversion begins the day right: the change does not cross midnight; or it goes back
      to midnight exactly and the naive instant precedes it; or it skips from midnight exactly
      and the naive instant does not precede it. */
  predicate BeginsDay(z: Zone, n: int, at: int) {
    var p, q := ClockBefore(z, at), LocalTime(z, at);
    (p > n <==> q > n) || (q == n && n < at) || (p == n && n >= at)
  }

  lemma LocalAround(z: Zone, bound: int, n: int, at: int, t: int)
    requires ValidZone(z, bound) && OnlyChange(z, n - bound - 1, n + bound, at)
    ensures LocalTime(z, t) >= n
       <==> if t < at then t >= n - OffsetAt(z, at - 1) else t >= n - OffsetAt(z, at)
  {
    OffsetValid(z, bound, t);
    OffsetValid(z, bound, at - 1);
    OffsetValid(z, bound, at);
    if n - bound <= t <= n + bound {
      OffsetSplits(z, n - bound - 1, n + bound, at, t);
    }
  }

  /** The instant the four corrections end at. */
  lemma ResultIs(z: Zone, bound: int, n: int, at: int)
    requires ValidZone(z, bound) && Naive(n) && OnlyChange(z, n - bound - 1, n + bound, at)
    ensures var a, b := n - OffsetAt(z, at - 1), n - OffsetAt(z, at);
            Candidate(z, n, 4) == if a < at <= b then (if n < at then a else b)
                                  else if b < at <= a then (if n < at then b else a)
                                  else if a < at then a else b
  {
    CandidateIs(z, bound, n, at);
  }

  lemma {:induction false} OccursOnceExactly(z: Zone, bound: int, n: int, at: int)
    requires ValidZone(z, bound) && OnlyChange(z, n - bound - 1, n + bound, at)
    ensures OccursOnce(z, n) <==> (ClockBefore(z, at) > n <==> LocalTime(z, at) > n)
  {
    var a, b := n - OffsetAt(z, at - 1), n - OffsetAt(z, at);
    forall u ensures LocalTime(z, u) == n <==> (u == a && u < at) || (u == b && u >= at) {
      ShowsAt(z, bound, n, at, u);
    }
    assert LocalTime(z, a) == n <==> a < at || (a == b && a >= at);
    assert LocalTime(z, b) == n <==> b >= at || (a == b && b < at);
  }

  /** The change takes the clock back across midnight n. */
  predicate GoesBack(z: Zone, n: int, at: int) {
    LocalTime(z, at) < n < ClockBefore(z, at)
  }

  /** Some instant cuts the time line at midnight, everything before it on an earlier day and
      nothing after it, exactly if the change does not go back across midnight. */
  lemma {:induction false} CutExistsExactly(z: Zone, bound: int, n: int, at: int)
    requires ValidZone(z, bound) && OnlyChange(z, n - bound - 1, n + bound, at)
    ensures (exists u :: Cuts(z, u, n)) <==> !GoesBack(z, n, at)
  {
    var a, b := n - OffsetAt(z, at - 1), n - OffsetAt(z, at);
    if GoesBack(z, n, at) {
      LocalAround(z, bound, n, at, a);
      forall u ensures !Cuts(z, u, n) {
        assert LocalTime(z, a) >= n && LocalTime(z, at) < n;
      }
    } else {
      var u := if a < at then a else if b < at then at else b;
      forall t ensures LocalTime(z, t) >= n <==> t >= u {
        LocalAround(z, bound, n, at, t);
      }
      assert Cuts(z, u, n);
    }
  }

  /** When it does, the clock shows midnight, then the last millisecond of the day before, then
      midnight again. */
  lemma BackInstants(z: Zone, bound: int, n: int, at: int) returns (first: int, between: int, second: int)
    requires ValidZone(z, bound) && OnlyChange(z, n - bound - 1, n + bound, at) && GoesBack(z, n, at)
    ensures first < between < second
    ensures LocalTime(z, first) == n == LocalTime(z, second) && LocalTime(z, between) == n - 1
  {
    first, second := n - OffsetAt(z, at - 1), n - OffsetAt(z, at);
    between := second - 1;
    ShowsAt(z, bound, n, at, first);
    ShowsAt(z, bound, n, at, second);
    OffsetValid(z, bound, at);
    OffsetSplits(z, n - bound - 1, n + bound, at, between);
  }

  /** The conversion of a date is the first instant of the local day, with every earlier
      instant before it on the wall clock, exactly under `BeginsDay`. */
  lemma {:induction false} CutsExactly(z: Zone, bound: int, n: int, at: int)
    requires ValidZone(z, bound) && Naive(n) && OnlyChange(z, n - bound - 1, n + bound, at)
    ensures Cuts(z, Candidate(z, n, 4), n) <==> BeginsDay(z, n, at)
  {
    var a, b, r := n - OffsetAt(z, at - 1), n - OffsetAt(z, at), Candidate(z, n, 4);
    ResultIs(z, bound, n, at);
    LocalAround(z, bound, n, at, a);
    LocalAround(z, bound, n, at, b);
    LocalAround(z, bound, n, at, at);
    if BeginsDay(z, n, at) {
      forall t ensures LocalTime(z, t) >= n <==> t >= r {
        LocalAround(z, bound, n, at, t);
      }
    } else {
      assert !(LocalTime(z, a) >= n <==> a >= r) || !(LocalTime(z, b) >= n <==> b >= r)
          || !(LocalTime(z, at) >= n <==> at >= r);
    }
  }

  // ---- Days as strings ----

  /** The serial of a date whose candidates stay in range. */
  predicate Convertible(v: string) {
    ValidDate(v) && DayNumber(v) >= FIRST_DAY + 2
  }

  function Midnight(v: string): int
    requires ValidDate(v)
  {
    DayNumber(v) * MS_PER_DAY
  }

  lemma ConvertsNaive(z: Zone, v: string)
    requires Convertible(v)
    ensures Naive(Midnight(v)) && ToUtc(z, v) == Some(Candidate(z, Midnight(v), 4))
  {
    SerialAccepts(v);
    MidnightIsNaive(DayNumber(v));
  }

  lemma MidnightIsNaive(day: int)
    requires day >= FIRST_DAY + 2
    ensures Naive(day * MS_PER_DAY)
  {
  }

  /** An instant of the common era is shown as the date v exactly when v is its local day. */
  lemma {:induction false} ShowsDate(z: Zone, t: int, v: string)
    requires ValidDate(v) && LocalDate(z, t).year >= 1
    ensures UtcToZonedCalendarDate(z, t) == v <==> LocalTime(z, t) / MS_PER_DAY == DayNumber(v)
  {
    var day := LocalTime(z, t) / MS_PER_DAY;
    var c := CivilOf(day);
    DateRoundTrip(v);
    ValidRange(v);
    CivilInRange(DayNumber(v));
    if c.year <= 9999 {
      assert UtcToZonedCalendarDate(z, t) == IsoDate(day);
      if day != DayNumber(v) {
        PrintableDay(DayNumber(v));
        PrintableDay(day);
        DistinctPrints(day, Some(DayNumber(v)));
      }
    } else {
      LongYear(c);
    }
  }

  lemma LongYear(c: Civil)
    requires ValidCivil(c) && c.year > 9999
    ensures |PadStart(Dec(c.year), 4) + "-" + Pad2(c.month) + "-" + Pad2(c.day)| > 10
  {
    assert Pow10(2) == 100;
    FixedNumeral(c.month, 2);
    FixedNumeral(c.day, 2);
    FiveDigits(c.year);
  }

  lemma FiveDigits(n: nat)
    requires n > 9999
    ensures |PadStart(Dec(n), 4)| > 4
  {
    DecRoundTrip(n);
    NatBound(Dec(n));
    if |Dec(n)| <= 4 {
      assert Pow10(4) == 10000;
      PowMonotone(|Dec(n)|, 4);
    }
  }

  lemma {:induction false} PowMonotone(a: nat, b: nat)
    requires a <= b
    ensures Pow10(a) <= Pow10(b)
  {
    if a < b {
      PowMonotone(a, b - 1);
    }
  }

  /** Between two midnights that both begin their days. */
  lemma BetweenMidnights(z: Zone, bound: int, n: int, m: int, at: int, atNext: int, t: int)
    requires ValidZone(z, bound) && Naive(n) && Naive(m)
    requires OnlyChange(z, n - bound - 1, n + bound, at) && BeginsDay(z, n, at)
    requires OnlyChange(z, m - bound - 1, m + bound, atNext) && BeginsDay(z, m, atNext)
    ensures Candidate(z, n, 4) <= t <= Candidate(z, m, 4) - 1 <==> n <= LocalTime(z, t) < m
  {
    CutsExactly(z, bound, n, at);
    CutsExactly(z, bound, m, atNext);
    assert LocalTime(z, t) >= n <==> t >= Candidate(z, n, 4);
    assert LocalTime(z, t) >= m <==> t >= Candidate(z, m, 4);
  }

  /** Local days tile the time line: the instants from the conversion of a date to its end of
      day are exactly those shown as the date, through days of any length. */
  lemma {:induction false} DaysTile(z: Zone, bound: int, v: string, n: int, m: int, at: int, atNext: int, t: int)
    requires ValidZone(z, bound) && Convertible(v) && DayNumber(v) < LAST_DAY
    requires n == Midnight(v) && m == n + MS_PER_DAY
    requires OnlyChange(z, n - bound - 1, n + bound, at) && BeginsDay(z, n, at)
    requires OnlyChange(z, m - bound - 1, m + bound, atNext) && BeginsDay(z, m, atNext)
    requires LocalDate(z, t).year >= 1
    ensures ToUtc(z, v).Some? && EndOfDayToUtc(z, v).Some?
    ensures ToUtc(z, v).value <= t <= EndOfDayToUtc(z, v).value <==> UtcToZonedCalendarDate(z, t) == v
  {
    ConvertsNaive(z, v);
    EndOfDayIs(z, v, m, Candidate(z, m, 4));
    BetweenMidnights(z, bound, n, m, at, atNext, t);
    ShowsDate(z, t, v);
    DayBounds(LocalTime(z, t), DayNumber(v), n, m);
  }

  /** The instant lies in the interval of the date exactly if it is shown as the date. */
  predicate Tiles(z: Zone, v: string, t: int) {
    && ToUtc(z, v).Some? && EndOfDayToUtc(z, v).Some?
    && (ToUtc(z, v).value <= t <= EndOfDayToUtc(z, v).value <==> UtcToZonedCalendarDate(z, t) == v)
  }

  /** Where the conversion does not begin the day, it fails at an instant nearby. */
  lemma CutFailsNear(z: Zone, bound: int, n: int, at: int) returns (t: int)
    requires ValidZone(z, bound) && Naive(n) && OnlyChange(z, n - bound - 1, n + bound, at) && !BeginsDay(z, n, at)
    ensures n - bound <= t <= n + bound && n - 2 * bound <= LocalTime(z, t) <= n + 2 * bound
    ensures !(LocalTime(z, t) >= n <==> t >= Candidate(z, n, 4))
  {
    var a, b, r := n - OffsetAt(z, at - 1), n - OffsetAt(z, at), Candidate(z, n, 4);
    ResultIs(z, bound, n, at);
    LocalAround(z, bound, n, at, a);
    LocalAround(z, bound, n, at, b);
    LocalAround(z, bound, n, at, at);
    OffsetValid(z, bound, at - 1);
    OffsetValid(z, bound, at);
    t := if !(LocalTime(z, a) >= n <==> a >= r) then a else if !(LocalTime(z, b) >= n <==> b >= r) then b else at;
    OffsetValid(z, bound, t);
  }

  lemma DatesTile(z: Zone, v: string, n: int, m: int, first: int, next: int, t: int)
    requires Convertible(v) && DayNumber(v) < LAST_DAY && n == Midnight(v) && m == n + MS_PER_DAY
    requires first == Candidate(z, n, 4) && next == Candidate(z, m, 4) && LocalDate(z, t).year >= 1
    ensures Tiles(z, v, t) <==> (first <= t < next <==> n <= LocalTime(z, t) < m)
  {
    ConvertsNaive(z, v);
    EndOfDayIs(z, v, m, next);
    ShowsDate(z, t, v);
    DayBounds(LocalTime(z, t), DayNumber(v), n, m);
  }

  /** The date of a day tiles exactly if the conversion begins it and the next day right, for
      offsets of less than half a day. */
  lemma {:induction false} DaysTileExactly(z: Zone, bound: int, v: string, n: int, m: int, at: int, atNext: int)
    requires ValidZone(z, bound) && 2 * bound < MS_PER_DAY && Convertible(v) && DayNumber(v) < LAST_DAY
    requires n == Midnight(v) && m == n + MS_PER_DAY
    requires OnlyChange(z, n - bound - 1, n + bound, at) && OnlyChange(z, m - bound - 1, m + bound, atNext)
    ensures (forall t | LocalDate(z, t).year >= 1 :: Tiles(z, v, t))
       <==> BeginsDay(z, n, at) && BeginsDay(z, m, atNext)
  {
    if BeginsDay(z, n, at) && BeginsDay(z, m, atNext) {
      forall t | LocalDate(z, t).year >= 1 ensures Tiles(z, v, t) {
        DaysTile(z, bound, v, n, m, at, atNext, t);
      }
    } else {
      var t := TilingFails(z, bound, v, n, m, at, atNext);
      assert LocalDate(z, t).year >= 1 && !Tiles(z, v, t);
    }
  }

  lemma TilingFails(z: Zone, bound: int, v: string, n: int, m: int, at: int, atNext: int) returns (t: int)
    requires ValidZone(z, bound) && 2 * bound < MS_PER_DAY && Convertible(v) && DayNumber(v) < LAST_DAY
    requires n == Midnight(v) && m == n + MS_PER_DAY
    requires OnlyChange(z, n - bound - 1, n + bound, at) && OnlyChange(z, m - bound - 1, m + bound, atNext)
    requires !BeginsDay(z, n, at) || !BeginsDay(z, m, atNext)
    ensures LocalDate(z, t).year >= 1 && !Tiles(z, v, t)
  {
    BothNaive(v, n, m);
    t := IntervalFails(z, bound, n, m, at, atNext, Candidate(z, n, 4), Candidate(z, m, 4));
    CommonEra(z, t, n);
    DatesTile(z, v, n, m, Candidate(z, n, 4), Candidate(z, m, 4), t);
  }

  lemma BothNaive(v: string, n: int, m: int)
    requires Convertible(v) && n == Midnight(v) && m == n + MS_PER_DAY
    ensures Naive(n) && Naive(m)
  {
    MidnightIsNaive(DayNumber(v));
    MidnightIsNaive(DayNumber(v) + 1);
  }

  /** Near either midnight, an instant inside on one clock and outside on the other. */
  lemma IntervalFails(z: Zone, bound: int, n: int, m: int, at: int, atNext: int, first: int, next: int)
    returns (t: int)
    requires ValidZone(z, bound) && 2 * bound < MS_PER_DAY && Naive(n) && Naive(m) && m == n + MS_PER_DAY
    requires OnlyChange(z, n - bound - 1, n + bound, at) && OnlyChange(z, m - bound - 1, m + bound, atNext)
    requires !BeginsDay(z, n, at) || !BeginsDay(z, m, atNext)
    requires first == Candidate(z, n, 4) && next == Candidate(z, m, 4)
    ensures LocalTime(z, t) > n - 2 * MS_PER_DAY
    ensures !(first <= t < next <==> n <= LocalTime(z, t) < m)
  {
    CandidateIs(z, bound, n, at);
    CandidateIs(z, bound, m, atNext);
    if !BeginsDay(z, n, at) {
      t := CutFailsNear(z, bound, n, at);
    } else {
      t := CutFailsNear(z, bound, m, atNext);
    }
  }

  /** In particular through every day both of whose midnights occur exactly once, however long
      it is. */
  lemma {:induction false} DaysTileBetweenSingleMidnights(z: Zone, bound: int, v: string, n: int, m: int,
                                                            at: int, atNext: int, t: int)
    requires ValidZone(z, bound) && Convertible(v) && DayNumber(v) < LAST_DAY
    requires n == Midnight(v) && m == n + MS_PER_DAY && OccursOnce(z, n) && OccursOnce(z, m)
    requires OnlyChange(z, n - bound - 1, n + bound, at) && OnlyChange(z, m - bound - 1, m + bound, atNext)
    requires LocalDate(z, t).year >= 1
    ensures ToUtc(z, v).Some? && EndOfDayToUtc(z, v).Some?
    ensures ToUtc(z, v).value <= t <= EndOfDayToUtc(z, v).value <==> UtcToZonedCalendarDate(z, t) == v
  {
    OccursOnceExactly(z, bound, n, at);
    OccursOnceExactly(z, bound, m, atNext);
    DaysTile(z, bound, v, n, m, at, atNext, t);
  }

  lemma EndOfDayIs(z: Zone, v: string, m: int, r: int)
    requires Convertible(v) && DayNumber(v) < LAST_DAY && m == Midnight(v) + MS_PER_DAY
    requires r == Candidate(z, m, 4)
    ensures Naive(m) && EndOfDayToUtc(z, v) == Some(r - 1)
  {
    var w := TomorrowConverts(z, v, m, r);
    EndOfDayFrom(z, v, w, r);
  }

  lemma EndOfDayFrom(z: Zone, v: string, w: string, r: int)
    requires AddCalendarDays(v, 1) == Some(w) && ToUtc(z, w) == Some(r)
    ensures EndOfDayToUtc(z, v) == Some(r - 1)
  {
    var next := AddCalendarDays(v, 1);
    InstantBeforeIs(z, next, w, r);
    EndBefore(z, v, next, r - 1);
  }

  lemma TomorrowConverts(z: Zone, v: string, m: int, r: int) returns (w: string)
    requires Convertible(v) && DayNumber(v) < LAST_DAY && m == Midnight(v) + MS_PER_DAY
    requires r == Candidate(z, m, 4)
    ensures AddCalendarDays(v, 1) == Some(w) && Naive(m) && ToUtc(z, w) == Some(r)
  {
    w := TomorrowDate(v, DayNumber(v) + 1);
    ConvertsTo(z, w, m);
  }

  lemma ConvertsTo(z: Zone, w: string, m: int)
    requires Convertible(w) && m == Midnight(w)
    ensures Naive(m) && ToUtc(z, w) == Some(Candidate(z, m, 4))
  {
    ConvertsNaive(z, w);
  }

  lemma EndUnfolds(z: Zone, v: string, next: Option<string>)
    requires next == AddCalendarDays(v, 1)
    ensures EndOfDayToUtc(z, v) == InstantBefore(z, next)
  {
  }

  lemma InstantBeforeIs(z: Zone, next: Option<string>, w: string, r: int)
    requires next == Some(w) && ToUtc(z, w) == Some(r)
    ensures InstantBefore(z, next) == Some(r - 1)
  {
  }

  lemma EndBefore(z: Zone, v: string, next: Option<string>, r: int)
    requires next == AddCalendarDays(v, 1) && InstantBefore(z, next) == Some(r)
    ensures EndOfDayToUtc(z, v) == Some(r)
  {
    EndUnfolds(z, v, next);
  }

  lemma TomorrowDate(v: string, next: int) returns (w: string)
    requires Convertible(v) && DayNumber(v) < LAST_DAY && next == DayNumber(v) + 1
    ensures AddCalendarDays(v, 1) == Some(w) && ValidDate(w) && DayNumber(w) == next
  {
    w := IsoDate(next);
    AddOnValid(v, 1, next);
    IsoDateRoundTrip(next);
  }

  lemma DayBounds(local: int, day: int, n: int, m: int)
    requires n == day * MS_PER_DAY && m == n + MS_PER_DAY
    ensures local / MS_PER_DAY == day <==> n <= local < m
  {
  }

  // ---- Between changes ----

  /** The offset of a stretch without changes: that of the change before it, or the initial one. */
  predicate StretchIs(z: Zone, lo: int, hi: int, offset: int) {
    || (z.initial == offset && forall j | 0 <= j < |z.changes| :: hi < z.changes[j].at)
    || exists i | 0 <= i < |z.changes| ::
         && z.changes[i].offset == offset && z.changes[i].at <= lo
         && forall j | i < j < |z.changes| :: hi < z.changes[j].at
  }

  lemma StretchOffset(z: Zone, lo: int, hi: int, offset: int, t: int)
    requires StretchIs(z, lo, hi, offset) && lo <= t <= hi
    ensures OffsetAt(z, t) == offset
  {
    if forall j | 0 <= j < |z.changes| :: hi < z.changes[j].at {
      OffsetIsInitial(z, t);
    } else {
      var i :| 0 <= i < |z.changes| && z.changes[i].offset == offset && z.changes[i].at <= lo
               && forall j | i < j < |z.changes| :: hi < z.changes[j].at;
      OffsetIsOfChange(z, t, i);
    }
  }

  /** In a stretch around its midnight a date is converted with the offset of the stretch, however
      many changes there are elsewhere, and the instants of the stretch are shown with it. */
  lemma {:induction false} ConvertsInStretch(z: Zone, bound: int, v: string, n: int, offset: int)
    requires ValidZone(z, bound) && Convertible(v) && n == Midnight(v)
    requires StretchIs(z, n - bound - 1, n + bound, offset)
    ensures ToUtc(z, v) == Some(n - offset)
  {
    MidnightIsNaive(DayNumber(v));
    StretchCandidate(z, bound, n, offset, n - offset);
    ConvertsTo(z, v, n);
  }

  lemma StretchCandidate(z: Zone, bound: int, n: int, offset: int, r: int)
    requires ValidZone(z, bound) && Naive(n) && StretchIs(z, n - bound - 1, n + bound, offset) && r == n - offset
    ensures Candidate(z, n, 4) == r
  {
    NoChangeNear(z, n - bound - 1, n + bound, offset);
    StretchOffset(z, n - bound - 1, n + bound, offset, n - 1);
    StretchOffset(z, n - bound - 1, n + bound, offset, n);
    ResultIs(z, bound, n, n);
  }

  lemma NoChangeNear(z: Zone, lo: int, hi: int, offset: int)
    requires StretchIs(z, lo, hi, offset)
    requires forall i, j | 0 <= i < j < |z.changes| :: z.changes[i].at < z.changes[j].at
    ensures forall i | 0 <= i < |z.changes| :: !(lo < z.changes[i].at <= hi)
  {
  }

  /** A zone that is seven hours behind UTC, and six from spring to autumn. */
  function SummerTime(spring: int, autumn: int): Zone {
    Zone(-25_200_000, [Change(spring, -21_600_000), Change(autumn, -25_200_000)])
  }

  /** There every date more than seven hours away from the changes converts with the offset of its
      season. */
  lemma {:induction false} SeasonsConvert(spring: int, autumn: int, v: string, n: int)
    requires spring < autumn && Convertible(v) && n == Midnight(v)
    ensures n + 25_200_000 < spring ==> ToUtc(SummerTime(spring, autumn), v) == Some(n + 25_200_000)
    ensures spring < n - 25_200_000 && n + 25_200_000 < autumn ==>
              ToUtc(SummerTime(spring, autumn), v) == Some(n + 21_600_000)
    ensures autumn < n - 25_200_000 ==> ToUtc(SummerTime(spring, autumn), v) == Some(n + 25_200_000)
  {
    var z := SummerTime(spring, autumn);
    if n + 25_200_000 < spring || autumn < n - 25_200_000 {
      SeasonConverts(z, spring, autumn, v, n, -25_200_000, n + 25_200_000);
    } else if spring < n - 25_200_000 && n + 25_200_000 < autumn {
      SeasonConverts(z, spring, autumn, v, n, -21_600_000, n + 21_600_000);
    }
  }

  /** The offset of the season of a midnight more than seven hours away from the changes. */
  predicate Season(spring: int, autumn: int, n: int, offset: int) {
    if spring < n - 25_200_000 && n + 25_200_000 < autumn then offset == -21_600_000
    else offset == -25_200_000 && (n + 25_200_000 < spring || autumn < n - 25_200_000)
  }

  lemma SeasonConverts(z: Zone, spring: int, autumn: int, v: string, n: int, offset: int, r: int)
    requires z == SummerTime(spring, autumn) && spring < autumn && Season(spring, autumn, n, offset)
    requires Convertible(v) && n == Midnight(v) && r == n - offset
    ensures ToUtc(z, v) == Some(r)
  {
    SeasonIs(z, spring, autumn, n, offset);
    ConvertsInStretch(z, 25_200_000, v, n, offset);
  }

  lemma SeasonIs(z: Zone, spring: int, autumn: int, n: int, offset: int)
    requires z == SummerTime(spring, autumn) && spring < autumn && Season(spring, autumn, n, offset)
    ensures ValidZone(z, 25_200_000) && StretchIs(z, n - 25_200_001, n + 25_200_000, offset)
  {
    assert z.changes[0].at == spring && z.changes[1].at == autumn;
  }

  /** What is shown, in any season. */
  lemma {:induction false} SeasonsShow(spring: int, autumn: int, t: int)
    requires spring < autumn
    ensures LocalTime(SummerTime(spring, autumn), t) == t - if spring <= t < autumn then 21_600_000 else 25_200_000
  {
    var z := SummerTime(spring, autumn);
    assert z.changes[0].at == spring && z.changes[1].at == autumn;
    if t < spring {
      OffsetIsInitial(z, t);
    } else {
      OffsetIsOfChange(z, t, if t < autumn then 0 else 1);
    }
  }

  /** Reading back the conversion of a date gives the date exactly when its midnight is not
      skipped, or is skipped, by less than a day, at or before the naive instant. */
  lemma {:induction false} DateRoundTripsExactly(z: Zone, bound: int, v: string, at: int)
    requires ValidZone(z, bound) && Convertible(v)
    requires OnlyChange(z, Midnight(v) - bound - 1, Midnight(v) + bound, at)
    ensures ToUtc(z, v).Some?
    ensures UtcToZonedCalendarDate(z, ToUtc(z, v).value) == v
       <==> !Skips(z, Midnight(v), at) || (Midnight(v) >= at && LocalTime(z, at) - ClockBefore(z, at) < MS_PER_DAY)
  {
    ConvertsNaive(z, v);
    ExistsExactly(z, bound, Midnight(v), at);
    ResultDay(z, bound, DayNumber(v), Midnight(v), at);
    ShowsDate(z, ToUtc(z, v).value, v);
  }

  lemma ResultDay(z: Zone, bound: int, day: int, n: int, at: int)
    requires ValidZone(z, bound) && n == day * MS_PER_DAY && Naive(n)
    requires OnlyChange(z, n - bound - 1, n + bound, at)
    ensures LocalDate(z, Candidate(z, n, 4)).year >= 1
    ensures LocalTime(z, Candidate(z, n, 4)) / MS_PER_DAY == day
       <==> Exists(z, n) || (n >= at && OffsetAt(z, at) - OffsetAt(z, at - 1) < MS_PER_DAY)
  {
    LoopFindsMidnight(z, bound, n, at);
    var r := Candidate(z, n, 4);
    DayBounds(LocalTime(z, r), day, n, n + MS_PER_DAY);
    OffsetValid(z, bound, at);
    OffsetValid(z, bound, at - 1);
    CommonEra(z, r, n);
  }

  lemma CommonEra(z: Zone, t: int, n: int)
    requires Naive(n) && LocalTime(z, t) > n - 2 * MS_PER_DAY
    ensures LocalDate(z, t).year >= 1
  {
    var day := LocalTime(z, t) / MS_PER_DAY;
    assert day >= FIRST_DAY;
    YearBound(CivilOf(day), 100);
  }

  /** A zone that goes from five hours behind UTC to four at midnight of v. */
  function SkipsMidnight(v: string): Zone
    requires ValidDate(v)
  {
    Zone(-18_000_000, [Change(Midnight(v) + 18_000_000, -14_400_000)])
  }

  lemma MidnightIsSkipped(v: string, z: Zone, n: int, at: int)
    requires ValidDate(v) && z == SkipsMidnight(v) && n == Midnight(v) && at == n + 18_000_000
    ensures ValidZone(z, 18_000_000) && OnlyChange(z, n - 18_000_001, n + 18_000_000, at) && Skips(z, n, at)
    ensures OffsetAt(z, at - 1) == -18_000_000 && OffsetAt(z, at) == -14_400_000
  {
    assert z.changes[0] == Change(at, -14_400_000) && z.changes[..0] == [];
    assert OffsetAt(z.(changes := []), at - 1) == -18_000_000;
  }

  /** There the conversion of v shows 23:00 of the day before, and reads back as another date. */
  lemma {:induction false} SkippedMidnightGoesBack(v: string)
    requires Convertible(v)
    ensures ValidZone(SkipsMidnight(v), 18_000_000) && ToUtc(SkipsMidnight(v), v).Some?
    ensures LocalTime(SkipsMidnight(v), ToUtc(SkipsMidnight(v), v).value) == Midnight(v) - 3_600_000
    ensures UtcToZonedCalendarDate(SkipsMidnight(v), ToUtc(SkipsMidnight(v), v).value) != v
  {
    var z, n, at := SkipsMidnight(v), Midnight(v), Midnight(v) + 18_000_000;
    MidnightIsSkipped(v, z, n, at);
    DateRoundTripsExactly(z, 18_000_000, v, at);
    SkippedShows(z, v, n, at);
  }

  lemma SkippedShows(z: Zone, v: string, n: int, at: int)
    requires Convertible(v) && n == Midnight(v) < at && ValidZone(z, 18_000_000)
    requires OnlyChange(z, n - 18_000_001, n + 18_000_000, at) && Skips(z, n, at)
    requires OffsetAt(z, at - 1) == -18_000_000 && OffsetAt(z, at) == -14_400_000
    ensures ToUtc(z, v).Some? && LocalTime(z, ToUtc(z, v).value) == n - 3_600_000
  {
    ConvertsNaive(z, v);
    ExistsExactly(z, 18_000_000, n, at);
    LoopFindsMidnight(z, 18_000_000, n, at);
  }

  /** Where midnights cut the time line, later instants are on later or equal days. */
  lemma DaysInOrder(z: Zone, s: int, t: int, u: int)
    requires s <= t && Cuts(z, u, LocalTime(z, s) / MS_PER_DAY * MS_PER_DAY)
    ensures LocalTime(z, s) / MS_PER_DAY <= LocalTime(z, t) / MS_PER_DAY
  {
    var day := LocalTime(z, s) / MS_PER_DAY;
    assert LocalTime(z, s) >= day * MS_PER_DAY;
    assert LocalTime(z, t) >= day * MS_PER_DAY;
  }

  /** A zone that goes from five hours behind UTC to six half an hour into v. */
  function RepeatsMidnight(v: string): Zone
    requires ValidDate(v)
  {
    Zone(-18_000_000, [Change(Midnight(v) + 19_800_000, -21_600_000)])
  }

  lemma RepeatsMidnightGoesBack(v: string, z: Zone, n: int, at: int)
    requires ValidDate(v) && z == RepeatsMidnight(v) && n == Midnight(v) && at == n + 19_800_000
    ensures ValidZone(z, 21_600_000) && OnlyChange(z, n - 21_600_001, n + 21_600_000, at) && GoesBack(z, n, at)
  {
    assert z.changes[0] == Change(at, -21_600_000) && z.changes[..0] == [];
    assert OffsetAt(z.(changes := []), at - 1) == -18_000_000;
  }
}
