/** Days in the audit panel: the groups under day headings and the ranges of the quick presets,
    of src/components/StaffAuditPanel.tsx. */
module AuditDays {
  import opened AuditPaging
  import opened CalendarDates
  import opened Decimal
  import opened Gregorian
  import opened Wrappers
  import opened ZonedCalendar

  /** `dateInputValue`: the local date as the parts of Intl print it, the year unpadded. */
  function DateInputValue(z: Zone, t: int): string {
    var p := TimeZoneParts(z, t);
    Dec(p.year) + ("-" + (Pad2(p.month) + ("-" + Pad2(p.day))))
  }

  datatype Group = Group(key: string, items: seq<Entry>)

  /** One step of the reduction: the entry joins the last group or begins a new one. */
  function Joined(groups: seq<Group>, key: string, item: Entry): seq<Group> {
    if groups != [] && groups[|groups| - 1].key == key then
      groups[|groups| - 1 := Group(key, groups[|groups| - 1].items + [item])]
    else groups + [Group(key, [item])]
  }

  function Groups(key: Entry -> string, items: seq<Entry>): seq<Group> {
    if items == [] then []
    else
      var last := items[|items| - 1];
      Joined(Groups(key, items[..|items| - 1]), key(last), last)
  }

  method DayGroups(items: seq<Entry>, z: Zone) returns (groups: seq<Group>)
    ensures groups == Groups(DayKey(z), items)
  {
    groups := [];
    for i := 0 to |items|
      invariant groups == Groups(DayKey(z), items[..i])
    {
      var item := items[i];
      var key := DateInputValue(z, item.occurredAt);
      assert items[..i + 1][..i] == items[..i];
      if groups != [] && groups[|groups| - 1].key == key {
        groups := groups[|groups| - 1 := Group(key, groups[|groups| - 1].items + [item])];
      } else {
        groups := groups + [Group(key, [item])];
      }
    }
    assert items[..|items|] == items;
  }

  function DayKey(z: Zone): Entry -> string {
    (item: Entry) => DateInputValue(z, item.occurredAt)
  }

  function Ungrouped(groups: seq<Group>): seq<Entry> {
    if groups == [] then [] else Ungrouped(groups[..|groups| - 1]) + groups[|groups| - 1].items
  }

  // ---- What the groups are ----

  /** Grouping loses, adds and reorders nothing. */
  lemma {:induction false} GroupsKeepItems(key: Entry -> string, items: seq<Entry>)
    ensures Ungrouped(Groups(key, items)) == items
  {
    if items != [] {
      GroupsKeepItems(key, items[..|items| - 1]);
      var groups, last := Groups(key, items[..|items| - 1]), items[|items| - 1];
      JoinedKeepsItems(groups, key(last), last, Joined(groups, key(last), last));
      assert items == items[..|items| - 1] + [last];
    }
  }

  lemma JoinedKeepsItems(groups: seq<Group>, key: string, item: Entry, joined: seq<Group>)
    requires joined == Joined(groups, key, item)
    ensures Ungrouped(joined) == Ungrouped(groups) + [item]
  {
    if |joined| == |groups| {
      assert joined[..|groups| - 1] == groups[..|groups| - 1];
    } else {
      assert joined[..|groups|] == groups;
    }
  }

  /** Every group holds entries of its day, and the next group is of another day. */
  ghost predicate WellGrouped(groups: seq<Group>, key: Entry -> string) {
    && (forall g | 0 <= g < |groups| ::
          groups[g].items != [] && forall i | 0 <= i < |groups[g].items| :: key(groups[g].items[i]) == groups[g].key)
    && (forall g | 0 < g < |groups| :: groups[g - 1].key != groups[g].key)
  }

  lemma {:induction false} GroupsAreDays(key: Entry -> string, items: seq<Entry>)
    ensures WellGrouped(Groups(key, items), key)
    ensures items != [] ==>
      var groups := Groups(key, items);
      groups != [] && groups[|groups| - 1].key == key(items[|items| - 1])
  {
    if items != [] {
      GroupsAreDays(key, items[..|items| - 1]);
    }
  }

  /** The headings, one a group. */
  predicate OnceEach(groups: seq<Group>) {
    forall g, h | 0 <= g < h < |groups| :: groups[g].key != groups[h].key
  }

  /** The entries of a day stand together. */
  ghost predicate Contiguous(key: Entry -> string, items: seq<Entry>) {
    forall i, j, k | 0 <= i < j < k < |items| :: key(items[i]) == key(items[k]) ==> key(items[j]) == key(items[k])
  }

  ghost predicate HasHeading(groups: seq<Group>, heading: string) {
    exists g | 0 <= g < |groups| :: groups[g].key == heading
  }

  /** The headings are the days of the entries. */
  lemma {:induction false} HeadingsAreKeys(key: Entry -> string, items: seq<Entry>, heading: string)
    ensures HasHeading(Groups(key, items), heading) <==> exists i | 0 <= i < |items| :: key(items[i]) == heading
  {
    if items != [] {
      var front, last := items[..|items| - 1], items[|items| - 1];
      HeadingsAreKeys(key, front, heading);
      JoinedHeadings(Groups(key, front), key(last), last, heading);
      if i :| 0 <= i < |items| && key(items[i]) == heading {
        assert i < |front| ==> front[i] == items[i];
      }
    }
  }

  lemma JoinedHeadings(groups: seq<Group>, key: string, item: Entry, heading: string)
    ensures HasHeading(Joined(groups, key, item), heading) <==> HasHeading(groups, heading) || heading == key
  {
    var joined := Joined(groups, key, item);
    assert joined[|joined| - 1].key == key;
    forall g | 0 <= g < |groups| ensures joined[g].key == groups[g].key {
    }
  }

  lemma JoinedOnce(groups: seq<Group>, key: string, item: Entry)
    ensures OnceEach(Joined(groups, key, item))
       <==> OnceEach(groups) && (HasHeading(groups, key) ==> groups[|groups| - 1].key == key)
  {
    var joined := Joined(groups, key, item);
    forall g | 0 <= g < |groups| ensures joined[g].key == groups[g].key {
    }
    if OnceEach(joined) && HasHeading(groups, key) {
      var g :| 0 <= g < |groups| && groups[g].key == key;
      assert joined[|joined| - 1].key == key;
    }
  }

  lemma ContiguousFront(key: Entry -> string, items: seq<Entry>)
    requires items != [] && Contiguous(key, items)
    ensures Contiguous(key, items[..|items| - 1])
  {
    var front := items[..|items| - 1];
    assert forall i | 0 <= i < |front| :: front[i] == items[i];
  }

  /** No two headings are of one day exactly if the entries of each day stand together. */
  lemma {:induction false} OneHeadingExactly(key: Entry -> string, items: seq<Entry>)
    ensures OnceEach(Groups(key, items)) <==> Contiguous(key, items)
  {
    if items != [] {
      var n := |items| - 1;
      var front, last := items[..n], items[n];
      assert items == front + [last];
      OneHeadingExactly(key, front);
      GroupsAreDays(key, front);
      HeadingsAreKeys(key, front, key(last));
      JoinedOnce(Groups(key, front), key(last), last);
      if Contiguous(key, items) {
        ContiguousFront(key, items);
        LastStandsTogether(key, front, last, items);
      } else if OnceEach(Groups(key, items)) {
        NotSplit(key, front, last, items);
      }
    }
  }

  lemma LastStandsTogether(key: Entry -> string, front: seq<Entry>, last: Entry, items: seq<Entry>)
    requires items == front + [last] && Contiguous(key, items)
    ensures (exists i | 0 <= i < |front| :: key(front[i]) == key(last)) ==> key(front[|front| - 1]) == key(last)
  {
    var n := |front|;
    if i :| 0 <= i < n && key(front[i]) == key(last) {
      assert items[i] == front[i] && items[n] == last && items[n - 1] == front[n - 1];
    }
  }

  lemma NotSplit(key: Entry -> string, front: seq<Entry>, last: Entry, items: seq<Entry>)
    requires items == front + [last] && Contiguous(key, front)
    requires (exists i | 0 <= i < |front| :: key(front[i]) == key(last)) ==> key(front[|front| - 1]) == key(last)
    ensures Contiguous(key, items)
  {
    forall i, j, k | 0 <= i < j < k < |items| && key(items[i]) == key(items[k])
      ensures key(items[j]) == key(items[k])
    {
      assert front[i] == items[i] && front[j] == items[j];
    }
  }

  // ---- Days of a zone ----

  function LocalDay(z: Zone, t: int): int {
    LocalTime(z, t) / MS_PER_DAY
  }

  function DateText(c: Civil): string
    requires ValidCivil(c)
  {
    Dec(EraYear(c.year)) + ("-" + (Pad2(c.month) + ("-" + Pad2(c.day))))
  }

  lemma TextOf(z: Zone, t: int)
    ensures ValidCivil(CivilOf(LocalDay(z, t))) && DateInputValue(z, t) == DateText(CivilOf(LocalDay(z, t)))
  {
  }

  lemma Pad2Reads(n: nat)
    requires n < 100
    ensures |Pad2(n)| == 2 && AllDigits(Pad2(n)) && Nat(Pad2(n)) == n
  {
    assert Pow10(2) == 10 * Pow10(1) && Pow10(1) == 10 * Pow10(0);
    FixedNumeral(n, 2);
  }

  lemma YearAt(year: nat, rest: string)
    ensures DigitRun(Dec(year) + ("-" + rest)) == |Dec(year)|
  {
    DecRoundTrip(year);
    DigitRunIs(Dec(year) + ("-" + rest), |Dec(year)|);
  }

  lemma Parts2(a: string, b: string, c: string, d: string)
    requires |a| == |c| == 2 && a + ("-" + b) == c + ("-" + d)
    ensures a == c && b == d
  {
    var s, t := a + ("-" + b), c + ("-" + d);
    assert s[..2] == a && t[..2] == c && s[3..] == b && t[3..] == d;
  }

  lemma YearParts(y: nat, a: string, w: nat, b: string)
    requires Dec(y) + ("-" + a) == Dec(w) + ("-" + b)
    ensures y == w && a == b
  {
    var s := Dec(y) + ("-" + a);
    YearAt(y, a);
    YearAt(w, b);
    var k := DigitRun(s);
    assert s[..k] == Dec(y) && s[k + 1..] == a;
    assert (Dec(w) + ("-" + b))[..k] == Dec(w) && (Dec(w) + ("-" + b))[k + 1..] == b;
    DecInjective(y, w);
  }

  /** A heading names the day, and the year within its era. */
  lemma DateTextReads(c: Civil, d: Civil)
    requires ValidCivil(c) && ValidCivil(d) && DateText(c) == DateText(d)
    ensures EraYear(c.year) == EraYear(d.year) && c.month == d.month && c.day == d.day
  {
    YearParts(EraYear(c.year), Pad2(c.month) + ("-" + Pad2(c.day)),
              EraYear(d.year), Pad2(d.month) + ("-" + Pad2(d.day)));
    DaysFit(c);
    DaysFit(d);
    Pad2Reads(c.month);
    Pad2Reads(d.month);
    Parts2(Pad2(c.month), Pad2(c.day), Pad2(d.month), Pad2(d.day));
    Pad2Reads(c.day);
    Pad2Reads(d.day);
  }

  lemma DaysFit(c: Civil)
    requires ValidCivil(c)
    ensures c.month < 100 && c.day < 100
  {
  }

  /** The same date in the years before and after the year 1, which Intl numbers alike: 1 and 0, 2 and
      -1, and so on. */
  predicate AcrossEras(c: Civil, d: Civil) {
    c.year + d.year == 1 && c.month == d.month && c.day == d.day
  }

  /** Two instants have one key exactly if they fall on one local day, or on the same date of years that
      mirror each other across the eras. */
  lemma {:induction false} KeysAgreeExactly(z: Zone, t: int, u: int)
    ensures DateInputValue(z, t) == DateInputValue(z, u)
       <==> LocalDay(z, t) == LocalDay(z, u) || AcrossEras(CivilOf(LocalDay(z, t)), CivilOf(LocalDay(z, u)))
  {
    TextOf(z, t);
    TextOf(z, u);
    var c, d := CivilOf(LocalDay(z, t)), CivilOf(LocalDay(z, u));
    if DateText(c) == DateText(d) {
      DateTextReads(c, d);
      assert c.year == d.year || c.year + d.year == 1;
      assert DayOf(c) == LocalDay(z, t) && DayOf(d) == LocalDay(z, u);
    }
  }

  /** So from the year 1 on a key names a day. */
  lemma {:induction false} KeyNamesDay(z: Zone, t: int, u: int)
    requires CivilOf(LocalDay(z, t)).year >= 1 && CivilOf(LocalDay(z, u)).year >= 1
    ensures DateInputValue(z, t) == DateInputValue(z, u) <==> LocalDay(z, t) == LocalDay(z, u)
  {
    KeysAgreeExactly(z, t, u);
  }

  // ---- Keys and dates ----

  lemma PaddedExactly(y: nat)
    ensures PadStart(Dec(y), 4) == Dec(y) <==> y >= 1000
    ensures y < 1000 ==> |PadStart(Dec(y), 4)| > |Dec(y)|
  {
    assert Pow10(3) == 1000 && Pow10(4) == 10000;
    DecRoundTrip(y);
    if y < 1000 {
      DecLength(y, 3);
      FixedNumeral(y, 4);
    } else {
      NatBound(Dec(y));
      if |Dec(y)| <= 3 {
        PowMonotone(|Dec(y)|, 3);
      }
    }
  }

  lemma SameRest(a: string, b: string, rest: string)
    ensures a + rest == b + rest <==> a == b
  {
    assert |a| == |b| && a + rest == b + rest ==> a == (a + rest)[..|a|] == (b + rest)[..|b|] == b;
  }

  /** The key of an entry is the date that the calendar shows for it exactly from the year 1000 on
      (of its era): before, the one pads the year and the other does not. */
  lemma {:induction false} KeyIsDateExactly(z: Zone, t: int)
    ensures DateInputValue(z, t) == UtcToZonedCalendarDate(z, t) <==> TimeZoneParts(z, t).year >= 1000
  {
    var p := TimeZoneParts(z, t);
    var rest := "-" + (Pad2(p.month) + ("-" + Pad2(p.day)));
    assert UtcToZonedCalendarDate(z, t) == PadStart(Dec(p.year), 4) + rest;
    PaddedExactly(p.year);
    SameRest(Dec(p.year), PadStart(Dec(p.year), 4), rest);
  }

  /** A year of four digits. */
  predicate FourDigitYear(z: Zone, t: int) {
    1000 <= CivilOf(LocalDay(z, t)).year <= 9999
  }

  /** In those years the key is a valid date, that of the local day. */
  lemma {:induction false} KeyReads(z: Zone, t: int)
    requires FourDigitYear(z, t)
    ensures ValidDate(DateInputValue(z, t)) && DayNumber(DateInputValue(z, t)) == LocalDay(z, t)
  {
    var day := LocalDay(z, t);
    KeyIsDateExactly(z, t);
    YearBound(CivilOf(day), 1000);
    YearBound(CivilOf(day), 10000);
    assert UtcToZonedCalendarDate(z, t) == IsoDate(day);
    IsoDateRoundTrip(day);
  }

  /** So the entries under a heading are those between the conversions of its date, the beginning
      and the end of the day, where these begin the days right. */
  lemma {:induction false} HeadingIsInterval(z: Zone, bound: int, v: string, n: int, m: int,
                                               at: int, atNext: int, t: int)
    requires ValidZone(z, bound) && Convertible(v) && DayNumber(v) < LAST_DAY
    requires n == Midnight(v) && m == n + MS_PER_DAY
    requires OnlyChange(z, n - bound - 1, n + bound, at) && BeginsDay(z, n, at)
    requires OnlyChange(z, m - bound - 1, m + bound, atNext) && BeginsDay(z, m, atNext)
    requires FourDigitYear(z, t)
    ensures ToUtc(z, v).Some? && EndOfDayToUtc(z, v).Some?
    ensures DateInputValue(z, t) == v <==> ToUtc(z, v).value <= t <= EndOfDayToUtc(z, v).value
  {
    DaysTile(z, bound, v, n, m, at, atNext, t);
    KeyIsDateExactly(z, t);
  }

  /** And a preset shows the headings of exactly its days, in the order of the strings. */
  lemma {:induction false} PresetShows(z: Zone, today: string, days: int, t: int)
    requires ValidDate(today) && days >= 1 && DayNumber(today) + 1 - days >= FIRST_DAY && FourDigitYear(z, t)
    ensures PresetFrom(today, days).Some?
    ensures !LexLess(DateInputValue(z, t), PresetFrom(today, days).value) && !LexLess(today, DateInputValue(z, t))
       <==> DayNumber(today) - days < LocalDay(z, t) <= DayNumber(today)
  {
    KeyReads(z, t);
    PresetCovers(today, days, DateInputValue(z, t));
  }

  /** The entries come latest first, from the year 1 on. */
  predicate LatestFirst(z: Zone, items: seq<Entry>) {
    && (forall i | 0 <= i < |items| :: CivilOf(LocalDay(z, items[i].occurredAt)).year >= 1)
    && (forall i, j | 0 <= i < j < |items| :: items[i].occurredAt >= items[j].occurredAt)
  }

  /** The midnight that begins the day of an instant cuts the time line: the zone does not jump
      back across it. */
  ghost predicate DayBeginsOnce(z: Zone, t: int) {
    exists u :: Cuts(z, u, LocalDay(z, t) * MS_PER_DAY)
  }

  lemma EarlierDay(z: Zone, s: int, t: int)
    requires s <= t && DayBeginsOnce(z, s)
    ensures LocalDay(z, s) <= LocalDay(z, t)
  {
    var u :| Cuts(z, u, LocalDay(z, s) * MS_PER_DAY);
    DaysInOrder(z, s, t, u);
  }

  /** Latest first, where no midnight of theirs is crossed backwards, every calendar day of the
      entries has exactly one heading. */
  lemma {:induction false} OneHeadingPerDay(z: Zone, items: seq<Entry>)
    requires LatestFirst(z, items)
    requires forall i | 0 <= i < |items| :: DayBeginsOnce(z, items[i].occurredAt)
    ensures OnceEach(Groups(DayKey(z), items))
  {
    forall i, j, k | 0 <= i < j < k < |items| && DayKey(z)(items[i]) == DayKey(z)(items[k])
      ensures DayKey(z)(items[j]) == DayKey(z)(items[k])
    {
      var a, b, c := items[i].occurredAt, items[j].occurredAt, items[k].occurredAt;
      EarlierDay(z, c, b);
      EarlierDay(z, b, a);
      KeyNamesDay(z, a, c);
      KeyNamesDay(z, b, c);
    }
    OneHeadingExactly(DayKey(z), items);
  }

  /** So where, at each of those midnights, the one change nearby does not go back across it. */
  lemma {:induction false} OneHeadingUnlessBack(z: Zone, bound: int, items: seq<Entry>, at: seq<int>)
    requires ValidZone(z, bound) && LatestFirst(z, items) && |at| == |items|
    requires forall i | 0 <= i < |items| ::
               var n := LocalDay(z, items[i].occurredAt) * MS_PER_DAY;
               OnlyChange(z, n - bound - 1, n + bound, at[i]) && !GoesBack(z, n, at[i])
    ensures OnceEach(Groups(DayKey(z), items))
  {
    forall i | 0 <= i < |items| ensures DayBeginsOnce(z, items[i].occurredAt) {
      CutExistsExactly(z, bound, LocalDay(z, items[i].occurredAt) * MS_PER_DAY, at[i]);
    }
    OneHeadingPerDay(z, items);
  }

  predicate OfTwoDays(z: Zone, day: int, items: seq<Entry>) {
    forall i | 0 <= i < |items| :: day - 1 <= LocalDay(z, items[i].occurredAt) <= day
  }

  /** Entries of a day and of the day before it, latest first, of which one gets two headings. */
  ghost predicate Splits(z: Zone, day: int, items: seq<Entry>) {
    LatestFirst(z, items) && OfTwoDays(z, day, items) && !OnceEach(Groups(DayKey(z), items))
  }

  /** Two neighbouring days can be split exactly if the change between them takes the clock back
      across midnight. */
  lemma {:induction false} SplitsExactly(z: Zone, bound: int, day: int, n: int, at: int)
    requires ValidZone(z, bound) && n == day * MS_PER_DAY && CivilOf(day - 1).year >= 1
    requires OnlyChange(z, n - bound - 1, n + bound, at)
    ensures (exists items :: Splits(z, day, items)) <==> GoesBack(z, n, at)
  {
    if GoesBack(z, n, at) {
      var items := SplitEntries(z, bound, day, n, at);
      assert Splits(z, day, items);
    } else {
      CutExistsExactly(z, bound, n, at);
      forall items: seq<Entry> ensures !Splits(z, day, items) {
        if LatestFirst(z, items) && OfTwoDays(z, day, items) {
          NeighboursTogether(z, day, items);
        }
      }
    }
  }

  lemma AcrossMidnight(z: Zone, u: int, day: int, s: int, t: int)
    requires Cuts(z, u, day * MS_PER_DAY) && s <= t && LocalDay(z, s) >= day
    ensures LocalDay(z, t) >= day
  {
    assert LocalTime(z, s) >= day * MS_PER_DAY;
    assert LocalTime(z, t) >= day * MS_PER_DAY;
  }

  lemma NeighboursTogether(z: Zone, day: int, items: seq<Entry>)
    requires exists u :: Cuts(z, u, day * MS_PER_DAY)
    requires LatestFirst(z, items) && OfTwoDays(z, day, items)
    ensures OnceEach(Groups(DayKey(z), items))
  {
    var u :| Cuts(z, u, day * MS_PER_DAY);
    forall i, j, k | 0 <= i < j < k < |items| && DayKey(z)(items[i]) == DayKey(z)(items[k])
      ensures DayKey(z)(items[j]) == DayKey(z)(items[k])
    {
      var a, b, c := items[i].occurredAt, items[j].occurredAt, items[k].occurredAt;
      KeyNamesDay(z, a, c);
      KeyNamesDay(z, b, c);
      if LocalDay(z, c) == day {
        AcrossMidnight(z, u, day, c, b);
      } else if LocalDay(z, b) == day {
        AcrossMidnight(z, u, day, b, a);
      }
    }
    OneHeadingExactly(DayKey(z), items);
  }

  lemma SplitEntries(z: Zone, bound: int, day: int, n: int, at: int) returns (items: seq<Entry>)
    requires ValidZone(z, bound) && n == day * MS_PER_DAY && CivilOf(day - 1).year >= 1
    requires OnlyChange(z, n - bound - 1, n + bound, at) && GoesBack(z, n, at)
    ensures Splits(z, day, items)
  {
    var first, between, second := BackDays(z, bound, day, n, at);
    items := EntriesAt(first, between, second);
    SplitByDay(z, day, items, first, between, second);
  }

  lemma BackDays(z: Zone, bound: int, day: int, n: int, at: int) returns (first: int, between: int, second: int)
    requires ValidZone(z, bound) && n == day * MS_PER_DAY
    requires OnlyChange(z, n - bound - 1, n + bound, at) && GoesBack(z, n, at)
    ensures first < between < second
    ensures LocalDay(z, first) == day == LocalDay(z, second) && LocalDay(z, between) == day - 1
  {
    first, between, second := BackInstants(z, bound, n, at);
    LastMillisecond(n, day);
  }

  lemma EntriesAt(first: int, between: int, second: int) returns (items: seq<Entry>)
    ensures |items| == 3 && items[0].occurredAt == second
    ensures items[1].occurredAt == between && items[2].occurredAt == first
  {
    items := [Entry("late", second), Entry("between", between), Entry("early", first)];
  }

  lemma SplitByDay(z: Zone, day: int, items: seq<Entry>, first: int, between: int, second: int)
    requires first < between < second && CivilOf(day - 1).year >= 1
    requires LocalDay(z, first) == day == LocalDay(z, second) && LocalDay(z, between) == day - 1
    requires |items| == 3 && items[0].occurredAt == second
    requires items[1].occurredAt == between && items[2].occurredAt == first
    ensures Splits(z, day, items)
  {
    DayAfter(day);
    LatestOfTwoDays(z, day, items);
    TwoHeadings(z, items, first, between, second);
  }

  lemma LatestOfTwoDays(z: Zone, day: int, items: seq<Entry>)
    requires OfTwoDays(z, day, items) && CivilOf(day - 1).year >= 1 && CivilOf(day).year >= 1
    requires forall i, j | 0 <= i < j < |items| :: items[i].occurredAt >= items[j].occurredAt
    ensures LatestFirst(z, items)
  {
    forall i | 0 <= i < |items| ensures CivilOf(LocalDay(z, items[i].occurredAt)).year >= 1 {
      EitherDay(LocalDay(z, items[i].occurredAt), day);
    }
  }

  lemma EitherDay(d: int, day: int)
    requires day - 1 <= d <= day && CivilOf(day - 1).year >= 1 && CivilOf(day).year >= 1
    ensures CivilOf(d).year >= 1
  {
  }

  lemma TwoHeadings(z: Zone, items: seq<Entry>, first: int, between: int, second: int)
    requires CivilOf(LocalDay(z, first)).year >= 1 && CivilOf(LocalDay(z, between)).year >= 1
    requires LocalDay(z, first) == LocalDay(z, second) != LocalDay(z, between)
    requires |items| == 3 && items[0].occurredAt == second
    requires items[1].occurredAt == between && items[2].occurredAt == first
    ensures !OnceEach(Groups(DayKey(z), items))
  {
    KeyNamesDay(z, second, first);
    KeyNamesDay(z, between, first);
    NotContiguous(DayKey(z), items);
    OneHeadingExactly(DayKey(z), items);
  }

  lemma NotContiguous(key: Entry -> string, items: seq<Entry>)
    requires |items| == 3 && key(items[0]) == key(items[2]) != key(items[1])
    ensures !Contiguous(key, items)
  {
  }

  lemma LastMillisecond(n: int, day: int)
    requires n == day * MS_PER_DAY
    ensures n / MS_PER_DAY == day && (n - 1) / MS_PER_DAY == day - 1
  {
  }

  lemma DayAfter(day: int)
    requires CivilOf(day - 1).year >= 1
    ensures CivilOf(day).year >= 1
  {
    YearBound(CivilOf(day - 1), 1);
    YearBound(CivilOf(day), 1);
  }

  /** In particular for every date: in a zone that goes back from half past midnight, that day
      gets two headings. */
  lemma {:induction false} BackAtMidnightSplits(v: string)
    requires ValidDate(v)
    ensures exists items :: Splits(RepeatsMidnight(v), DayNumber(v), items)
  {
    var z, n, at := RepeatsMidnight(v), Midnight(v), Midnight(v) + 19_800_000;
    RepeatsMidnightGoesBack(v, z, n, at);
    BeforeIsCommon(v);
    SplitsExactly(z, 21_600_000, DayNumber(v), n, at);
  }

  lemma BeforeIsCommon(v: string)
    requires ValidDate(v)
    ensures CivilOf(DayNumber(v) - 1).year >= 1
  {
    ValidRange(v);
    YearBound(CivilOf(DayNumber(v) - 1), 1);
  }

  // ---- Quick ranges ----

  const PRESETS: seq<int> := [1, 7, 30]

  /** The first date of a preset that ends today. */
  function PresetFrom(today: string, days: int): Option<string> {
    ShiftCalendarDate(today, -(days - 1))
  }

  /** The first preset that begins where the range does; `starts` gives where each begins. */
  function FindPreset(from: string, starts: seq<Option<string>>, k: nat): Option<int>
    requires k <= |starts| == |PRESETS|
    decreases |starts| - k
  {
    if k == |starts| then None
    else if starts[k] == Some(from) then Some(PRESETS[k])
    else FindPreset(from, starts, k + 1)
  }

  function PresetStarts(today: string): seq<Option<string>> {
    seq(|PRESETS|, i requires 0 <= i < |PRESETS| => PresetFrom(today, PRESETS[i]))
  }

  /** The preset whose range is the applied one, by its days. */
  function ActivePreset(from: string, to: string, today: string): Option<int> {
    if to != today then None
    else FindPreset(from, PresetStarts(today), 0)
  }

  lemma PresetStart(today: string, days: int, n: int)
    requires ValidDate(today) && days >= 1 && n == DayNumber(today) + 1 - days && n >= FIRST_DAY
    ensures PresetFrom(today, days) == Some(IsoDate(n)) && n <= LAST_DAY
  {
    ValidRange(today);
    AuditOnValid(today, -(days - 1), n);
  }

  /** A preset of so many days covers exactly so many calendar dates: those of the last day
      numbers up to today, in the order of the strings. */
  lemma {:induction false} PresetCovers(today: string, days: int, v: string)
    requires ValidDate(today) && days >= 1 && DayNumber(today) + 1 - days >= FIRST_DAY && ValidDate(v)
    ensures PresetFrom(today, days).Some?
    ensures !LexLess(v, PresetFrom(today, days).value) && !LexLess(today, v)
       <==> DayNumber(today) - days < DayNumber(v) <= DayNumber(today)
  {
    var n := DayNumber(today) + 1 - days;
    PresetStart(today, days, n);
    IsoDateRoundTrip(n);
    DateOrder(v, IsoDate(n));
    DateOrder(today, v);
  }

  lemma DateOrder(a: string, b: string)
    requires ValidDate(a) && ValidDate(b)
    ensures LexLess(a, b) <==> DayNumber(a) < DayNumber(b)
  {
    LexIsCalendarOrder(a, b);
    DayOfOrder(Fields(a), Fields(b));
  }

  lemma {:induction false} FindPresetExactly(from: string, starts: seq<Option<string>>, k: nat, p: nat)
    requires k <= p < |starts| == |PRESETS| && forall i, j | 0 <= i < j < |starts| :: starts[i] != starts[j]
    ensures FindPreset(from, starts, k) == Some(PRESETS[p]) <==> starts[p] == Some(from)
    decreases |starts| - k
  {
    if k < p {
      FindPresetExactly(from, starts, k + 1, p);
    } else if k + 1 < |starts| && starts[k] != Some(from) {
      NotFoundLater(from, starts, k + 1, p);
    }
  }

  lemma {:induction false} NotFoundLater(from: string, starts: seq<Option<string>>, k: nat, p: nat)
    requires p < k <= |starts| == |PRESETS|
    ensures FindPreset(from, starts, k) != Some(PRESETS[p])
    decreases |starts| - k
  {
    if k < |starts| {
      NotFoundLater(from, starts, k + 1, p);
      assert PRESETS[p] < PRESETS[k];
    }
  }

  lemma StartsDiffer(today: string, p: int, q: int, m: int, n: int)
    requires ValidDate(today) && 1 <= p < q
    requires m == DayNumber(today) + 1 - p && n == DayNumber(today) + 1 - q && n >= FIRST_DAY
    ensures PresetFrom(today, p) != PresetFrom(today, q)
  {
    PresetStart(today, p, m);
    PresetStart(today, q, n);
    IsoDateRoundTrip(m);
    IsoDateRoundTrip(n);
  }

  lemma PresetsGrow(i: nat, j: nat)
    requires i < j < |PRESETS|
    ensures 1 <= PRESETS[i] < PRESETS[j] <= 30
  {
  }

  /** The active preset is the one that was applied, and no other. */
  lemma {:induction false} ActivePresetExactly(today: string, from: string, to: string, p: nat)
    requires ValidDate(today) && DayNumber(today) - 29 >= FIRST_DAY && p < |PRESETS|
    ensures ActivePreset(from, to, today) == Some(PRESETS[p])
       <==> to == today && PresetFrom(today, PRESETS[p]) == Some(from)
  {
    var starts := PresetStarts(today);
    forall i, j | 0 <= i < j < |PRESETS| ensures starts[i] != starts[j] {
      PresetsGrow(i, j);
      StartsDiffer(today, PRESETS[i], PRESETS[j], DayNumber(today) + 1 - PRESETS[i], DayNumber(today) + 1 - PRESETS[j]);
    }
    FindPresetExactly(from, starts, 0, p);
  }
}
