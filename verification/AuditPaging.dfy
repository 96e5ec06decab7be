/** Paging through the audit log: `load`, `loadPrevious` and the filters of
    src/components/StaffAuditPanel.tsx, with the buttons that the panel offers in each state. */
module AuditPaging {
  import opened Wrappers

  type Cursor = string

  datatype Entry = Entry(eventKey: string, occurredAt: int)

  datatype Page = Page(items: seq<Entry>, nextCursor: Option<Cursor>)

  datatype Filter = Filter(from: string, to: string, category: string, outcome: string)

  datatype Query = Query(filter: Filter, cursor: Option<Cursor>)

  /** A refusal may be for lack of permission; an aborted fetch reports nothing. */
  datatype Reply = Loaded(page: Page) | Refused(message: string, forbidden: bool) | Aborted

  datatype Panel = Panel(requestNumber: nat, data: Option<Page>, query: Query, loading: bool,
                         error: Option<string>, accessDenied: bool)

  const INITIAL_QUERY: Query := Query(Filter("", "", "", ""), None)
  const INITIAL_PANEL: Panel := Panel(0, None, INITIAL_QUERY, true, None, false)

  function Start(p: Panel): Panel {
    p.(requestNumber := p.requestNumber + 1, loading := true, error := None)
  }

  /** The page replaces what is shown, or follows it if it was asked for with a cursor. */
  function Shown(data: Option<Page>, cursor: Option<Cursor>, page: Page): Page {
    if cursor.Some? && data.Some? then page.(items := data.value.items + page.items) else page
  }

  /** The reply to a load; a superseded one has been aborted and changes nothing but, if it was
      refused all the same, the error. */
  function Settle(p: Panel, number: nat, cursor: Option<Cursor>, reply: Reply): Panel {
    match reply
    case Aborted => p
    case Loaded(page) =>
      if p.requestNumber != number then p
      else p.(data := Some(Shown(p.data, cursor, page)), accessDenied := false, loading := false)
    case Refused(message, forbidden) =>
      p.(error := Some(message), accessDenied := p.accessDenied || forbidden,
         loading := p.loading && p.requestNumber != number)
  }

  function Apply(p: Panel, filter: Filter): Panel {
    Start(p.(data := None, query := Query(filter, None)))
  }

  function LoadPrevious(p: Panel): Panel {
    if p.data.None? || p.data.value.nextCursor.None? || p.loading then p
    else Start(p.(query := p.query.(cursor := p.data.value.nextCursor)))
  }

  class StaffAuditPanel {
    var requestNumber: nat
    var data: Option<Page>
    var query: Query
    var loading: bool
    var error: Option<string>
    var accessDenied: bool

    ghost function State(): Panel
      reads this
    {
      Panel(requestNumber, data, query, loading, error, accessDenied)
    }

    constructor ()
      ensures State() == INITIAL_PANEL
    {
      requestNumber, data, query, loading, error, accessDenied := 0, None, INITIAL_QUERY, true, None, false;
    }

    /** The part of `load` before its fetches. */
    method Load()
      modifies this
      ensures State() == Start(old(State()))
    {
      requestNumber := requestNumber + 1;
      loading := true;
      error := None;
    }

    /** The part of `load` after them; `cursor` is the one it was called with. */
    method SettleLoad(number: nat, cursor: Option<Cursor>, reply: Reply)
      modifies this
      ensures State() == Settle(old(State()), number, cursor, reply)
    {
      match reply {
        case Aborted =>
          return;
        case Loaded(next) =>
          if requestNumber != number {
            return;
          }
          accessDenied := false;
          if cursor.Some? && data.Some? {
            data := Some(next.(items := data.value.items + next.items));
          } else {
            data := Some(next);
          }
        case Refused(message, forbidden) =>
          if forbidden {
            accessDenied := true;
          }
          error := Some(message);
      }
      if requestNumber == number {
        loading := false;
      }
    }

    /** `applyFilters`, `applyPreset` and `clearCategoryAndOutcome`, with the effect of the query. */
    method ApplyFilters(filter: Filter)
      modifies this
      ensures State() == Apply(old(State()), filter)
    {
      data := None;
      query := Query(filter, None);
      Load();
    }

    method LoadPreviousEvents()
      modifies this
      ensures State() == LoadPrevious(old(State()))
    {
      if data.None? || data.value.nextCursor.None? || loading {
        return;
      }
      query := query.(cursor := data.value.nextCursor);
      Load();
    }
  }

  // ---- Runs ----

  datatype Fetch = Fetch(query: Query, settled: bool)

  /** A page that was stored, with the query that asked for it. */
  datatype Visit = Visit(query: Query, page: Page)

  /** `trail` holds the pages stored since the filters were applied. */
  datatype World = World(panel: Panel, fetches: seq<Fetch>, trail: seq<Visit>)

  datatype Event = Applies(filter: Filter) | Previous | Retries | Settles(fetch: nat, reply: Reply)

  /** The buttons on screen: none without access, only the retry when nothing is shown but an
      error, the filters while nothing loads. */
  predicate Enabled(w: World, e: Event) {
    var p := w.panel;
    match e
    case Applies(_) => !p.accessDenied && !p.loading && (p.error.Some? ==> p.data.Some?)
    case Previous => !p.accessDenied
    case Retries => !p.accessDenied && p.error.Some?
    case Settles(i, _) => i < |w.fetches| && !w.fetches[i].settled
  }

  function Fetching(w: World, p: Panel): World {
    if p.requestNumber == w.panel.requestNumber then w.(panel := p)
    else w.(panel := p, fetches := w.fetches + [Fetch(p.query, false)])
  }

  function Step(w: World, e: Event): World {
    if !Enabled(w, e) then w else
    match e
    case Applies(filter) => Fetching(w.(trail := []), Apply(w.panel, filter))
    case Previous => Fetching(w, LoadPrevious(w.panel))
    case Retries => Fetching(w, Start(w.panel))
    case Settles(i, reply) =>
      var f := w.fetches[i];
      w.(panel := Settle(w.panel, i + 1, f.query.cursor, reply), fetches := w.fetches[i := f.(settled := true)],
         trail := if reply.Loaded? && i + 1 == w.panel.requestNumber then Visited(w.trail, f.query, reply.page)
                  else w.trail)
  }

  function Visited(trail: seq<Visit>, query: Query, page: Page): seq<Visit> {
    (if query.cursor.None? then [] else trail) + [Visit(query, page)]
  }

  /** The mounted panel, its first load under way. */
  const INITIAL_WORLD: World := World(Start(INITIAL_PANEL), [Fetch(INITIAL_QUERY, false)], [])

  function After(events: seq<Event>): World {
    if events == [] then INITIAL_WORLD else Step(After(events[..|events| - 1]), events[|events| - 1])
  }

  /** All the items of the pages, in the order of the pages. */
  function Items(trail: seq<Visit>): seq<Entry> {
    if trail == [] then [] else Items(trail[..|trail| - 1]) + trail[|trail| - 1].page.items
  }

  /** The first page was asked for without a cursor, every other one with the cursor that the
      page before it gave. */
  predicate Chain(trail: seq<Visit>) {
    && (trail != [] ==> trail[0].query.cursor == None)
    && forall k | 0 < k < |trail| ::
         trail[k].query.cursor.Some? && trail[k].query.cursor == trail[k - 1].page.nextCursor
  }

  /** At most the newest load is unsettled: no button starts one while another is under way. An
      aborted load would leave the panel loading, but only a superseded one is aborted. */
  predicate LoadsKept(w: World) {
    && w.panel.requestNumber == |w.fetches| > 0
    && (w.panel.loading ==> w.panel.error.None?)
    && (!w.panel.loading ==> w.fetches[|w.fetches| - 1].settled)
    && w.fetches[|w.fetches| - 1].query == w.panel.query
    && forall i | 0 <= i < |w.fetches| - 1 :: w.fetches[i].settled
  }

  /** What is shown is the pages of the trail, and what is asked for next continues it. */
  predicate PagesKept(w: World) {
    var p := w.panel;
    && Chain(w.trail)
    && (p.data.Some? <==> w.trail != [])
    && (p.data.None? ==> p.query.cursor.None?)
    && (w.trail != [] ==>
          p.data == Some(Page(Items(w.trail), w.trail[|w.trail| - 1].page.nextCursor)))
    && (w.trail != [] && (p.loading || p.error.Some?) ==>
          p.query.cursor.Some? && p.query.cursor == w.trail[|w.trail| - 1].page.nextCursor)
  }

  lemma LoadsStep(w: World, e: Event)
    requires LoadsKept(w)
    ensures LoadsKept(Step(w, e))
  {
  }

  /** A page may follow the trail. */
  predicate Continues(trail: seq<Visit>, visit: Visit) {
    if trail == [] then visit.query.cursor.None?
    else visit.query.cursor.Some? && visit.query.cursor == trail[|trail| - 1].page.nextCursor
  }

  lemma ChainGrows(trail: seq<Visit>, visit: Visit, longer: seq<Visit>)
    requires Chain(trail) && Continues(trail, visit) && longer == trail + [visit]
    ensures Chain(longer)
  {
    forall k | 0 < k < |longer|
      ensures longer[k].query.cursor.Some? && longer[k].query.cursor == longer[k - 1].page.nextCursor
    {
      if k < |trail| {
        assert longer[k] == trail[k] && longer[k - 1] == trail[k - 1];
      }
    }
  }

  lemma ItemsGrow(trail: seq<Visit>, visit: Visit)
    ensures Items(trail + [visit]) == Items(trail) + visit.page.items
  {
    assert (trail + [visit])[..|trail|] == trail;
  }

  lemma SettleKeepsPages(w: World, i: nat, reply: Reply)
    requires LoadsKept(w) && PagesKept(w) && Enabled(w, Settles(i, reply)) && !reply.Loaded?
    ensures PagesKept(Step(w, Settles(i, reply)))
  {
  }

  lemma LoadKeepsPages(w: World, i: nat, page: Page)
    requires LoadsKept(w) && PagesKept(w) && Enabled(w, Settles(i, Loaded(page)))
    ensures PagesKept(Step(w, Settles(i, Loaded(page))))
  {
    assert i == |w.fetches| - 1 && w.panel.loading;
    var visit := Visit(w.panel.query, page);
    var v := Step(w, Settles(i, Loaded(page)));
    assert Continues(w.trail, visit);
    assert v.trail == w.trail + [visit];
    ChainGrows(w.trail, visit, v.trail);
    ItemsGrow(w.trail, visit);
    if w.trail == [] {
      assert Items(v.trail) == page.items;
    }
    assert v.panel.data == Some(Page(Items(v.trail), page.nextCursor));
  }

  lemma PagesStep(w: World, e: Event)
    requires LoadsKept(w) && PagesKept(w)
    ensures PagesKept(Step(w, e))
  {
    if e.Settles? && Enabled(w, e) {
      if e.reply.Loaded? {
        LoadKeepsPages(w, e.fetch, e.reply.page);
      } else {
        SettleKeepsPages(w, e.fetch, e.reply);
      }
    }
  }

  /** In every run of filters, pages, failures and retries, what is shown is the pages since the
      filters were applied, one after the other, each asked for with the cursor of the one
      before it, and each once. */
  lemma {:induction false} ShownIsThePages(events: seq<Event>)
    ensures LoadsKept(After(events)) && PagesKept(After(events))
  {
    if events != [] {
      ShownIsThePages(events[..|events| - 1]);
      LoadsStep(After(events[..|events| - 1]), events[|events| - 1]);
      PagesStep(After(events[..|events| - 1]), events[|events| - 1]);
    }
  }

  /** A superseded reply leaves the pages, the query and the flag alone, also where it is refused all the
      same; only then it is told. */
  lemma {:induction false} SupersededTellsRefusal(p: Panel, number: nat, cursor: Option<Cursor>, reply: Reply)
    requires number != p.requestNumber
    ensures var q := Settle(p, number, cursor, reply);
            && q.data == p.data && q.query == p.query && q.loading == p.loading
            && (reply.Refused? ==>
                  q.error == Some(reply.message) && q.accessDenied == (p.accessDenied || reply.forbidden))
            && (!reply.Refused? ==> q == p)
  {
  }

  // ---- What was asked for ----

  /** The filter applied last, from the events alone. */
  function LastFilter(events: seq<Event>): Filter {
    if events == [] then INITIAL_QUERY.filter
    else FilterBy(After(events[..|events| - 1]), events[|events| - 1], LastFilter(events[..|events| - 1]))
  }

  function FilterBy(w: World, e: Event, before: Filter): Filter {
    if e.Applies? && Enabled(w, e) then e.filter else before
  }

  /** The newest load and every page stored were asked for with this filter. */
  predicate AsksFor(w: World, filter: Filter) {
    && w.fetches != [] && w.fetches[|w.fetches| - 1].query.filter == filter == w.panel.query.filter
    && forall k | 0 <= k < |w.trail| :: w.trail[k].query.filter == filter
  }

  lemma AsksStep(w: World, e: Event, filter: Filter)
    requires LoadsKept(w) && AsksFor(w, filter)
    ensures AsksFor(Step(w, e), FilterBy(w, e, filter))
  {
    if e.Settles? && Enabled(w, e) {
      AsksSettles(w, e.fetch, e.reply, filter);
    }
  }

  lemma AsksSettles(w: World, i: nat, reply: Reply, filter: Filter)
    requires LoadsKept(w) && AsksFor(w, filter) && Enabled(w, Settles(i, reply))
    ensures AsksFor(Step(w, Settles(i, reply)), filter)
  {
    var v := Step(w, Settles(i, reply));
    if reply.Loaded? {
      assert i + 1 == |w.fetches|;
      forall k | 0 <= k < |v.trail| ensures v.trail[k].query.filter == filter {
      }
    }
  }

  /** In every run the newest load asks for the filter applied last, and everything shown was
      asked for with it: a filter that is applied is not forgotten by pages, failures or retries. */
  lemma {:induction false} FilterIsAsked(events: seq<Event>)
    ensures AsksFor(After(events), LastFilter(events))
  {
    if events != [] {
      var front := events[..|events| - 1];
      FilterIsAsked(front);
      ShownIsThePages(front);
      AsksStep(After(front), events[|events| - 1], LastFilter(front));
    }
  }

  /** What the panel says of its loads: whether one is under way, the error, and no access. */
  datatype Status = Status(loading: bool, error: Option<string>, accessDenied: bool)

  /** From the events alone: a start clears the error, every refusal sets it, and only the newest
      load grants access again or ends the loading. */
  function StatusAfter(events: seq<Event>): Status {
    if events == [] then Status(true, None, false)
    else StatusBy(After(events[..|events| - 1]), events[|events| - 1], StatusAfter(events[..|events| - 1]))
  }

  function StatusBy(w: World, e: Event, before: Status): Status {
    if !Enabled(w, e) then before else
    match e
    case Applies(_) => Status(true, None, before.accessDenied)
    case Retries => Status(true, None, before.accessDenied)
    case Previous =>
      if !before.loading && w.trail != [] && w.trail[|w.trail| - 1].page.nextCursor.Some?
      then Status(true, None, before.accessDenied) else before
    case Settles(i, reply) =>
      var newest := i + 1 == |w.fetches|;
      match reply
      case Loaded(_) => if newest then Status(false, before.error, false) else before
      case Refused(message, forbidden) =>
        Status(before.loading && !newest, Some(message), before.accessDenied || forbidden)
      case Aborted => before
  }

  function StatusOf(p: Panel): Status {
    Status(p.loading, p.error, p.accessDenied)
  }

  lemma StatusStep(w: World, e: Event)
    requires LoadsKept(w) && PagesKept(w)
    ensures StatusOf(Step(w, e).panel) == StatusBy(w, e, StatusOf(w.panel))
  {
  }

  lemma {:induction false} StatusRuns(events: seq<Event>)
    ensures StatusOf(After(events).panel) == StatusAfter(events)
  {
    if events != [] {
      StatusRuns(events[..|events| - 1]);
      ShownIsThePages(events[..|events| - 1]);
      StatusStep(After(events[..|events| - 1]), events[|events| - 1]);
    }
  }

  // ---- A log that is served page by page ----

  /** The page is the stretch of the log that begins where its cursor points, and its own
      cursor points behind it; without one the log ends there. */
  predicate Serves(log: seq<Entry>, at: Cursor -> nat, visit: Visit) {
    var start := if visit.query.cursor.Some? then at(visit.query.cursor.value) else 0;
    var end := start + |visit.page.items|;
    && end <= |log| && visit.page.items == log[start..end]
    && (if visit.page.nextCursor.Some? then at(visit.page.nextCursor.value) == end else end == |log|)
  }

  lemma {:induction false} ChainIsPrefix(trail: seq<Visit>, log: seq<Entry>, at: Cursor -> nat)
    requires Chain(trail) && forall k | 0 <= k < |trail| :: Serves(log, at, trail[k])
    ensures Items(trail) <= log
    ensures trail != [] ==>
      var next := trail[|trail| - 1].page.nextCursor;
      |Items(trail)| == if next.Some? then at(next.value) else |log|
  {
    if trail != [] {
      var front, last := trail[..|trail| - 1], trail[|trail| - 1];
      ChainIsPrefix(front, log, at);
      assert Serves(log, at, last);
      Prolongs(Items(front), last.page.items, log);
    }
  }

  lemma Prolongs(shown: seq<Entry>, items: seq<Entry>, log: seq<Entry>)
    requires shown <= log
    ensures |shown| + |items| <= |log| && items == log[|shown|..|shown| + |items|] ==> shown + items <= log
  {
  }

  /** From a log that does not change under the cursors, the panel shows a stretch from its
      start, no entry left out and none twice, and the whole log when no cursor is left. */
  lemma {:induction false} ShownIsAPrefix(events: seq<Event>, log: seq<Entry>, at: Cursor -> nat)
    requires forall k | 0 <= k < |After(events).trail| :: Serves(log, at, After(events).trail[k])
    requires After(events).panel.data.Some?
    ensures var shown := After(events).panel.data.value;
            shown.items <= log && (shown.nextCursor.None? ==> shown.items == log)
  {
    ShownIsThePages(events);
    ChainIsPrefix(After(events).trail, log, at);
  }

  /** A server with a log for every filter: each query is answered from the log of its filter. */
  predicate Answers(logs: Filter -> seq<Entry>, at: Cursor -> nat, visit: Visit) {
    Serves(logs(visit.query.filter), at, visit)
  }

  /** The panel shows a stretch from the start of the log of the filter applied last. */
  lemma {:induction false} ShownIsOfTheFilter(events: seq<Event>, logs: Filter -> seq<Entry>, at: Cursor -> nat)
    requires forall k | 0 <= k < |After(events).trail| :: Answers(logs, at, After(events).trail[k])
    requires After(events).panel.data.Some?
    ensures var shown, log := After(events).panel.data.value, logs(LastFilter(events));
            shown.items <= log && (shown.nextCursor.None? ==> shown.items == log)
  {
    FilterIsAsked(events);
    var trail, log := After(events).trail, logs(LastFilter(events));
    forall k | 0 <= k < |trail| ensures Serves(log, at, trail[k]) {
      assert Answers(logs, at, trail[k]);
    }
    ShownIsAPrefix(events, log, at);
  }
}
