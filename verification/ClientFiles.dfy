/** The file list of a request, `loadFiles` and `loadMore` of
    src/components/ClientFilesPanel.tsx: full reloads, silent reloads after a live notice,
    and further pages, in any interleaving of starts and settlements. */
module ClientFiles {
  import opened Wrappers
  import opened FileMerge

  datatype Reply = Files(items: seq<FileItem>, nextCursor: Option<string>) | FilesError(message: string)

  datatype Panel = Panel(generation: nat, inFlight: bool, pending: bool, loading: bool, loadingMore: bool,
                         items: seq<FileItem>, nextCursor: Option<string>, error: Option<string>)

  const INITIAL_PANEL: Panel := Panel(0, false, false, true, false, [], None, None)

  // ---- The loader ----

  /** A load with a cursor asks for a further page, one without for the first. */
  function StartLoad(p: Panel, cursor: Option<string>, silent: bool): Panel {
    if silent && p.inFlight then p.(pending := true)
    else
      p.(generation := p.generation + 1, inFlight := true,
         loadingMore := p.loadingMore || cursor.Some?,
         loading := p.loading || (cursor.None? && !silent))
  }

  function Store(p: Panel, cursor: Option<string>, silent: bool, reply: Reply): Panel {
    match reply
    case Files(items, next) =>
      p.(items := if cursor.Some? then Merge(p.items, items) else items, nextCursor := next, error := None)
    case FilesError(message) => if silent then p else p.(error := Some(message))
  }

  /** The newest fetch is done: its reply is stored, its flag and the refs are lowered. */
  function FinishLoad(p: Panel, cursor: Option<string>, silent: bool, reply: Reply): Panel {
    Store(p, cursor, silent, reply).(
      inFlight := false, pending := false,
      loadingMore := p.loadingMore && cursor.None?,
      loading := p.loading && (cursor.Some? || silent))
  }

  function SettleLoad(p: Panel, generation: nat, cursor: Option<string>, silent: bool, reply: Reply): Panel {
    if p.generation != generation then p
    else
      var done := FinishLoad(p, cursor, silent, reply);
      if p.pending then StartLoad(done, None, true) else done
  }

  function LoadMore(p: Panel): Panel {
    if p.nextCursor.None? || p.loadingMore then p else StartLoad(p, p.nextCursor, false)
  }

  class ClientFilesPanel {
    var loadRequestId: nat
    var loadInFlight: bool
    var silentReloadPending: bool
    var loading: bool
    var loadingMore: bool
    var items: seq<FileItem>
    var nextCursor: Option<string>
    var error: Option<string>

    ghost function State(): Panel
      reads this
    {
      Panel(loadRequestId, loadInFlight, silentReloadPending, loading, loadingMore, items, nextCursor, error)
    }

    constructor ()
      ensures State() == INITIAL_PANEL
    {
      loadRequestId, loadInFlight, silentReloadPending := 0, false, false;
      loading, loadingMore, items, nextCursor, error := true, false, [], None, None;
    }

    /** The part of `loadFiles` before its fetch. */
    method LoadFiles(cursor: Option<string>, silent: bool)
      modifies this
      ensures State() == StartLoad(old(State()), cursor, silent)
    {
      if silent && loadInFlight {
        silentReloadPending := true;
        return;
      }
      loadRequestId := loadRequestId + 1;
      loadInFlight := true;
      if cursor.Some? {
        loadingMore := true;
      } else if !silent {
        loading := true;
      }
    }

    /** The part of `loadFiles` after its fetch. */
    method SettleFiles(generation: nat, cursor: Option<string>, silent: bool, reply: Reply)
      modifies this
      ensures State() == SettleLoad(old(State()), generation, cursor, silent, reply)
    {
      if loadRequestId != generation {
        return;
      }
      match reply {
        case Files(incoming, next) =>
          if cursor.Some? {
            items := MergeFiles(items, incoming);
          } else {
            items := incoming;
          }
          nextCursor := next;
          error := None;
        case FilesError(message) =>
          if !silent {
            error := Some(message);
          }
      }
      if cursor.Some? {
        loadingMore := false;
      } else if !silent {
        loading := false;
      }
      loadInFlight := false;
      if silentReloadPending {
        silentReloadPending := false;
        LoadFiles(None, true);
      }
    }

    method LoadMoreFiles()
      modifies this
      ensures State() == LoadMore(old(State()))
    {
      if nextCursor.None? || loadingMore {
        return;
      }
      LoadFiles(nextCursor, false);
    }
  }

  // ---- Runs ----

  datatype Listing = Listing(items: seq<FileItem>, nextCursor: Option<string>)

  /** A fetch; it is closed when it settles as the newest, and so lowers its flag; it succeeds
      when its reply is files, and what the component then stores of them is kept. */
  datatype Fetch = Fetch(cursor: Option<string>, silent: bool, startedAt: nat, settled: bool, closed: bool,
                         succeeded: bool, stored: Option<Listing>)

  /** What overtook what: a loud load a page, ever; a page the last loud load; a page the last
      full load, loud or silent. A load overtakes the newest one if that is still unsettled. */
  datatype Overtaken = Overtaken(page: bool, loud: bool, full: bool)

  /** The last fetch of a further page, the last loud full one, the last full one of either
      kind, the full one on screen, and the pages stored since. */
  datatype Log = Log(fetches: seq<Fetch>, lastPage: Option<nat>, lastLoud: Option<nat>, lastFull: Option<nat>,
                     shown: Option<nat>, pages: seq<nat>, lastNotice: nat, overtaken: Overtaken)

  datatype World = World(panel: Panel, log: Log, now: nat)

  datatype Event = Reload | Notice | More | Settles(fetch: nat, reply: Reply)

  predicate Enabled(w: World, e: Event) {
    e.Settles? ==> e.fetch < |w.log.fetches| && !w.log.fetches[e.fetch].settled
  }

  predicate Open(log: Log) {
    log.fetches != [] && !log.fetches[|log.fetches| - 1].settled
  }

  function Newest(log: Log): Fetch
    requires log.fetches != []
  {
    log.fetches[|log.fetches| - 1]
  }

  predicate Loud(f: Fetch) {
    f.cursor.None? && !f.silent
  }

  /** What a load that starts overtakes; a new load of a kind has not been overtaken. */
  function Overtaking(log: Log, f: Fetch): Overtaken {
    var open, o := Open(log), log.overtaken;
    if f.cursor.Some? then
      o.(loud := o.loud || (open && Loud(Newest(log))), full := o.full || (open && Newest(log).cursor.None?))
    else
      o.(page := o.page || (open && Loud(f) && Newest(log).cursor.Some?),
         loud := o.loud && f.silent, full := false)
  }

  /** The log of a load that may have started a fetch. */
  function LogStart(log: Log, before: Panel, after: Panel, cursor: Option<string>, silent: bool, now: nat): Log {
    if after.generation == before.generation then log else
    var f := Fetch(cursor, silent, now, false, false, false, None);
    var i := Some(|log.fetches|);
    log.(fetches := log.fetches + [f],
         lastPage := if cursor.Some? then i else log.lastPage,
         lastLoud := if Loud(f) then i else log.lastLoud,
         lastFull := if cursor.None? then i else log.lastFull,
         overtaken := Overtaking(log, f))
  }

  function StepLoad(w: World, cursor: Option<string>, silent: bool): World {
    var p := StartLoad(w.panel, cursor, silent);
    w.(panel := p, log := LogStart(w.log, w.panel, p, cursor, silent, w.now))
  }

  function StepNotice(w: World): World {
    StepLoad(w.(log := w.log.(lastNotice := w.now)), None, true)
  }

  function StepMore(w: World): World {
    var p := LoadMore(w.panel);
    w.(panel := p, log := LogStart(w.log, w.panel, p, w.panel.nextCursor, false, w.now))
  }

  function LogSettled(log: Log, i: nat, newest: bool, reply: Reply): Log
    requires i < |log.fetches|
  {
    var f := log.fetches[i];
    var stored := if newest && reply.Files? then Some(Listing(reply.items, reply.nextCursor)) else None;
    var after := f.(settled := true, closed := newest, succeeded := reply.Files?, stored := stored);
    log.(fetches := log.fetches[i := after],
         shown := if stored.Some? && f.cursor.None? then Some(i) else log.shown,
         pages := if stored.None? then log.pages else if f.cursor.None? then [] else log.pages + [i])
  }

  function StepFinishes(w: World, i: nat, reply: Reply): World
    requires i < |w.log.fetches|
  {
    var f := w.log.fetches[i];
    w.(panel := FinishLoad(w.panel, f.cursor, f.silent, reply), log := LogSettled(w.log, i, true, reply))
  }

  /** A fetch settles: superseded, the component ignores it; the newest may start another. */
  function StepSettles(w: World, i: nat, reply: Reply): World
    requires i < |w.log.fetches|
  {
    if w.panel.generation != i + 1 then w.(log := LogSettled(w.log, i, false, reply))
    else if w.panel.pending then StepLoad(StepFinishes(w, i, reply), None, true)
    else StepFinishes(w, i, reply)
  }

  /** What an event does, but for the time it takes. */
  function Effect(w: World, e: Event): World
    requires Enabled(w, e)
  {
    match e
    case Reload => StepLoad(w, None, false)
    case Notice => StepNotice(w)
    case More => StepMore(w)
    case Settles(i, reply) => StepSettles(w, i, reply)
  }

  /** One event of the world; one that is not enabled changes nothing. */
  function Step(w: World, e: Event): World {
    if !Enabled(w, e) then w else
    Effect(w, e).(now := w.now + 1)
  }

  const INITIAL_WORLD: World :=
    World(INITIAL_PANEL, Log([], None, None, None, None, [], 0, Overtaken(false, false, false)), 0)

  function Run(w: World, events: seq<Event>): World {
    if events == [] then w else Step(Run(w, events[..|events| - 1]), events[|events| - 1])
  }

  function After(events: seq<Event>): World {
    Run(INITIAL_WORLD, events)
  }

  // ---- In every run ----

  predicate Closed(log: Log, i: Option<nat>) {
    i.Some? && i.value < |log.fetches| && log.fetches[i.value].closed
  }

  /** The recorded indices are what they are called. */
  predicate LogNames(log: Log) {
    && (log.lastPage.Some? ==> log.lastPage.value < |log.fetches| && log.fetches[log.lastPage.value].cursor.Some?)
    && (log.lastLoud.Some? ==> log.lastLoud.value < |log.fetches| && Loud(log.fetches[log.lastLoud.value]))
    && (log.lastFull.Some? ==> log.lastFull.value < |log.fetches| && log.fetches[log.lastFull.value].cursor.None?)
    && (log.shown.Some? ==> log.shown.value < |log.fetches| && log.fetches[log.shown.value].stored.Some?)
    && (forall i | 0 <= i < |log.fetches| ::
          && (log.fetches[i].closed ==> log.fetches[i].settled)
          && (log.fetches[i].stored.Some? <==> log.fetches[i].closed && log.fetches[i].succeeded)
          && (log.fetches[i].cursor.Some? ==> log.lastPage.Some? && i <= log.lastPage.value && !log.fetches[i].silent)
          && (Loud(log.fetches[i]) ==> log.lastLoud.Some? && i <= log.lastLoud.value)
          && (log.fetches[i].cursor.None? ==> log.lastFull.Some? && i <= log.lastFull.value))
  }

  predicate IsNewest(log: Log, i: Option<nat>) {
    i.Some? && i.value + 1 == |log.fetches|
  }

  /** Without a pending reload, the last full load is no older than the last notice. */
  predicate CaughtUp(log: Log) {
    if log.lastFull.None? || log.lastFull.value >= |log.fetches| then log.lastNotice == 0
    else log.lastNotice <= log.fetches[log.lastFull.value].startedAt
  }

  predicate StillOpen(log: Log, i: Option<nat>) {
    IsNewest(log, i) && Open(log)
  }

  /** The last load of a kind is closed, or still open as the newest, exactly if it was not
      overtaken. */
  predicate OvertakenIs(log: Log, last: Option<nat>, overtaken: bool) {
    && (overtaken ==> last.Some?)
    && (last.Some? ==> (overtaken <==> !Closed(log, last) && !StillOpen(log, last)))
  }

  predicate OvertakenKept(log: Log) {
    && OvertakenIs(log, log.lastPage, log.overtaken.page)
    && OvertakenIs(log, log.lastLoud, log.overtaken.loud)
    && OvertakenIs(log, log.lastFull, log.overtaken.full)
  }

  predicate InvariantButNotices(w: World) {
    && w.panel.generation == |w.log.fetches|
    && LogNames(w.log)
    && (w.panel.inFlight <==> Open(w.log))
    && (w.log.fetches != [] && Newest(w.log).settled ==> Newest(w.log).closed)
    && (w.panel.pending ==> w.panel.inFlight)
    && (w.panel.loadingMore <==> w.log.lastPage.Some? && !Closed(w.log, w.log.lastPage))
    && (w.panel.loading <==> !Closed(w.log, w.log.lastLoud))
    && OvertakenKept(w.log)
    && w.log.lastNotice <= w.now
  }

  predicate Invariant(w: World) {
    InvariantButNotices(w) && (!w.panel.pending ==> CaughtUp(w.log))
  }

  /** A full load keeps the invariant, and catches up with notices if it starts a fetch. */
  lemma LoadKeeps(w: World, silent: bool)
    requires InvariantButNotices(w) && (!w.panel.pending && w.panel.inFlight ==> CaughtUp(w.log))
    ensures Invariant(StepLoad(w, None, silent))
  {
  }

  lemma NoticeKeeps(w: World)
    requires Invariant(w)
    ensures Invariant(StepNotice(w))
  {
  }

  lemma MoreKeeps(w: World)
    requires Invariant(w)
    ensures Invariant(StepMore(w))
  {
  }

  lemma SettledKeepsNames(log: Log, i: nat, newest: bool, reply: Reply)
    requires LogNames(log) && i < |log.fetches| && !log.fetches[i].settled
    ensures LogNames(LogSettled(log, i, newest, reply))
  {
    var after := LogSettled(log, i, newest, reply);
    forall j | 0 <= j < |log.fetches| && j != i ensures after.fetches[j] == log.fetches[j] {
    }
  }

  lemma SettledKeepsOvertaken(log: Log, i: nat, newest: bool, reply: Reply, last: Option<nat>, overtaken: bool)
    requires i < |log.fetches| && !log.fetches[i].settled && !log.fetches[i].closed
    requires (newest <==> i + 1 == |log.fetches|) && (last.Some? ==> last.value < |log.fetches|)
    requires OvertakenIs(log, last, overtaken)
    ensures OvertakenIs(LogSettled(log, i, newest, reply), last, overtaken)
  {
  }

  lemma SettledKeepsLog(log: Log, i: nat, newest: bool, reply: Reply)
    requires LogNames(log) && OvertakenKept(log) && i < |log.fetches| && !log.fetches[i].settled
    requires newest <==> i + 1 == |log.fetches|
    ensures LogNames(LogSettled(log, i, newest, reply)) && OvertakenKept(LogSettled(log, i, newest, reply))
  {
    SettledKeepsNames(log, i, newest, reply);
    SettledKeepsOvertaken(log, i, newest, reply, log.lastPage, log.overtaken.page);
    SettledKeepsOvertaken(log, i, newest, reply, log.lastLoud, log.overtaken.loud);
    SettledKeepsOvertaken(log, i, newest, reply, log.lastFull, log.overtaken.full);
  }

  lemma FinishKeeps(w: World, i: nat, reply: Reply)
    requires Invariant(w) && i + 1 == |w.log.fetches| && !w.log.fetches[i].settled
    ensures InvariantButNotices(StepFinishes(w, i, reply))
    ensures !w.panel.pending ==> Invariant(StepFinishes(w, i, reply))
  {
    SettledKeepsLog(w.log, i, true, reply);
  }

  lemma SettlesKeeps(w: World, i: nat, reply: Reply)
    requires Invariant(w) && i < |w.log.fetches| && !w.log.fetches[i].settled
    ensures Invariant(StepSettles(w, i, reply))
  {
    if i + 1 != |w.log.fetches| {
      SupersededKeeps(w, i, reply);
    } else {
      FinishKeeps(w, i, reply);
      if w.panel.pending {
        LoadKeeps(StepFinishes(w, i, reply), true);
      }
    }
  }

  lemma SupersededKeeps(w: World, i: nat, reply: Reply)
    requires Invariant(w) && i + 1 < |w.log.fetches| && !w.log.fetches[i].settled
    ensures Invariant(w.(log := LogSettled(w.log, i, false, reply)))
  {
    SettledKeepsLog(w.log, i, false, reply);
  }

  /** The component's own step is the one the world takes, whichever fetch settles; superseded,
      it changes nothing the component holds. */
  lemma {:induction false} SettlesIsSettleLoad(w: World, i: nat, reply: Reply)
    requires i < |w.log.fetches|
    ensures var f := w.log.fetches[i];
            StepSettles(w, i, reply).panel == SettleLoad(w.panel, i + 1, f.cursor, f.silent, reply)
    ensures w.panel.generation != i + 1 ==> StepSettles(w, i, reply).panel == w.panel
  {
  }

  lemma StepKeeps(w: World, e: Event)
    requires Invariant(w)
    ensures Invariant(Step(w, e))
  {
    if Enabled(w, e) {
      match e
      case Reload => LoadKeeps(w, false);
      case Notice => NoticeKeeps(w);
      case More => MoreKeeps(w);
      case Settles(i, reply) => SettlesKeeps(w, i, reply);
    }
  }

  /** In every run in-flight holds exactly while the newest fetch is unsettled and a pending
      reload only then; "loading more" is up exactly when the last page fetch has not settled
      as the newest, "loading" exactly when the last loud full one has not. */
  lemma {:induction false} FileLoaderRuns(events: seq<Event>)
    ensures Invariant(After(events))
  {
    if events != [] {
      FileLoaderRuns(events[..|events| - 1]);
      StepKeeps(After(events[..|events| - 1]), events[|events| - 1]);
    }
  }

  /** At rest "loading more" is up exactly when a loud load has overtaken a page, and "loading"
      exactly when a page has overtaken the last loud load; so both are down after every run in
      which a page and a loud load never overlapped. */
  lemma {:induction false} FlagsAtRest(events: seq<Event>)
    requires !After(events).panel.inFlight && After(events).log.lastLoud.Some?
    ensures After(events).panel.loadingMore <==> After(events).log.overtaken.page
    ensures After(events).panel.loading <==> After(events).log.overtaken.loud
  {
    FileLoaderRuns(events);
  }

  // ---- A flag that stays up ----

  /** The last page fetch was superseded before it settled. */
  predicate Stuck(w: World) {
    && Invariant(w)
    && w.panel.loadingMore && w.log.lastPage.value + 1 < |w.log.fetches|
  }

  lemma StuckStays(w: World, e: Event)
    requires Stuck(w)
    ensures Stuck(Step(w, e)) && Step(w, e).log.lastPage == w.log.lastPage
  {
    StepKeeps(w, e);
  }

  /** Then "loading more" stays up for ever and no page is ever asked for again, whatever
      happens next: "Ver más" refuses while the flag is up, and only a page can lower it. */
  lemma {:induction false} StuckForever(w: World, events: seq<Event>)
    requires Stuck(w)
    ensures Run(w, events).panel.loadingMore && Run(w, events).log.lastPage == w.log.lastPage
    ensures Stuck(Run(w, events))
  {
    if events != [] {
      StuckForever(w, events[..|events| - 1]);
      StuckStays(Run(w, events[..|events| - 1]), events[|events| - 1]);
    }
  }

  /** A full reload overtaking an unsettled page, as after an upload, leaves the flag stuck. */
  lemma {:induction false} ReloadOvertakingPageSticks(w: World)
    requires Invariant(w) && w.panel.inFlight && IsNewest(w.log, w.log.lastPage)
    ensures Stuck(Step(w, Reload))
  {
    StepKeeps(w, Reload);
  }

  lemma Extended(events: seq<Event>, e: Event) returns (more: seq<Event>)
    ensures After(more) == Step(After(events), e)
  {
    more := events + [e];
    assert more[..|events|] == events;
  }

  lemma OnePage(items: seq<FileItem>, cursor: string) returns (events: seq<Event>)
    ensures var p, log := After(events).panel, After(events).log;
            && |log.fetches| == p.generation == 1 && log.fetches[0].settled
            && !p.inFlight && !p.pending && !p.loadingMore && p.nextCursor == Some(cursor)
  {
    events := Extended([], Reload);
    events := Extended(events, Settles(0, Files(items, Some(cursor))));
  }

  lemma StuckFromPage(events: seq<Event>) returns (more: seq<Event>)
    requires var p, log := After(events).panel, After(events).log;
             && |log.fetches| == p.generation == 1 && log.fetches[0].settled
             && !p.inFlight && !p.pending && !p.loadingMore && p.nextCursor.Some?
    ensures var w := After(more);
            && Stuck(w) && |w.log.fetches| == 3 && !w.log.fetches[1].settled && !w.log.fetches[2].settled
            && w.panel.generation == 3 && !w.panel.pending
  {
    more := Extended(events, More);
    FileLoaderRuns(more);
    ReloadOvertakingPageSticks(After(more));
    more := Extended(more, Reload);
  }

  /** A first page, "Ver más", and a reload before it settles: whatever the replies, the flag is
      up for ever with nothing under way. */
  lemma {:induction false} StuckIsReached(items: seq<FileItem>, cursor: string, page: Reply, full: Reply)
    returns (events: seq<Event>)
    ensures Stuck(After(events)) && !After(events).panel.inFlight && After(events).panel.loadingMore
  {
    events := OnePage(items, cursor);
    events := StuckFromPage(events);
    StuckStays(After(events), Settles(1, page));
    events := Extended(events, Settles(1, page));
    StuckStays(After(events), Settles(2, full));
    events := Extended(events, Settles(2, full));
  }

  // ---- The files on screen ----

  /** What a fetch stored. */
  function ItemsOf(fetches: seq<Fetch>, i: nat): seq<FileItem> {
    if i < |fetches| && fetches[i].stored.Some? then fetches[i].stored.value.items else []
  }

  function PagesOf(fetches: seq<Fetch>, pages: seq<nat>): seq<seq<FileItem>> {
    if pages == [] then []
    else PagesOf(fetches, pages[..|pages| - 1]) + [ItemsOf(fetches, pages[|pages| - 1])]
  }

  /** The files of the full load shown. */
  function Base(fetches: seq<Fetch>, shown: Option<nat>): seq<FileItem> {
    if shown.Some? then ItemsOf(fetches, shown.value) else []
  }

  /** With each page stored since merged in. */
  function Screen(log: Log): seq<FileItem> {
    MergePages(Base(log.fetches, log.shown), PagesOf(log.fetches, log.pages))
  }

  /** The full load shown is the last one stored, and the pages are all those stored after it,
      in order. */
  predicate PagesNamed(log: Log) {
    && (forall k | 0 <= k < |log.pages| ::
          && log.pages[k] < |log.fetches| && log.fetches[log.pages[k]].stored.Some?
          && log.fetches[log.pages[k]].cursor.Some?)
    && (forall k, l | 0 <= k < l < |log.pages| :: log.pages[k] < log.pages[l])
    && (forall i | 0 <= i < |log.fetches| :: log.fetches[i].stored.Some? ==>
          if log.fetches[i].cursor.None? then log.shown.Some? && i <= log.shown.value
          else i in log.pages || (log.shown.Some? && i < log.shown.value))
    && (log.shown.Some? ==>
          && log.shown.value < |log.fetches| && log.fetches[log.shown.value].stored.Some?
          && log.fetches[log.shown.value].cursor.None?
          && forall k | 0 <= k < |log.pages| :: log.shown.value < log.pages[k])
  }

  /** The cursor for more is the one that came with the last stored reply. */
  predicate CursorHolds(w: World) {
    var log := w.log;
    var last := if log.pages != [] then Some(log.pages[|log.pages| - 1]) else log.shown;
    if last.None? then w.panel.nextCursor.None?
    else
      && last.value < |log.fetches| && log.fetches[last.value].stored.Some?
      && w.panel.nextCursor == log.fetches[last.value].stored.value.nextCursor
  }

  predicate ScreenHolds(w: World) {
    PagesNamed(w.log) && w.panel.items == Screen(w.log) && CursorHolds(w)
  }

  lemma {:induction false} PagesUnchanged(fetches: seq<Fetch>, other: seq<Fetch>, pages: seq<nat>)
    requires forall k | 0 <= k < |pages| :: ItemsOf(fetches, pages[k]) == ItemsOf(other, pages[k])
    ensures PagesOf(fetches, pages) == PagesOf(other, pages)
  {
    if pages != [] {
      PagesUnchanged(fetches, other, pages[..|pages| - 1]);
    }
  }

  /** A step after which every fetch has stored what it had before. */
  lemma StoredKeepsScreen(w: World, v: World)
    requires ScreenHolds(w) && v.panel.items == w.panel.items && v.panel.nextCursor == w.panel.nextCursor
    requires v.log.pages == w.log.pages && v.log.shown == w.log.shown && |w.log.fetches| <= |v.log.fetches|
    requires forall i | 0 <= i < |w.log.fetches| ::
               v.log.fetches[i].stored == w.log.fetches[i].stored && v.log.fetches[i].cursor == w.log.fetches[i].cursor
    requires forall i | |w.log.fetches| <= i < |v.log.fetches| :: v.log.fetches[i].stored.None?
    ensures ScreenHolds(v)
  {
    PagesUnchanged(w.log.fetches, v.log.fetches, w.log.pages);
    StoredKeepsNames(w.log, v.log);
  }

  lemma StoredKeepsNames(log: Log, after: Log)
    requires PagesNamed(log)
    requires after.pages == log.pages && after.shown == log.shown && |log.fetches| <= |after.fetches|
    requires forall i | 0 <= i < |log.fetches| ::
               after.fetches[i].stored == log.fetches[i].stored && after.fetches[i].cursor == log.fetches[i].cursor
    requires forall i | |log.fetches| <= i < |after.fetches| :: after.fetches[i].stored.None?
    ensures PagesNamed(after)
  {
  }

  lemma FullKeepsScreen(w: World, i: nat, reply: Reply)
    requires ScreenHolds(w) && i + 1 == |w.log.fetches| && w.log.fetches[i].stored.None?
    requires reply.Files? && w.log.fetches[i].cursor.None?
    ensures ScreenHolds(StepFinishes(w, i, reply))
  {
  }

  lemma PageKeepsNames(log: Log, i: nat, reply: Reply)
    requires PagesNamed(log) && i + 1 == |log.fetches| && log.fetches[i].stored.None?
    requires reply.Files? && log.fetches[i].cursor.Some?
    ensures PagesNamed(LogSettled(log, i, true, reply))
  {
    var after := LogSettled(log, i, true, reply);
    assert after.pages == log.pages + [i];
    forall j | 0 <= j < |log.fetches| && j != i ensures after.fetches[j] == log.fetches[j] {
    }
  }

  lemma PageKeepsScreen(w: World, i: nat, reply: Reply)
    requires ScreenHolds(w) && i + 1 == |w.log.fetches| && w.log.fetches[i].stored.None?
    requires reply.Files? && w.log.fetches[i].cursor.Some?
    ensures ScreenHolds(StepFinishes(w, i, reply))
  {
    var after := LogSettled(w.log, i, true, reply);
    PageKeepsNames(w.log, i, reply);
    PagesKeepStored(w.log, after, i);
    PageShown(w.log, after, i, reply.items);
  }

  lemma PagesKeepStored(log: Log, after: Log, i: nat)
    requires PagesNamed(log) && i < |log.fetches| && log.fetches[i].stored.None?
    requires |after.fetches| == |log.fetches|
    requires forall j | 0 <= j < |log.fetches| && j != i :: after.fetches[j] == log.fetches[j]
    ensures PagesOf(after.fetches, log.pages) == PagesOf(log.fetches, log.pages)
    ensures Base(after.fetches, log.shown) == Base(log.fetches, log.shown)
  {
    PagesUnchanged(after.fetches, log.fetches, log.pages);
  }

  lemma PageShown(log: Log, after: Log, i: nat, items: seq<FileItem>)
    requires after.shown == log.shown && after.pages == log.pages + [i] && ItemsOf(after.fetches, i) == items
    requires PagesOf(after.fetches, log.pages) == PagesOf(log.fetches, log.pages)
    requires Base(after.fetches, log.shown) == Base(log.fetches, log.shown)
    ensures Screen(after) == Merge(Screen(log), items)
  {
    assert after.pages[..|log.pages|] == log.pages;
    MergedLast(Base(log.fetches, log.shown), PagesOf(log.fetches, log.pages), items);
  }

  lemma MergedLast(current: seq<FileItem>, pages: seq<seq<FileItem>>, page: seq<FileItem>)
    ensures MergePages(current, pages + [page]) == Merge(MergePages(current, pages), page)
  {
    assert (pages + [page])[..|pages|] == pages;
  }

  lemma FinishKeepsScreen(w: World, i: nat, reply: Reply)
    requires Invariant(w) && ScreenHolds(w) && i + 1 == |w.log.fetches| && !w.log.fetches[i].settled
    ensures ScreenHolds(StepFinishes(w, i, reply))
  {
    if reply.FilesError? {
      StoredKeepsScreen(w, StepFinishes(w, i, reply));
    } else if w.log.fetches[i].cursor.None? {
      FullKeepsScreen(w, i, reply);
    } else {
      PageKeepsScreen(w, i, reply);
    }
  }

  lemma LoadKeepsScreen(w: World, cursor: Option<string>, silent: bool)
    requires ScreenHolds(w)
    ensures ScreenHolds(StepLoad(w, cursor, silent))
  {
    StoredKeepsScreen(w, StepLoad(w, cursor, silent));
  }

  lemma SupersededKeepsScreen(w: World, i: nat, reply: Reply)
    requires Invariant(w) && ScreenHolds(w) && i + 1 < |w.log.fetches| && !w.log.fetches[i].settled
    ensures ScreenHolds(w.(log := LogSettled(w.log, i, false, reply)))
  {
    StoredKeepsScreen(w, w.(log := LogSettled(w.log, i, false, reply)));
  }

  lemma SettlesKeepsScreen(w: World, i: nat, reply: Reply)
    requires Invariant(w) && ScreenHolds(w) && i < |w.log.fetches| && !w.log.fetches[i].settled
    ensures ScreenHolds(StepSettles(w, i, reply))
  {
    if i + 1 != |w.log.fetches| {
      SupersededKeepsScreen(w, i, reply);
    } else {
      FinishKeepsScreen(w, i, reply);
      LoadKeepsScreen(StepFinishes(w, i, reply), None, true);
    }
  }

  lemma MoreKeepsScreen(w: World)
    requires ScreenHolds(w)
    ensures ScreenHolds(StepMore(w))
  {
    StoredKeepsScreen(w, StepMore(w));
  }

  lemma NoticeKeepsScreen(w: World)
    requires ScreenHolds(w)
    ensures ScreenHolds(StepNotice(w))
  {
    LoadKeepsScreen(w.(log := w.log.(lastNotice := w.now)), None, true);
  }

  lemma TickKeepsScreen(w: World, now: nat)
    requires ScreenHolds(w)
    ensures ScreenHolds(w.(now := now))
  {
  }

  lemma EffectKeepsScreen(w: World, e: Event)
    requires Invariant(w) && ScreenHolds(w) && Enabled(w, e)
    ensures ScreenHolds(Effect(w, e))
  {
    match e
    case Reload => LoadKeepsScreen(w, None, false);
    case Notice => NoticeKeepsScreen(w);
    case More => MoreKeepsScreen(w);
    case Settles(i, reply) => SettlesKeepsScreen(w, i, reply);
  }

  lemma ScreenStepKeeps(w: World, e: Event)
    requires Invariant(w) && ScreenHolds(w)
    ensures ScreenHolds(Step(w, e))
  {
    if Enabled(w, e) {
      EffectKeepsScreen(w, e);
      TickKeepsScreen(Effect(w, e), w.now + 1);
    }
  }

  /** In every run the files on screen are those of the last full load stored, with every page
      stored since merged in one at a time. */
  lemma {:induction false} ScreenRuns(events: seq<Event>)
    ensures ScreenHolds(After(events))
  {
    if events != [] {
      FileLoaderRuns(events[..|events| - 1]);
      ScreenRuns(events[..|events| - 1]);
      ScreenStepKeeps(After(events[..|events| - 1]), events[|events| - 1]);
    }
  }

  /** Which is merging all of them at once: each id of the full load and its pages once, in
      order, as the newest page that has it shows it. */
  lemma {:induction false} ScreenIsOneMerge(events: seq<Event>, full: nat)
    requires After(events).log.shown == Some(full) && After(events).log.pages != []
    ensures var w := After(events);
            var pages := Concat(PagesOf(w.log.fetches, w.log.pages));
            && w.panel.items == Merge(ItemsOf(w.log.fetches, full), pages)
            && Lists(w.panel.items, ById(ItemsOf(w.log.fetches, full)) + ById(pages))
  {
    ScreenRuns(events);
    var log := After(events).log;
    PagesMergeAtOnce(ItemsOf(log.fetches, full), PagesOf(log.fetches, log.pages));
    MergeLists(ItemsOf(log.fetches, full), Concat(PagesOf(log.fetches, log.pages)));
  }

  // ---- Which pages ----

  /** A page that is under way was asked for with the cursor on screen. */
  predicate Asked(w: World) {
    Open(w.log) && Newest(w.log).cursor.Some? ==> Newest(w.log).cursor == w.panel.nextCursor
  }

  /** The k-th page was asked for with the cursor that came with the page before it, or with the
      full load. */
  predicate Follows(log: Log, k: nat)
    requires k < |log.pages|
  {
    var before := if k == 0 then log.shown else Some(log.pages[k - 1]);
    && before.Some? && before.value < |log.fetches| && log.fetches[before.value].stored.Some?
    && log.pages[k] < |log.fetches| && log.fetches[log.pages[k]].cursor.Some?
    && log.fetches[log.pages[k]].cursor == log.fetches[before.value].stored.value.nextCursor
  }

  predicate Chained(log: Log) {
    forall k | 0 <= k < |log.pages| :: Follows(log, k)
  }

  predicate ChainHolds(w: World) {
    Asked(w) && Chained(w.log)
  }

  lemma SettledKeepsChain(log: Log, i: nat, newest: bool, reply: Reply)
    requires Chained(log) && i < |log.fetches| && log.fetches[i].stored.None? && !(newest && reply.Files?)
    ensures Chained(LogSettled(log, i, newest, reply))
  {
    var after := LogSettled(log, i, newest, reply);
    forall k | 0 <= k < |after.pages| ensures Follows(after, k) {
      assert Follows(log, k);
    }
  }

  lemma PageKeepsChain(w: World, i: nat, reply: Reply)
    requires ScreenHolds(w) && ChainHolds(w) && i + 1 == |w.log.fetches| && !w.log.fetches[i].settled
    requires w.log.fetches[i].stored.None? && reply.Files? && w.log.fetches[i].cursor.Some?
    ensures Chained(LogSettled(w.log, i, true, reply))
  {
    var after := LogSettled(w.log, i, true, reply);
    assert w.log.fetches[i].cursor == w.panel.nextCursor;
    forall k | 0 <= k < |after.pages| ensures Follows(after, k) {
      if k < |w.log.pages| {
        assert Follows(w.log, k) && after.pages[k] == w.log.pages[k];
      }
    }
  }

  lemma FinishKeepsChain(w: World, i: nat, reply: Reply)
    requires Invariant(w) && ScreenHolds(w) && ChainHolds(w)
    requires i + 1 == |w.log.fetches| && !w.log.fetches[i].settled
    ensures ChainHolds(StepFinishes(w, i, reply))
  {
    if reply.FilesError? {
      SettledKeepsChain(w.log, i, true, reply);
    } else if w.log.fetches[i].cursor.Some? {
      PageKeepsChain(w, i, reply);
    }
  }

  lemma LoadKeepsChain(w: World, silent: bool)
    requires ChainHolds(w)
    ensures ChainHolds(StepLoad(w, None, silent))
  {
    LogKeepsChain(w.log, StepLoad(w, None, silent).log);
  }

  lemma NoticeKeepsChain(w: World)
    requires ChainHolds(w)
    ensures ChainHolds(StepNotice(w))
  {
    var log := w.log.(lastNotice := w.now);
    LogKeepsChain(w.log, log);
    LoadKeepsChain(w.(log := log), true);
  }

  lemma TickKeepsChain(w: World, now: nat)
    requires ChainHolds(w)
    ensures ChainHolds(w.(now := now))
  {
  }

  lemma MoreKeepsChain(w: World)
    requires Invariant(w) && ChainHolds(w)
    ensures ChainHolds(StepMore(w))
  {
    LogKeepsChain(w.log, StepMore(w).log);
  }

  lemma LogKeepsChain(log: Log, after: Log)
    requires Chained(log) && after.pages == log.pages && after.shown == log.shown && log.fetches <= after.fetches
    ensures Chained(after)
  {
    forall k | 0 <= k < |after.pages| ensures Follows(after, k) {
      assert Follows(log, k);
    }
  }

  lemma SettlesKeepsChain(w: World, i: nat, reply: Reply)
    requires Invariant(w) && ScreenHolds(w) && ChainHolds(w) && i < |w.log.fetches| && !w.log.fetches[i].settled
    ensures ChainHolds(StepSettles(w, i, reply))
  {
    if i + 1 != |w.log.fetches| {
      SettledKeepsChain(w.log, i, false, reply);
    } else {
      FinishKeepsChain(w, i, reply);
      LoadKeepsChain(StepFinishes(w, i, reply), true);
    }
  }

  lemma EffectKeepsChain(w: World, e: Event)
    requires Invariant(w) && ScreenHolds(w) && ChainHolds(w) && Enabled(w, e)
    ensures ChainHolds(Effect(w, e))
  {
    match e
    case Reload => LoadKeepsChain(w, false);
    case Notice => NoticeKeepsChain(w);
    case More => MoreKeepsChain(w);
    case Settles(i, reply) => SettlesKeepsChain(w, i, reply);
  }

  lemma ChainStep(w: World, e: Event)
    requires Invariant(w) && ScreenHolds(w) && ChainHolds(w)
    ensures ChainHolds(Step(w, e))
  {
    if Enabled(w, e) {
      EffectKeepsChain(w, e);
      TickKeepsChain(Effect(w, e), w.now + 1);
    }
  }

  /** In every run the pages on screen follow one another, whatever reloads, notices and late
      replies come between: each was asked for with the cursor of the one before it. */
  lemma {:induction false} PagesFollow(events: seq<Event>)
    ensures ChainHolds(After(events))
  {
    if events != [] {
      var front := events[..|events| - 1];
      PagesFollow(front);
      FileLoaderRuns(front);
      ScreenRuns(front);
      ChainStep(After(front), events[|events| - 1]);
    }
  }

  // ---- No load that was not asked for ----

  function Asks(events: seq<Event>): nat {
    if events == [] then 0
    else Asks(events[..|events| - 1]) + if events[|events| - 1].Settles? then 0 else 1
  }

  /** The fetches there were, and one still to come. */
  function Loads(w: World): nat {
    |w.log.fetches| + if w.panel.pending then 1 else 0
  }

  lemma LoadsStep(w: World, e: Event)
    ensures Loads(Step(w, e)) <= Loads(w) + if e.Settles? then 0 else 1
  {
    if e.Settles? && Enabled(w, e) {
      LoadsSettle(w, e.fetch, e.reply);
    }
  }

  lemma LoadsSettle(w: World, i: nat, reply: Reply)
    requires i < |w.log.fetches|
    ensures Loads(StepSettles(w, i, reply)) <= Loads(w)
  {
  }

  /** In every run there are no more fetches than reloads, notices and clicks. */
  lemma {:induction false} LoadsAreAsked(events: seq<Event>)
    ensures Loads(After(events)) <= Asks(events)
  {
    if events != [] {
      LoadsAreAsked(events[..|events| - 1]);
      LoadsStep(After(events[..|events| - 1]), events[|events| - 1]);
    }
  }

  // ---- Its error ----

  /** From the events alone: only the newest fetch changes it. Files clear the error, and a failure
      sets it unless it is silent. */
  function ErrorAfter(events: seq<Event>): Option<string> {
    if events == [] then None
    else ErrorBy(After(events[..|events| - 1]), events[|events| - 1], ErrorAfter(events[..|events| - 1]))
  }

  function ErrorBy(w: World, e: Event, before: Option<string>): Option<string> {
    if !e.Settles? || !Enabled(w, e) || e.fetch + 1 != |w.log.fetches| then before
    else if e.reply.Files? then None
    else if w.log.fetches[e.fetch].silent then before
    else Some(e.reply.message)
  }

  lemma ErrorSettles(w: World, i: nat, reply: Reply)
    requires Invariant(w) && Enabled(w, Settles(i, reply))
    ensures StepSettles(w, i, reply).panel.error == ErrorBy(w, Settles(i, reply), w.panel.error)
  {
  }

  lemma ErrorStep(w: World, e: Event)
    requires Invariant(w)
    ensures Step(w, e).panel.error == ErrorBy(w, e, w.panel.error)
  {
    if e.Settles? && Enabled(w, e) {
      ErrorSettles(w, e.fetch, e.reply);
    }
  }

  lemma {:induction false} ErrorsRun(events: seq<Event>)
    ensures After(events).panel.error == ErrorAfter(events)
  {
    if events != [] {
      FileLoaderRuns(events[..|events| - 1]);
      ErrorsRun(events[..|events| - 1]);
      ErrorStep(After(events[..|events| - 1]), events[|events| - 1]);
    }
  }

  // ---- Notices ----

  /** At rest the last full load started at or after the last notice. If its reply was files,
      they are on screen, with the pages stored since, exactly when no page overtook it. */
  lemma {:induction false} NoticeAtRest(events: seq<Event>)
    requires !After(events).panel.inFlight && After(events).log.lastNotice > 0
    ensures var log := After(events).log;
            && log.lastFull.Some? && log.lastFull.value < |log.fetches|
            && log.lastNotice <= log.fetches[log.lastFull.value].startedAt
            && (log.shown == log.lastFull <==> log.fetches[log.lastFull.value].succeeded && !log.overtaken.full)
            && After(events).panel.items == Screen(log)
  {
    FileLoaderRuns(events);
    ScreenRuns(events);
    var log := After(events).log;
    assert log.fetches[log.lastFull.value].closed <==> !log.overtaken.full;
  }

  /** A page overtaking the silent reload of a notice: whatever the reload brings is dropped,
      the page is merged into the files from before the notice, and nothing is left to load. */
  lemma {:induction false} PageOvertakingNoticeDropsIt(w: World, cursor: string, page: Reply, late: Reply)
    requires Invariant(w) && !w.panel.inFlight && !w.panel.loadingMore && w.panel.nextCursor == Some(cursor)
    ensures var i := |w.log.fetches|;
            var v := Step(Step(Step(Step(w, Notice), More), Settles(i, late)), Settles(i + 1, page));
            && v.panel.items == (if page.Files? then Merge(w.panel.items, page.items) else w.panel.items)
            && v.log.lastNotice == w.now && v.log.overtaken.full
            && !v.panel.inFlight && !v.panel.pending
  {
    var i := |w.log.fetches|;
    PageOvertakes(w, cursor);
    var overtaken := Step(Step(w, Notice), More);
    assert Step(overtaken, Settles(i, late)).panel == overtaken.panel;
  }

  lemma PageOvertakes(w: World, cursor: string)
    requires Invariant(w) && !w.panel.inFlight && !w.panel.loadingMore && w.panel.nextCursor == Some(cursor)
    ensures var v := Step(Step(w, Notice), More);
            var i := |w.log.fetches|;
            && v.panel.generation == i + 2 == |v.log.fetches| && v.panel.inFlight && !v.panel.pending
            && v.log.fetches[i].cursor.None? && !v.log.fetches[i].settled
            && v.log.fetches[i + 1].cursor.Some? && !v.log.fetches[i + 1].settled
            && v.log.lastNotice == w.now && v.log.overtaken.full && v.panel.items == w.panel.items
  {
  }
}
