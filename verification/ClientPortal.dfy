/** The client portal's two loaders, the list of requests and the open workspace, of
    src/components/ClientPortalPanel.tsx: each start and each settlement of a fetch is one
    step, and settlements come in any order.

    `Panel` is the component's refs and state. `World` adds what the component cannot see:
    every fetch ever started, the notices received, and the microtasks waiting to run. */
module ClientPortal {
  import opened Wrappers

  type Id = string

  datatype Summary = Summary(id: Id, status: string, updatedAt: string)

  datatype Workspace = Workspace(id: Id, status: string, updatedAt: string)

  datatype ListReply = Listed(items: seq<Summary>, total: nat) | ListError(message: string)

  datatype DetailReply = Opened(workspace: Workspace) | DetailError(message: string)

  /** A loader's refs and its busy flag: P is how it remembers a silent load to repeat. */
  datatype Loader<P> = Loader(generation: nat, inFlight: bool, pending: P, loading: bool)

  datatype View = View(requests: seq<Summary>, total: nat, selected: Option<Id>, workspace: Option<Workspace>,
                       restricted: bool, error: Option<string>)

  datatype Panel = Panel(list: Loader<bool>, detail: Loader<Option<Id>>, view: View)

  const INITIAL_PANEL: Panel :=
    Panel(Loader(0, false, false, true), Loader(0, false, None, false), View([], 0, None, None, false, None))

  // ---- The list loader ----

  function StartList(p: Panel, silent: bool): Panel {
    if silent && p.list.inFlight then p.(list := p.list.(pending := true))
    else
      p.(list := p.list.(generation := p.list.generation + 1, inFlight := true, loading := p.list.loading || !silent),
         view := if silent then p.view else p.view.(error := None))
  }

  /** `message.includes(part)` */
  predicate Includes(message: string, part: string) {
    exists i | 0 <= i <= |message| :: part <= message[i..]
  }

  lemma IncludesIs(message: string, part: string)
    ensures Includes(message, part) <==> exists before, after :: message == before + part + after
  {
    if i :| 0 <= i <= |message| && part <= message[i..] {
      assert message == message[..i] + part + message[i + |part|..];
    }
    if before, after :| message == before + part + after {
      assert part <= message[|before|..];
    }
  }

  /** The selection survives if the list still has it; else the first of the list takes over. */
  function KeptSelection(selected: Option<Id>, items: seq<Summary>): Option<Id> {
    if selected.Some? && exists i | 0 <= i < |items| :: items[i].id == selected.value then selected
    else if items == [] then None else Some(items[0].id)
  }

  function StoreList(v: View, silent: bool, reply: ListReply): View {
    match reply
    case Listed(items, total) =>
      v.(requests := items, total := total, restricted := false, selected := KeptSelection(v.selected, items))
    case ListError(message) =>
      if silent then v else
      v.(restricted := Includes(message, "autenticada") || Includes(message, "permisos"),
         error := Some(message), requests := [], workspace := None)
  }

  function SettleList(p: Panel, generation: nat, silent: bool, reply: ListReply): Panel {
    if p.list.generation != generation then p else
    var done := p.(view := StoreList(p.view, silent, reply),
                   list := p.list.(inFlight := false, pending := false, loading := p.list.loading && silent));
    if p.list.pending then StartList(done, true) else done
  }

  // ---- The detail loader ----

  function StartDetail(p: Panel, id: Id, silent: bool): Panel {
    if silent && p.view.selected != Some(id) then p
    else if silent && p.detail.inFlight then p.(detail := p.detail.(pending := Some(id)))
    else
      p.(detail := p.detail.(generation := p.detail.generation + 1, inFlight := true,
                             loading := p.detail.loading || !silent),
         view := if silent then p.view else p.view.(error := None))
  }

  function RefreshSummary(items: seq<Summary>, w: Workspace): seq<Summary> {
    seq(|items|, i requires 0 <= i < |items| =>
      if items[i].id == w.id then items[i].(status := w.status, updatedAt := w.updatedAt) else items[i])
  }

  function StoreDetail(v: View, id: Id, silent: bool, reply: DetailReply): View {
    if v.selected != Some(id) then v else
    match reply
    case Opened(w) => v.(workspace := Some(w), requests := RefreshSummary(v.requests, w))
    case DetailError(message) => if silent then v else v.(error := Some(message), workspace := None)
  }

  function SettleDetail(p: Panel, generation: nat, id: Id, silent: bool, reply: DetailReply): Panel {
    if p.detail.generation != generation then p else
    p.(view := StoreDetail(p.view, id, silent, reply),
       detail := p.detail.(inFlight := false, pending := None, loading := p.detail.loading && silent))
  }

  /** The silent load that a settlement leaves to a microtask. */
  function Requeued(p: Panel, generation: nat): Option<Id> {
    if p.detail.generation == generation && p.detail.pending.Some? && p.detail.pending == p.view.selected
    then p.detail.pending else None
  }

  /** The effect of a selection. */
  function RunEffect(p: Panel): Panel {
    if p.view.selected.Some? then StartDetail(p, p.view.selected.value, false)
    else p.(view := p.view.(workspace := None))
  }

  // ---- The component ----

  class ClientPortalPanel {
    var loadRequestsGeneration: nat
    var loadRequestsInFlight: bool
    var pendingSilentList: bool
    var loading: bool
    var loadDetailGeneration: nat
    var loadDetailInFlight: bool
    var pendingSilentDetail: Option<Id>
    var loadingDetail: bool
    var requests: seq<Summary>
    var total: nat
    var selectedId: Option<Id>
    var workspace: Option<Workspace>
    var restricted: bool
    var error: Option<string>

    ghost function State(): Panel
      reads this
    {
      Panel(Loader(loadRequestsGeneration, loadRequestsInFlight, pendingSilentList, loading),
            Loader(loadDetailGeneration, loadDetailInFlight, pendingSilentDetail, loadingDetail),
            View(requests, total, selectedId, workspace, restricted, error))
    }

    constructor ()
      ensures State() == INITIAL_PANEL
    {
      loadRequestsGeneration, loadRequestsInFlight, pendingSilentList, loading := 0, false, false, true;
      loadDetailGeneration, loadDetailInFlight, pendingSilentDetail, loadingDetail := 0, false, None, false;
      requests, total, selectedId, workspace, restricted, error := [], 0, None, None, false, None;
    }

    /** The part of `loadRequests` before its fetch; the fetch's generation, if it starts one. */
    method LoadRequests(silent: bool) returns (generation: Option<nat>)
      modifies this
      ensures State() == StartList(old(State()), silent)
      ensures generation.Some? <==> State().list.generation > old(State()).list.generation
      ensures generation.Some? ==> generation.value == State().list.generation
    {
      if silent && loadRequestsInFlight {
        pendingSilentList := true;
        return None;
      }
      loadRequestsGeneration := loadRequestsGeneration + 1;
      loadRequestsInFlight := true;
      if !silent {
        loading := true;
        error := None;
      }
      return Some(loadRequestsGeneration);
    }

    /** What the newest reply stores. */
    method StoreRequests(silent: bool, reply: ListReply)
      modifies this
      ensures State() == old(State()).(view := StoreList(old(State()).view, silent, reply))
    {
      match reply {
        case Listed(items, count) =>
          requests := items;
          total := count;
          restricted := false;
          selectedId := KeptSelection(selectedId, items);
        case ListError(message) =>
          if !silent {
            restricted := Includes(message, "autenticada") || Includes(message, "permisos");
            error := Some(message);
            requests := [];
            workspace := None;
          }
      }
    }

    /** The part of `loadRequests` after its fetch. */
    method SettleRequests(generation: nat, silent: bool, reply: ListReply)
      modifies this
      ensures State() == SettleList(old(State()), generation, silent, reply)
    {
      if loadRequestsGeneration != generation {
        return;
      }
      StoreRequests(silent, reply);
      loadRequestsInFlight := false;
      if !silent {
        loading := false;
      }
      if pendingSilentList {
        pendingSilentList := false;
        var _ := LoadRequests(true);
      }
    }

    method LoadDetail(id: Id, silent: bool) returns (generation: Option<nat>)
      modifies this
      ensures State() == StartDetail(old(State()), id, silent)
      ensures generation.Some? <==> State().detail.generation > old(State()).detail.generation
      ensures generation.Some? ==> generation.value == State().detail.generation
    {
      if silent && selectedId != Some(id) {
        return None;
      }
      if silent && loadDetailInFlight {
        pendingSilentDetail := Some(id);
        return None;
      }
      loadDetailGeneration := loadDetailGeneration + 1;
      loadDetailInFlight := true;
      if !silent {
        loadingDetail := true;
        error := None;
      }
      return Some(loadDetailGeneration);
    }

    method SettleWorkspace(generation: nat, id: Id, silent: bool, reply: DetailReply) returns (queued: Option<Id>)
      modifies this
      ensures State() == SettleDetail(old(State()), generation, id, silent, reply)
      ensures queued == Requeued(old(State()), generation)
    {
      if loadDetailGeneration == generation && selectedId == Some(id) {
        match reply {
          case Opened(w) =>
            workspace := Some(w);
            requests := RefreshSummary(requests, w);
          case DetailError(message) =>
            if !silent {
              error := Some(message);
              workspace := None;
            }
        }
      }
      queued := None;
      if loadDetailGeneration == generation {
        loadDetailInFlight := false;
        if !silent {
          loadingDetail := false;
        }
        var pendingId := pendingSilentDetail;
        pendingSilentDetail := None;
        if pendingId.Some? && pendingId == selectedId {
          queued := pendingId;
        }
      }
    }

    method SelectionEffect()
      modifies this
      ensures State() == RunEffect(old(State()))
    {
      if selectedId.Some? {
        var _ := LoadDetail(selectedId.value, false);
      } else {
        workspace := None;
      }
    }

    method SelectRequest(id: Option<Id>)
      modifies this
      ensures State() == old(State()).(view := old(State()).view.(selected := id))
    {
      selectedId := id;
    }
  }

  // ---- Runs ----

  datatype Listing = Listing(items: seq<Summary>, total: nat)

  /** A list fetch: when it started, whether its reply arrived, and what of it was stored. */
  datatype ListFetch = ListFetch(silent: bool, startedAt: nat, settled: bool, stored: Option<Listing>)

  datatype DetailFetch = DetailFetch(id: Id, silent: bool, settled: bool)

  /** The list loader's history: `mounted` once a loud load has started, `shown` the fetch whose
      list is on screen, none after a loud failure, and `refreshes` the workspaces stored since. */
  datatype ListLog = ListLog(fetches: seq<ListFetch>, lastNotice: nat, mounted: bool, shown: Option<nat>,
                             refreshes: seq<Workspace>)

  /** The detail loader's history: `owed` is the selected request of a notice that no fetch of
      that request has started after; `ran` the selection its effect ran for last. The load that
      effect asks for is `lost` when, with another request's workspace on screen, a load of a
      further request overtakes it, or it settles while something else is selected; or when such
      a workspace is stored; until the effect runs again, or the screen changes. */
  datatype DetailLog =
    DetailLog(fetches: seq<DetailFetch>, microtasks: seq<Id>, owed: Option<Id>, ran: Option<Id>, lost: bool)

  datatype World = World(panel: Panel, lists: ListLog, details: DetailLog, now: nat)

  datatype Event =
    | LoadList
    | NoticeList
    | ListSettles(fetch: nat, listReply: ListReply)
    | Choose(id: Option<Id>)
    | LoadDetail(requested: Id)
    | NoticeDetail(changed: Id)
    | DetailSettles(fetch: nat, detailReply: DetailReply)
    | RunMicrotask
    | EffectRuns

  predicate Enabled(w: World, e: Event) {
    match e
    case ListSettles(i, _) => i < |w.lists.fetches| && !w.lists.fetches[i].settled
    case DetailSettles(i, r) =>
      && i < |w.details.fetches| && !w.details.fetches[i].settled
      && (r.Opened? ==> r.workspace.id == w.details.fetches[i].id)
    case RunMicrotask => w.details.microtasks != []
    case EffectRuns => w.panel.view.selected != w.details.ran
    case _ => true
  }

  /** The log after a load that may have started a fetch. */
  function LogListStart(log: ListLog, before: Panel, after: Panel, silent: bool, now: nat): ListLog {
    if after.list.generation > before.list.generation
    then log.(fetches := log.fetches + [ListFetch(silent, now, false, None)], mounted := log.mounted || !silent)
    else log
  }

  function LogDetailStart(log: DetailLog, before: Panel, after: Panel, id: Id, silent: bool): DetailLog {
    if after.detail.generation > before.detail.generation
    then log.(fetches := log.fetches + [DetailFetch(id, silent, false)],
              owed := if log.owed == Some(id) then None else log.owed)
    else log
  }

  /** A change of selection releases what was owed to another request. */
  function Release(log: DetailLog, selected: Option<Id>): DetailLog {
    if log.owed != selected then log.(owed := None) else log
  }

  function StepList(w: World, silent: bool): World {
    var p := StartList(w.panel, silent);
    var log := if silent then w.lists.(lastNotice := w.now) else w.lists;
    w.(panel := p, lists := LogListStart(log, w.panel, p, silent, w.now))
  }

  function StepListSettles(w: World, i: nat, reply: ListReply): World
    requires i < |w.lists.fetches|
  {
    var f := w.lists.fetches[i];
    var newest := w.panel.list.generation == i + 1;
    var p := SettleList(w.panel, i + 1, f.silent, reply);
    var stored := if newest && reply.Listed? then Some(Listing(reply.items, reply.total)) else None;
    var log := w.lists.(fetches := w.lists.fetches[i := f.(settled := true, stored := stored)],
                        shown := if stored.Some? then Some(i) else if newest && !f.silent then None else w.lists.shown,
                        refreshes := if stored.Some? then [] else w.lists.refreshes);
    w.(panel := p, lists := LogListStart(log, w.panel, p, true, w.now),
       details := Release(w.details, p.view.selected).(
                    lost := w.details.lost && p.view.workspace == w.panel.view.workspace))
  }

  function StepDetail(w: World, id: Id, silent: bool): World {
    var p := StartDetail(w.panel, id, silent);
    w.(panel := p, details := LogDetailStart(w.details, w.panel, p, id, silent))
  }

  /** The workspace on screen is of another request than the one the effect ran for. */
  predicate Elsewhere(v: View, ran: Option<Id>) {
    v.workspace.Some? && Some(v.workspace.value.id) != ran
  }

  /** A load that a retry or an action asks for. */
  function StepDetailLoad(w: World, id: Id): World {
    var lost := Some(id) != w.details.ran && (w.details.lost || Elsewhere(w.panel.view, w.details.ran));
    StepDetail(w.(details := w.details.(lost := lost)), id, false)
  }

  /** The effect of the selection. */
  function StepEffect(w: World): World {
    var p := RunEffect(w.panel);
    var log := w.details.(ran := w.panel.view.selected, lost := false);
    w.(panel := p,
       details := if w.panel.view.selected.None? then log
                  else LogDetailStart(log, w.panel, p, w.panel.view.selected.value, false))
  }

  /** A notice for the selected request is owed a fetch of it. */
  function StepDetailNotice(w: World, id: Id): World {
    StepDetail(if w.panel.view.selected == Some(id) then w.(details := w.details.(owed := Some(id))) else w, id, true)
  }

  function LostBy(w: World, i: nat, reply: DetailReply): bool
    requires i < |w.details.fetches|
  {
    var f := w.details.fetches[i];
    if w.panel.detail.generation != i + 1 then w.details.lost
    else if w.panel.view.selected != Some(f.id) then w.details.lost || Elsewhere(w.panel.view, w.details.ran)
    else if reply.Opened? then Some(f.id) != w.details.ran
    else w.details.lost && f.silent
  }

  function StepDetailSettles(w: World, i: nat, reply: DetailReply): World
    requires i < |w.details.fetches|
  {
    var f := w.details.fetches[i];
    var queued := Requeued(w.panel, i + 1);
    var stores := w.panel.detail.generation == i + 1 && w.panel.view.selected == Some(f.id) && reply.Opened?;
    w.(lists := if stores then w.lists.(refreshes := w.lists.refreshes + [reply.workspace]) else w.lists,
       panel := SettleDetail(w.panel, i + 1, f.id, f.silent, reply),
       details := w.details.(fetches := w.details.fetches[i := f.(settled := true)], lost := LostBy(w, i, reply),
                             microtasks := w.details.microtasks + if queued.Some? then [queued.value] else []))
  }

  function Choosing(w: World, id: Option<Id>): World {
    w.(panel := w.panel.(view := w.panel.view.(selected := id)), details := Release(w.details, id))
  }

  /** One event of the world; one that is not enabled changes nothing. */
  function Step(w: World, e: Event): World {
    if !Enabled(w, e) then w else
    var v := match e
      case LoadList => StepList(w, false)
      case NoticeList => StepList(w, true)
      case ListSettles(i, reply) => StepListSettles(w, i, reply)
      case Choose(id) => Choosing(w, id)
      case LoadDetail(id) => StepDetailLoad(w, id)
      case NoticeDetail(id) => StepDetailNotice(w, id)
      case DetailSettles(i, reply) => StepDetailSettles(w, i, reply)
      case RunMicrotask =>
        StepDetail(w.(details := w.details.(microtasks := w.details.microtasks[1..])), w.details.microtasks[0], true)
      case EffectRuns => StepEffect(w);
    v.(now := w.now + 1)
  }

  const INITIAL_WORLD: World :=
    World(INITIAL_PANEL, ListLog([], 0, false, None, []), DetailLog([], [], None, None, false), 0)

  function After(events: seq<Event>): World {
    if events == [] then INITIAL_WORLD else Step(After(events[..|events| - 1]), events[|events| - 1])
  }

  // ---- The list loader, in every run ----

  predicate ListOpen(log: ListLog) {
    log.fetches != [] && !log.fetches[|log.fetches| - 1].settled
  }

  predicate LoudListOpen(log: ListLog) {
    ListOpen(log) && !log.fetches[|log.fetches| - 1].silent
  }

  /** The fetch on screen, if any, is the last one that was stored. */
  predicate ShowsLastStored(log: ListLog) {
    && (forall i | 0 <= i < |log.fetches| :: log.fetches[i].stored.Some? ==> log.fetches[i].settled)
    && (log.shown.Some? ==> log.shown.value < |log.fetches| && log.fetches[log.shown.value].stored.Some?)
    && (log.shown.Some? ==> forall i | log.shown.value < i < |log.fetches| :: log.fetches[i].stored.None?)
    && (log.fetches != [] && log.fetches[|log.fetches| - 1].stored.Some? ==> log.shown == Some(|log.fetches| - 1))
  }

  /** The newest fetch started no earlier than the last notice. */
  predicate CaughtUp(log: ListLog) {
    if log.fetches == [] then log.lastNotice == 0
    else log.lastNotice <= log.fetches[|log.fetches| - 1].startedAt
  }

  predicate ListInvariant(l: Loader<bool>, log: ListLog, now: nat) {
    && l.generation == |log.fetches|
    && (l.inFlight <==> ListOpen(log))
    && (l.pending ==> l.inFlight)
    && (l.loading <==> !log.mounted || LoudListOpen(log))
    && (LoudListOpen(log) ==> log.mounted)
    && log.lastNotice <= now
    && (!l.pending ==> CaughtUp(log))
    && ShowsLastStored(log)
  }

  lemma ListStartKeeps(w: World, silent: bool)
    requires ListInvariant(w.panel.list, w.lists, w.now)
    ensures var v := StepList(w, silent); ListInvariant(v.panel.list, v.lists, w.now + 1)
  {
  }

  lemma ListSettleKeeps(w: World, i: nat, reply: ListReply)
    requires ListInvariant(w.panel.list, w.lists, w.now)
    requires i < |w.lists.fetches| && !w.lists.fetches[i].settled
    ensures var v := StepListSettles(w, i, reply); ListInvariant(v.panel.list, v.lists, w.now + 1)
  {
    if i + 1 != |w.lists.fetches| {
      SupersededListChangesNothing(w, i, reply);
    }
  }

  /** A reply to a superseded list fetch changes nothing the component holds. */
  lemma {:induction false} SupersededListChangesNothing(w: World, i: nat, reply: ListReply)
    requires i < |w.lists.fetches| && w.panel.list.generation != i + 1
    ensures StepListSettles(w, i, reply).panel == w.panel
    ensures StepListSettles(w, i, reply).lists
         == w.lists.(fetches := w.lists.fetches[i := w.lists.fetches[i].(settled := true, stored := None)])
  {
  }

  lemma ListStepKeeps(w: World, e: Event)
    requires ListInvariant(w.panel.list, w.lists, w.now)
    ensures var v := Step(w, e); ListInvariant(v.panel.list, v.lists, v.now)
  {
    if Enabled(w, e) {
      match e
      case LoadList => ListStartKeeps(w, false);
      case NoticeList => ListStartKeeps(w, true);
      case ListSettles(i, reply) => ListSettleKeeps(w, i, reply);
      case _ =>
    }
  }

  /** In every run: in-flight holds exactly while the newest fetch is unsettled, a pending
      reload only then; loading holds, once mounted, exactly while the newest fetch is an
      unsettled loud one; and without a pending reload the newest fetch is no older than the
      last notice. */
  lemma {:induction false} ListLoaderRuns(events: seq<Event>)
    ensures var w := After(events); ListInvariant(w.panel.list, w.lists, w.now)
  {
    if events != [] {
      ListLoaderRuns(events[..|events| - 1]);
      ListStepKeeps(After(events[..|events| - 1]), events[|events| - 1]);
    }
  }

  // ---- The list on screen ----

  /** A list after the workspaces that were opened since have refreshed their entries. */
  function Refreshed(items: seq<Summary>, workspaces: seq<Workspace>): seq<Summary> {
    if workspaces == [] then items
    else RefreshSummary(Refreshed(items, workspaces[..|workspaces| - 1]), workspaces[|workspaces| - 1])
  }

  /** The last workspace of a request. */
  function LastOf(workspaces: seq<Workspace>, id: Id): Option<Workspace> {
    if workspaces == [] then None
    else if workspaces[|workspaces| - 1].id == id then Some(workspaces[|workspaces| - 1])
    else LastOf(workspaces[..|workspaces| - 1], id)
  }

  /** An entry keeps its request and its place, and shows the status of the request's last
      workspace, or else the one it was listed with. */
  lemma {:induction false} RefreshedEntry(items: seq<Summary>, workspaces: seq<Workspace>, k: nat)
    requires k < |items|
    ensures |Refreshed(items, workspaces)| == |items|
    ensures var last := LastOf(workspaces, items[k].id);
            Refreshed(items, workspaces)[k] ==
            if last.Some? then Summary(items[k].id, last.value.status, last.value.updatedAt) else items[k]
  {
    if workspaces != [] {
      RefreshedEntry(items, workspaces[..|workspaces| - 1], k);
    }
  }

  /** The list in the component's state is the one of the fetch shown, refreshed since. */
  predicate OnScreen(view: View, log: ListLog) {
    if log.shown.None? then view.requests == []
    else
      && log.shown.value < |log.fetches| && log.fetches[log.shown.value].stored.Some?
      && var listing := log.fetches[log.shown.value].stored.value;
         view.requests == Refreshed(listing.items, log.refreshes) && view.total == listing.total
  }

  predicate ScreenHolds(w: World) {
    OnScreen(w.panel.view, w.lists)
  }

  lemma ListStartKeepsScreen(w: World, silent: bool)
    requires ScreenHolds(w)
    ensures ScreenHolds(StepList(w, silent))
  {
  }

  lemma ListSettleKeepsScreen(w: World, i: nat, reply: ListReply)
    requires ScreenHolds(w) && ListInvariant(w.panel.list, w.lists, w.now)
    requires i < |w.lists.fetches| && !w.lists.fetches[i].settled
    ensures ScreenHolds(StepListSettles(w, i, reply))
  {
    if w.panel.list.generation != i + 1 {
      SupersededListChangesNothing(w, i, reply);
    }
  }

  lemma DetailLoadKeepsScreen(w: World, id: Id)
    requires ScreenHolds(w)
    ensures ScreenHolds(StepDetailLoad(w, id))
  {
  }

  lemma EffectKeepsScreen(w: World)
    requires ScreenHolds(w)
    ensures ScreenHolds(StepEffect(w))
  {
  }

  lemma DetailSettleKeepsScreen(w: World, i: nat, reply: DetailReply)
    requires ScreenHolds(w) && i < |w.details.fetches|
    ensures ScreenHolds(StepDetailSettles(w, i, reply))
  {
    if reply.Opened? {
      var refreshes := w.lists.refreshes;
      assert (refreshes + [reply.workspace])[..|refreshes|] == refreshes;
    }
  }

  lemma ScreenStepKeeps(w: World, e: Event)
    requires ScreenHolds(w) && ListInvariant(w.panel.list, w.lists, w.now)
    ensures ScreenHolds(Step(w, e))
  {
    if Enabled(w, e) {
      match e
      case LoadList => ListStartKeepsScreen(w, false);
      case NoticeList => ListStartKeepsScreen(w, true);
      case ListSettles(i, reply) => ListSettleKeepsScreen(w, i, reply);
      case LoadDetail(id) => DetailLoadKeepsScreen(w, id);
      case EffectRuns => EffectKeepsScreen(w);
      case DetailSettles(i, reply) => DetailSettleKeepsScreen(w, i, reply);
      case _ =>
    }
  }

  /** In every run the list on screen is, entry by entry, that of the newest stored fetch,
      refreshed by the workspaces stored since; after a loud failure it is empty. */
  lemma {:induction false} ScreenRuns(events: seq<Event>)
    ensures ScreenHolds(After(events)) && ShowsLastStored(After(events).lists)
  {
    ListLoaderRuns(events);
    if events != [] {
      ScreenRuns(events[..|events| - 1]);
      ListLoaderRuns(events[..|events| - 1]);
      ScreenStepKeeps(After(events[..|events| - 1]), events[|events| - 1]);
    }
  }

  /** At rest no reload is pending, the busy flag is down, and the last fetch started at or
      after the last notice; if it succeeded, the list on screen is its list, refreshed by the
      workspaces opened since. */
  lemma {:induction false} ListFreshAtRest(events: seq<Event>)
    requires After(events).lists.fetches != [] && !After(events).panel.list.inFlight
    ensures var w := After(events);
            var last := w.lists.fetches[|w.lists.fetches| - 1];
            && !w.panel.list.pending
            && (w.lists.mounted ==> !w.panel.list.loading)
            && last.settled && w.lists.lastNotice <= last.startedAt
            && (last.stored.Some? ==>
                  w.panel.view.requests == Refreshed(last.stored.value.items, w.lists.refreshes)
                  && w.panel.view.total == last.stored.value.total)
  {
    ListLoaderRuns(events);
    ScreenRuns(events);
  }

  /** A list that comes on screen is newer than every list stored before it. */
  lemma {:induction false} ShownNeverGoesBack(events: seq<Event>, e: Event, j: nat)
    requires j < |After(events).lists.fetches| && After(events).lists.fetches[j].stored.Some?
    requires Step(After(events), e).lists.shown.Some?
    requires Step(After(events), e).lists.shown != After(events).lists.shown
    ensures var v := Step(After(events), e);
            && j < v.lists.shown.value < |v.lists.fetches| && v.lists.fetches[v.lists.shown.value].stored.Some?
            && v.panel.view.requests == v.lists.fetches[v.lists.shown.value].stored.value.items
  {
    ListLoaderRuns(events);
    ScreenRuns(events);
    ListStepKeeps(After(events), e);
    ScreenStepKeeps(After(events), e);
  }

  // ---- The selection ----

  /** The request is in the list. */
  predicate Lists(items: seq<Summary>, id: Option<Id>) {
    id.Some? && exists k | 0 <= k < |items| :: items[k].id == id.value
  }

  /** A list that still has the selected request keeps it selected; one without it selects its
      first request, or none if it is empty. */
  lemma {:induction false} SelectionSettles(events: seq<Event>, i: nat, items: seq<Summary>, total: nat)
    requires Enabled(After(events), ListSettles(i, Listed(items, total))) && i + 1 == |After(events).lists.fetches|
    ensures var before := After(events).panel.view.selected;
            var after := Step(After(events), ListSettles(i, Listed(items, total))).panel.view.selected;
            && (Lists(items, before) ==> after == before)
            && (!Lists(items, before) && items != [] ==> after == Some(items[0].id))
            && (items == [] ==> after == None)
  {
    ListLoaderRuns(events);
  }

  /** So the selection changes only by a choice, or by a list without it. */
  lemma {:induction false} SelectionMoves(events: seq<Event>, e: Event)
    requires Step(After(events), e).panel.view.selected != After(events).panel.view.selected
    ensures || e.Choose?
            || (e.ListSettles? && e.listReply.Listed? && e.fetch + 1 == |After(events).lists.fetches|
                && !Lists(e.listReply.items, After(events).panel.view.selected))
  {
    ListLoaderRuns(events);
  }

  // ---- The detail loader, in every run ----

  predicate DetailOpen(log: DetailLog) {
    log.fetches != [] && !log.fetches[|log.fetches| - 1].settled
  }

  predicate LoudDetailOpen(log: DetailLog) {
    DetailOpen(log) && !log.fetches[|log.fetches| - 1].silent
  }

  /** A fetch that is owed will come: it is pending, or queued as a microtask. */
  predicate OwedIsComing(d: Loader<Option<Id>>, log: DetailLog, selected: Option<Id>) {
    log.owed.Some? ==> log.owed == selected && (d.pending == log.owed || log.owed.value in log.microtasks)
  }

  predicate DetailInvariant(d: Loader<Option<Id>>, log: DetailLog, selected: Option<Id>) {
    && d.generation == |log.fetches|
    && (d.inFlight <==> DetailOpen(log))
    && (d.pending.Some? ==> d.inFlight)
    && (d.loading <==> LoudDetailOpen(log))
    && OwedIsComing(d, log, selected)
  }

  predicate DetailHolds(w: World) {
    DetailInvariant(w.panel.detail, w.details, w.panel.view.selected)
  }

  lemma DetailLoadKeeps(w: World, id: Id)
    requires DetailHolds(w)
    ensures DetailHolds(StepDetailLoad(w, id))
  {
  }

  lemma EffectKeeps(w: World)
    requires DetailHolds(w)
    ensures DetailHolds(StepEffect(w))
  {
  }

  lemma DetailNoticeKeeps(w: World, id: Id)
    requires DetailHolds(w)
    ensures DetailHolds(StepDetailNotice(w, id))
  {
  }

  lemma MicrotaskKeeps(w: World)
    requires DetailHolds(w) && w.details.microtasks != []
    ensures var v := w.(details := w.details.(microtasks := w.details.microtasks[1..]));
            DetailHolds(StepDetail(v, w.details.microtasks[0], true))
  {
    var id, rest := w.details.microtasks[0], w.details.microtasks[1..];
    assert w.details.microtasks == [id] + rest;
  }

  lemma DetailSettleKeeps(w: World, i: nat, reply: DetailReply)
    requires DetailHolds(w) && i < |w.details.fetches| && !w.details.fetches[i].settled
    ensures DetailHolds(StepDetailSettles(w, i, reply))
  {
  }

  lemma DetailStepKeeps(w: World, e: Event)
    requires DetailHolds(w)
    ensures DetailHolds(Step(w, e))
  {
    if Enabled(w, e) {
      match e
      case LoadDetail(id) => DetailLoadKeeps(w, id);
      case NoticeDetail(id) => DetailNoticeKeeps(w, id);
      case DetailSettles(i, reply) => DetailSettleKeeps(w, i, reply);
      case RunMicrotask => MicrotaskKeeps(w);
      case EffectRuns => EffectKeeps(w);
      case _ =>
    }
  }

  lemma {:induction false} DetailLoaderRuns(events: seq<Event>)
    ensures DetailHolds(After(events))
  {
    if events != [] {
      DetailLoaderRuns(events[..|events| - 1]);
      DetailStepKeeps(After(events[..|events| - 1]), events[|events| - 1]);
    }
  }

  /** What is owed is released only by the start of a fetch of that request or by selecting
      another. */
  lemma {:induction false} OwedIsReleased(w: World, e: Event, id: Id)
    requires w.details.owed == Some(id) && Step(w, e).details.owed != Some(id)
    ensures var v := Step(w, e);
            || v.panel.view.selected != Some(id)
            || (|v.details.fetches| == |w.details.fetches| + 1 && v.details.fetches[|w.details.fetches|].id == id)
  {
  }

  /** No notice for the selected request is dropped: once every fetch and microtask is done,
      a fetch of it has started since, or another request was selected. */
  lemma {:induction false} NothingOwedAtRest(events: seq<Event>)
    requires !After(events).panel.detail.inFlight && After(events).details.microtasks == []
    ensures After(events).details.owed.None?
  {
    DetailLoaderRuns(events);
  }

  /** A workspace is stored only from the newest fetch, and only if it is the selected
      request's at that moment. */
  lemma {:induction false} StoresSelectedOnly(events: seq<Event>, e: Event)
    requires Step(After(events), e).panel.view.workspace.Some?
    requires Step(After(events), e).panel.view.workspace != After(events).panel.view.workspace
    ensures var w := After(events);
            && e.DetailSettles? && e.fetch == |w.details.fetches| - 1 && !w.details.fetches[e.fetch].settled
            && w.panel.view.selected == Some(w.details.fetches[e.fetch].id)
            && w.panel.view.selected == Some(Step(w, e).panel.view.workspace.value.id)
  {
    DetailLoaderRuns(events);
  }

  /** And there it always is stored: the newest reply of the selected request comes on screen,
      with its entry in the list. */
  lemma {:induction false} StoresSelected(events: seq<Event>, i: nat, w: Workspace, k: nat)
    requires i + 1 == |After(events).details.fetches| && Enabled(After(events), DetailSettles(i, Opened(w)))
    requires After(events).panel.view.selected == Some(w.id)
    requires k < |After(events).panel.view.requests| && After(events).panel.view.requests[k].id == w.id
    ensures var v := Step(After(events), DetailSettles(i, Opened(w))).panel.view;
            && v.workspace == Some(w)
            && k < |v.requests| && v.requests[k] == Summary(w.id, w.status, w.updatedAt)
  {
    DetailLoaderRuns(events);
  }

  // ---- What is reported ----

  /** The newest list fetch settles, or the newest workspace fetch of the selected request, and it
      was a loud one that failed. */
  predicate ListFails(w: World, e: Event) {
    && e.ListSettles? && e.listReply.ListError? && Enabled(w, e)
    && e.fetch + 1 == |w.lists.fetches| && !w.lists.fetches[e.fetch].silent
  }

  predicate DetailFails(w: World, e: Event) {
    && e.DetailSettles? && e.detailReply.DetailError? && Enabled(w, e)
    && e.fetch + 1 == |w.details.fetches| && !w.details.fetches[e.fetch].silent
    && w.panel.view.selected == Some(w.details.fetches[e.fetch].id)
  }

  /** What an event does to the error: such a failure reports its message, a loud start none. */
  function ErrorBy(w: World, e: Event, before: Option<string>): Option<string> {
    if ListFails(w, e) then Some(e.listReply.message)
    else if DetailFails(w, e) then Some(e.detailReply.message)
    else if e.LoadList? || e.LoadDetail? || (e.EffectRuns? && Enabled(w, e) && w.panel.view.selected.Some?) then None
    else before
  }

  /** And whether it closes the portal: such a failure of the list that says so does, a list opens it. */
  predicate RestrictedBy(w: World, e: Event, before: bool) {
    if ListFails(w, e) then Includes(e.listReply.message, "autenticada") || Includes(e.listReply.message, "permisos")
    else if e.ListSettles? && e.listReply.Listed? && Enabled(w, e) && e.fetch + 1 == |w.lists.fetches| then false
    else before
  }

  /** And the total: a list that is stored brings its own, and no failure changes it. */
  function TotalBy(w: World, e: Event, before: nat): nat {
    if e.ListSettles? && e.listReply.Listed? && Enabled(w, e) && e.fetch + 1 == |w.lists.fetches|
    then e.listReply.total else before
  }

  function TotalAfter(events: seq<Event>): nat {
    if events == [] then 0
    else
      var front := events[..|events| - 1];
      TotalBy(After(front), events[|events| - 1], TotalAfter(front))
  }

  function ErrorAfter(events: seq<Event>): Option<string> {
    if events == [] then None
    else
      var front := events[..|events| - 1];
      ErrorBy(After(front), events[|events| - 1], ErrorAfter(front))
  }

  predicate RestrictedAfter(events: seq<Event>) {
    if events == [] then false
    else
      var front := events[..|events| - 1];
      RestrictedBy(After(front), events[|events| - 1], RestrictedAfter(front))
  }

  lemma ReportStep(w: World, e: Event)
    requires w.panel.list.generation == |w.lists.fetches| && w.panel.detail.generation == |w.details.fetches|
    ensures Step(w, e).panel.view.error == ErrorBy(w, e, w.panel.view.error)
    ensures Step(w, e).panel.view.restricted == RestrictedBy(w, e, w.panel.view.restricted)
  {
  }

  lemma TotalStep(w: World, e: Event)
    requires w.panel.list.generation == |w.lists.fetches|
    ensures Step(w, e).panel.view.total == TotalBy(w, e, w.panel.view.total)
  {
  }

  /** In every run the error, the closed portal and the total are what the events say. */
  lemma {:induction false} ReportsRun(events: seq<Event>)
    ensures After(events).panel.view.error == ErrorAfter(events)
    ensures After(events).panel.view.restricted == RestrictedAfter(events)
    ensures After(events).panel.view.total == TotalAfter(events)
  {
    if events != [] {
      var front := events[..|events| - 1];
      ReportsRun(front);
      ListLoaderRuns(front);
      DetailLoaderRuns(front);
      ReportStep(After(front), events[|events| - 1]);
      TotalStep(After(front), events[|events| - 1]);
    }
  }

  /** A loud failure clears the workspace, that of the list the list as well. */
  lemma {:induction false} FailureClears(events: seq<Event>, e: Event)
    requires ListFails(After(events), e) || DetailFails(After(events), e)
    ensures Step(After(events), e).panel.view.workspace.None?
    ensures ListFails(After(events), e) ==> Step(After(events), e).panel.view.requests == []
  {
    ListLoaderRuns(events);
    DetailLoaderRuns(events);
  }

  /** What a settlement leaves to a microtask is a load of the request selected then. */
  lemma {:induction false} QueuedIsSelected(events: seq<Event>, i: nat, reply: DetailReply)
    requires Enabled(After(events), DetailSettles(i, reply))
    ensures var w := After(events);
            var queued := Step(w, DetailSettles(i, reply)).details.microtasks;
            || queued == w.details.microtasks
            || (w.panel.view.selected.Some? && queued == w.details.microtasks + [w.panel.view.selected.value])
  {
  }

  // ---- No load that was not asked for ----

  function One(b: bool): nat {
    if b then 1 else 0
  }

  /** How often the list was asked for, and how often a workspace. */
  function ListsAsked(events: seq<Event>): nat {
    if events == [] then 0
    else
      var e := events[|events| - 1];
      ListsAsked(events[..|events| - 1]) + One(e.LoadList? || e.NoticeList?)
  }

  function DetailsAsked(events: seq<Event>): nat {
    if events == [] then 0
    else
      var e := events[|events| - 1];
      DetailsAsked(events[..|events| - 1]) + One(e.LoadDetail? || e.NoticeDetail? || e.EffectRuns?)
  }

  /** The fetches there were and the loads still to come. */
  function ListLoads(w: World): nat {
    |w.lists.fetches| + One(w.panel.list.pending)
  }

  function DetailLoads(w: World): nat {
    |w.details.fetches| + |w.details.microtasks| + One(w.panel.detail.pending.Some?)
  }

  lemma ListLoadsStep(w: World, e: Event)
    ensures ListLoads(Step(w, e)) <= ListLoads(w) + One(e.LoadList? || e.NoticeList?)
  {
  }

  lemma DetailLoadsStep(w: World, e: Event)
    ensures DetailLoads(Step(w, e)) <= DetailLoads(w) + One(e.LoadDetail? || e.NoticeDetail? || e.EffectRuns?)
  {
    if e.DetailSettles? && Enabled(w, e) {
      DetailLoadsSettle(w, e.fetch, e.detailReply);
    }
  }

  lemma DetailLoadsSettle(w: World, i: nat, reply: DetailReply)
    requires i < |w.details.fetches|
    ensures DetailLoads(StepDetailSettles(w, i, reply)) <= DetailLoads(w)
  {
  }

  /** In every run there are no more fetches than requests for one: a load that is put off is made once,
      and the loaders never start one of their own accord. */
  lemma {:induction false} LoadsAreAsked(events: seq<Event>)
    ensures ListLoads(After(events)) <= ListsAsked(events) && DetailLoads(After(events)) <= DetailsAsked(events)
  {
    if events != [] {
      LoadsAreAsked(events[..|events| - 1]);
      ListLoadsStep(After(events[..|events| - 1]), events[|events| - 1]);
      DetailLoadsStep(After(events[..|events| - 1]), events[|events| - 1]);
    }
  }

  // ---- Whose workspace is on screen ----

  /** Another request's workspace stays on screen only while the load the effect asked for is
      under way, or once it is lost. */
  predicate WorkspaceKept(w: World) {
    var log := w.details;
    && (log.lost ==> Elsewhere(w.panel.view, log.ran))
    && (Elsewhere(w.panel.view, log.ran) && !log.lost ==>
          LoudDetailOpen(log) && Some(log.fetches[|log.fetches| - 1].id) == log.ran)
  }

  lemma WorkspaceSettles(w: World, i: nat, reply: DetailReply)
    requires DetailHolds(w) && WorkspaceKept(w) && Enabled(w, DetailSettles(i, reply))
    ensures WorkspaceKept(StepDetailSettles(w, i, reply))
  {
  }

  lemma WorkspaceLists(w: World, i: nat, reply: ListReply)
    requires WorkspaceKept(w) && i < |w.lists.fetches|
    ensures WorkspaceKept(StepListSettles(w, i, reply))
  {
  }

  lemma WorkspaceStarts(w: World, id: Id)
    requires DetailHolds(w) && WorkspaceKept(w)
    ensures WorkspaceKept(StepDetail(w, id, true)) && WorkspaceKept(StepDetailNotice(w, id))
    ensures WorkspaceKept(StepDetailLoad(w, id)) && WorkspaceKept(StepEffect(w))
  {
  }

  lemma WorkspaceMicrotask(w: World)
    requires DetailHolds(w) && WorkspaceKept(w) && w.details.microtasks != []
    ensures var v := w.(details := w.details.(microtasks := w.details.microtasks[1..]));
            WorkspaceKept(StepDetail(v, w.details.microtasks[0], true))
  {
  }

  lemma WorkspaceOther(w: World, e: Event)
    requires WorkspaceKept(w) && (e.LoadList? || e.NoticeList? || e.Choose?)
    ensures WorkspaceKept(Step(w, e))
  {
  }

  lemma WorkspaceStep(w: World, e: Event)
    requires DetailHolds(w) && WorkspaceKept(w)
    ensures WorkspaceKept(Step(w, e))
  {
    if Enabled(w, e) {
      match e
      case ListSettles(i, reply) => WorkspaceLists(w, i, reply);
      case LoadDetail(id) => WorkspaceStarts(w, id);
      case NoticeDetail(id) => WorkspaceStarts(w, id);
      case DetailSettles(i, reply) => WorkspaceSettles(w, i, reply);
      case RunMicrotask => WorkspaceMicrotask(w);
      case EffectRuns => WorkspaceStarts(w, "");
      case _ => WorkspaceOther(w, e);
    }
  }

  lemma {:induction false} WorkspaceRuns(events: seq<Event>)
    ensures WorkspaceKept(After(events))
  {
    if events != [] {
      WorkspaceRuns(events[..|events| - 1]);
      DetailLoaderRuns(events[..|events| - 1]);
      WorkspaceStep(After(events[..|events| - 1]), events[|events| - 1]);
    }
  }

  /** At rest, with nothing loading and the effect of the selection run, the workspace on screen
      is the selected request's exactly if no load that the selection asked for is lost. */
  lemma {:induction false} WorkspaceIsSelectedExactly(events: seq<Event>)
    requires !After(events).panel.detail.inFlight && After(events).panel.view.selected == After(events).details.ran
    requires After(events).panel.view.workspace.Some?
    ensures var w := After(events);
            w.panel.view.selected == Some(w.panel.view.workspace.value.id) <==> !w.details.lost
  {
    DetailLoaderRuns(events);
    WorkspaceRuns(events);
  }

  /** Events as the panel offers them: an action loads the request on screen, which is hidden
      while one is loading; and the effect of a selection runs before the next choice or list. */
  predicate Offered(w: World, e: Event) {
    match e
    case LoadDetail(id) =>
      && !w.panel.detail.loading
      && w.panel.view.workspace.Some? && w.panel.view.workspace.value.id == id
    case Choose(_) => w.panel.view.selected == w.details.ran
    case ListSettles(_, _) => w.panel.view.selected == w.details.ran
    case _ => true
  }

  predicate AllOffered(events: seq<Event>) {
    events != [] ==>
      AllOffered(events[..|events| - 1]) && Offered(After(events[..|events| - 1]), events[|events| - 1])
  }

  predicate NothingLost(w: World) {
    w.panel.view.selected == w.details.ran ==> !w.details.lost
  }

  lemma NothingLostStep(w: World, e: Event)
    requires DetailHolds(w) && WorkspaceKept(w) && NothingLost(w) && Offered(w, e)
    ensures NothingLost(Step(w, e))
  {
    if Enabled(w, e) && e.DetailSettles? {
      assert !(LostBy(w, e.fetch, e.detailReply) && w.panel.view.selected == w.details.ran);
    }
  }

  lemma {:induction false} NothingLostRuns(events: seq<Event>)
    requires AllOffered(events)
    ensures NothingLost(After(events))
  {
    if events != [] {
      var front := events[..|events| - 1];
      NothingLostRuns(front);
      WorkspaceRuns(front);
      DetailLoaderRuns(front);
      NothingLostStep(After(front), events[|events| - 1]);
    }
  }

  /** In every run of such events the workspace on screen at rest is the selected request's. */
  lemma {:induction false} WorkspaceIsSelected(events: seq<Event>)
    requires AllOffered(events) && After(events).panel.view.workspace.Some?
    requires !After(events).panel.detail.inFlight && After(events).panel.view.selected == After(events).details.ran
    ensures After(events).panel.view.selected == Some(After(events).panel.view.workspace.value.id)
  {
    NothingLostRuns(events);
    WorkspaceIsSelectedExactly(events);
  }

  lemma Extended(events: seq<Event>, e: Event) returns (more: seq<Event>)
    ensures After(more) == Step(After(events), e)
  {
    more := events + [e];
    assert more[..|events|] == events;
  }

  /** A request open, another chosen and loading, and a list load under way. */
  lemma OneOpenOneLoading(first: Workspace, second: Id) returns (events: seq<Event>)
    requires first.id != second
    ensures var w := After(events);
            && w.panel.view.selected == Some(second) == w.details.ran && w.panel.view.workspace == Some(first)
            && |w.details.fetches| == 2 == w.panel.detail.generation && !w.details.fetches[1].settled
            && w.details.fetches[1] == DetailFetch(second, false, false) && w.panel.detail.pending.None?
            && |w.lists.fetches| == 1 == w.panel.list.generation && !w.lists.fetches[0].settled
            && !w.panel.list.pending
  {
    events := Extended([], Choose(Some(first.id)));
    events := Extended(events, EffectRuns);
    events := Extended(events, DetailSettles(0, Opened(first)));
    events := Extended(events, LoadList);
    events := Extended(events, Choose(Some(second)));
    events := Extended(events, EffectRuns);
  }

  /** Without that order it may not be: a list without the chosen request selects another, the
      reply of the chosen one is dropped, and choosing it again before the effect has run leaves
      the first request on screen under the second's name. */
  lemma {:induction false} ReturnBeforeEffectKeepsOther(first: Workspace, second: Workspace, third: Summary)
    returns (events: seq<Event>)
    requires first.id != second.id && second.id != third.id
    ensures var w := After(events);
            && w.panel.view.selected == Some(second.id) == w.details.ran && w.panel.view.workspace == Some(first)
            && !w.panel.detail.inFlight && !w.panel.detail.loading
  {
    events := OneOpenOneLoading(first, second.id);
    events := Extended(events, ListSettles(0, Listed([third], 1)));
    events := Extended(events, DetailSettles(1, Opened(second)));
    events := Extended(events, Choose(Some(second.id)));
  }
}
