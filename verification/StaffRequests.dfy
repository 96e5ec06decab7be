/** The open request of the staff inbox: `loadDetail`, the effects around it and the draft of
    a new assignee, of src/components/StaffRequestsPanel.tsx. A live refresh is silent: it
    waits for a loud load in progress, and merges into what the team is editing. */
module StaffRequests {
  import opened Wrappers

  type Id = string

  /** A request as the server sends it; no assignee reads as the empty string. */
  datatype Detail = Detail(id: Id, assignee: string)

  datatype Reply = Found(detail: Detail) | DetailError(message: string)

  datatype Panel = Panel(generation: nat, loading: bool, pending: Option<Id>, selectedId: Option<Id>,
                         selected: Option<Detail>, draft: string, nextStatus: string, statusReason: string,
                         error: Option<string>)

  const INITIAL_PANEL: Panel := Panel(0, false, None, None, None, "", "", "", None)

  function StoredAssignee(selected: Option<Detail>): string {
    if selected.Some? then selected.value.assignee else ""
  }

  function Start(p: Panel, id: Id, silent: bool): Panel {
    if silent && p.loading then p.(pending := Some(id))
    else if silent then p.(generation := p.generation + 1)
    else p.(generation := p.generation + 1, loading := true, error := None)
  }

  /** A live refresh moves the draft only if it still shows the assignee stored before. */
  function StoreLive(p: Panel, d: Detail): Panel {
    p.(selected := Some(d), draft := if p.draft == StoredAssignee(p.selected) then d.assignee else p.draft)
  }

  function StoreLoud(p: Panel, d: Detail): Panel {
    p.(selected := Some(d), draft := d.assignee, nextStatus := "", statusReason := "")
  }

  function Settle(p: Panel, generation: nat, silent: bool, reply: Reply): Panel {
    if p.generation != generation then p else
    match reply
    case Found(d) => if silent then StoreLive(p, d) else StoreLoud(p, d).(loading := false)
    case DetailError(message) => if silent then p else p.(error := Some(message), loading := false)
  }

  /** The effect of a new selection. */
  function Choose(p: Panel, id: Option<Id>): Panel {
    var q := p.(selectedId := id);
    if id.Some? then Start(q, id.value, false) else q.(selected := None)
  }

  /** The effect that runs when the loading flag changes. */
  function Drain(p: Panel): Panel {
    if p.loading || p.pending.None? then p
    else if p.pending == p.selectedId then Start(p.(pending := None), p.pending.value, true)
    else p.(pending := None)
  }

  class StaffRequestsPanel {
    var loadDetailGeneration: nat
    var loadingDetail: bool
    var pendingLiveDetail: Option<Id>
    var selectedId: Option<Id>
    var selected: Option<Detail>
    var assignmentId: string
    var nextStatus: string
    var statusReason: string
    var error: Option<string>

    ghost function State(): Panel
      reads this
    {
      Panel(loadDetailGeneration, loadingDetail, pendingLiveDetail, selectedId, selected, assignmentId,
            nextStatus, statusReason, error)
    }

    constructor ()
      ensures State() == INITIAL_PANEL
    {
      loadDetailGeneration, loadingDetail, pendingLiveDetail := 0, false, None;
      selectedId, selected, assignmentId, nextStatus, statusReason, error := None, None, "", "", "", None;
    }

    /** The part of `loadDetail` before its fetch. */
    method LoadDetail(id: Id, silent: bool)
      modifies this
      ensures State() == Start(old(State()), id, silent)
    {
      if silent && loadingDetail {
        pendingLiveDetail := Some(id);
        return;
      }
      loadDetailGeneration := loadDetailGeneration + 1;
      if !silent {
        loadingDetail := true;
        error := None;
      }
    }

    /** The part of `loadDetail` after its fetch. */
    method SettleDetail(generation: nat, silent: bool, reply: Reply)
      modifies this
      ensures State() == Settle(old(State()), generation, silent, reply)
    {
      if loadDetailGeneration != generation {
        return;
      }
      match reply {
        case Found(data) =>
          if silent {
            var previousAssignee := StoredAssignee(selected);
            selected := Some(data);
            if assignmentId == previousAssignee {
              assignmentId := data.assignee;
            }
          } else {
            selected := Some(data);
            assignmentId := data.assignee;
            nextStatus := "";
            statusReason := "";
          }
        case DetailError(message) =>
          if !silent {
            error := Some(message);
          }
      }
      if !silent {
        loadingDetail := false;
      }
    }

    method SelectionEffect(id: Option<Id>)
      modifies this
      ensures State() == Choose(old(State()), id)
    {
      selectedId := id;
      if id.Some? {
        LoadDetail(id.value, false);
      } else {
        selected := None;
      }
    }

    method PendingEffect()
      modifies this
      ensures State() == Drain(old(State()))
    {
      if loadingDetail || pendingLiveDetail.None? {
        return;
      }
      var id := pendingLiveDetail.value;
      pendingLiveDetail := None;
      if Some(id) == selectedId {
        LoadDetail(id, true);
      }
    }
  }

  // ---- Runs ----

  datatype Fetch = Fetch(id: Id, silent: bool, settled: bool)

  /** `due` while the effect of a lowered loading flag has not run; `owed` is the selected
      request of a notice that no fetch of it has started after; `stray` whether the detail on
      screen was stored while another request was selected; `failed` whether a loud load has
      failed, as the newest, since a reply was stored; `edited` whether the draft was edited since
      a loud reply was stored; `stale` whether the detail was forgotten under a draft that no reply
      has caught up with since. */
  datatype World = World(panel: Panel, fetches: seq<Fetch>, due: bool, owed: Option<Id>, stray: bool, failed: bool,
                         edited: bool, stale: bool)

  datatype Event =
    | Selects(id: Option<Id>)
    | Reload(reloaded: Id)
    | Live
    | Settles(fetch: nat, reply: Reply)
    | EffectRuns
    | Edits(draft: string)
    | Fills(status: string, reason: string)
    | Forgets
    | Reports(error: Option<string>)

  predicate Enabled(w: World, e: Event) {
    e.Settles? ==>
      && e.fetch < |w.fetches| && !w.fetches[e.fetch].settled
      && (e.reply.Found? ==> e.reply.detail.id == w.fetches[e.fetch].id)
  }

  /** The world after the panel may have started a fetch: a fetch of the owed request, or
      another selection, releases what is owed. */
  function Started(w: World, p: Panel, id: Id, silent: bool): World {
    var owed := if w.owed == p.selectedId then w.owed else None;
    if p.generation == w.panel.generation then w.(panel := p, owed := owed)
    else w.(panel := p, fetches := w.fetches + [Fetch(id, silent, false)],
            owed := if owed == Some(id) then None else owed)
  }

  /** The newest fetch is of another request than the selected one. */
  predicate Astray(w: World) {
    w.fetches != [] && Some(w.fetches[|w.fetches| - 1].id) != w.panel.selectedId
  }

  /** One event of the world; one that is not enabled changes nothing. A failed list load
      forgets the open request; list loads and actions set and clear the same error. */
  function Step(w: World, e: Event): World {
    if !Enabled(w, e) then w else
    match e
    case Selects(id) =>
      var stale := if id.None? then w.panel.draft != "" else w.stale;
      Started(w.(stray := w.stray && id.Some?, stale := stale), Choose(w.panel, id),
              if id.Some? then id.value else "", false)
    case Reload(id) => Started(w, Start(w.panel, id, false), id, false)
    case Live =>
      if w.panel.selectedId.None? then w
      else
        var id := w.panel.selectedId.value;
        Started(w.(owed := Some(id)), Start(w.panel, id, true), id, true)
    case Settles(i, reply) =>
      var f := w.fetches[i];
      var p := Settle(w.panel, i + 1, f.silent, reply);
      var newest := i + 1 == w.panel.generation;
      w.(panel := p, fetches := w.fetches[i := f.(settled := true)], due := w.due || (w.panel.loading && !p.loading),
         stray := if newest && reply.Found? then Astray(w) else w.stray,
         failed := if newest && reply.Found? then false else w.failed || (newest && !f.silent),
         edited := w.edited && !(newest && reply.Found? && !f.silent),
         stale := w.stale && !(newest && reply.Found? && (!f.silent || reply.detail.assignee == w.panel.draft)))
    case EffectRuns =>
      Started(w.(due := false), Drain(w.panel), if w.panel.pending.Some? then w.panel.pending.value else "", true)
    case Edits(draft) => w.(panel := w.panel.(draft := draft), edited := true)
    case Fills(status, reason) => w.(panel := w.panel.(nextStatus := status, statusReason := reason))
    case Forgets => w.(panel := w.panel.(selected := None), stray := false, stale := w.panel.draft != "")
    case Reports(error) => w.(panel := w.panel.(error := error))
  }

  const INITIAL_WORLD: World := World(INITIAL_PANEL, [], false, None, false, false, false, false)

  function Run(w: World, events: seq<Event>): World {
    if events == [] then w else Step(Run(w, events[..|events| - 1]), events[|events| - 1])
  }

  function After(events: seq<Event>): World {
    Run(INITIAL_WORLD, events)
  }

  predicate LoudOpen(fetches: seq<Fetch>) {
    fetches != [] && !fetches[|fetches| - 1].settled && !fetches[|fetches| - 1].silent
  }

  predicate Invariant(w: World) {
    && w.panel.generation == |w.fetches|
    && (w.panel.loading <==> LoudOpen(w.fetches))
    && (w.panel.pending.Some? ==> w.panel.loading || w.due)
    && (w.owed.Some? ==> w.owed == w.panel.selectedId && w.panel.pending == w.owed)
  }

  lemma SelectsKeeps(w: World, id: Option<Id>)
    requires Invariant(w)
    ensures Invariant(Step(w, Selects(id)))
  {
  }

  lemma ReloadKeeps(w: World, id: Id)
    requires Invariant(w)
    ensures Invariant(Step(w, Reload(id)))
  {
  }

  lemma LiveKeeps(w: World)
    requires Invariant(w)
    ensures Invariant(Step(w, Live))
  {
  }

  lemma SettlesKeeps(w: World, i: nat, reply: Reply)
    requires Invariant(w)
    ensures Invariant(Step(w, Settles(i, reply)))
  {
  }

  lemma EffectKeeps(w: World)
    requires Invariant(w)
    ensures Invariant(Step(w, EffectRuns))
  {
  }

  lemma StepKeeps(w: World, e: Event)
    requires Invariant(w)
    ensures Invariant(Step(w, e))
  {
    match e
    case Selects(id) => SelectsKeeps(w, id);
    case Reload(id) => ReloadKeeps(w, id);
    case Live => LiveKeeps(w);
    case Settles(i, reply) => SettlesKeeps(w, i, reply);
    case EffectRuns => EffectKeeps(w);
    case _ =>
  }

  /** In every run loading holds exactly while the newest fetch is an unsettled loud one, and
      a fetch that is owed is pending with its effect still to come. */
  lemma {:induction false} StaffLoaderRuns(events: seq<Event>)
    ensures Invariant(After(events))
    ensures After(events).panel.loading <==> LoudOpen(After(events).fetches)
  {
    if events != [] {
      StaffLoaderRuns(events[..|events| - 1]);
      StepKeeps(After(events[..|events| - 1]), events[|events| - 1]);
    }
  }

  /** A silent load never supersedes an unsettled loud one. */
  lemma {:induction false} SilentNeverSupersedesLoud(events: seq<Event>, e: Event)
    requires |Step(After(events), e).fetches| > |After(events).fetches|
    requires Step(After(events), e).fetches[|After(events).fetches|].silent
    ensures !LoudOpen(After(events).fetches)
  {
    StaffLoaderRuns(events);
    if e.Settles? || e.Selects? || e.Reload? {
      NoSilentStart(After(events), e);
    }
  }

  lemma NoSilentStart(w: World, e: Event)
    requires e.Settles? || e.Selects? || e.Reload?
    ensures var v := Step(w, e); |v.fetches| > |w.fetches| ==> !v.fetches[|w.fetches|].silent
  {
  }

  /** No live notice for the selected request is dropped: when nothing is loading and no effect
      is due, a fetch of it has started since, or another request was selected. */
  lemma {:induction false} NothingOwedAtRest(events: seq<Event>)
    requires !After(events).panel.loading && !After(events).due
    ensures After(events).owed.None? && After(events).panel.pending.None?
  {
    StaffLoaderRuns(events);
  }

  /** A start of a load drops what is owed only for a fetch of it, or for another selection. */
  lemma StartedReleases(w: World, p: Panel, id: Id, silent: bool, owed: Id)
    requires w.owed == Some(owed) && Started(w, p, id, silent).owed != Some(owed)
    ensures p.selectedId != Some(owed) || (p.generation != w.panel.generation && id == owed)
  {
  }

  lemma OwedSelects(w: World, other: Option<Id>, id: Id)
    requires w.owed == Some(id) && Step(w, Selects(other)).owed != Some(id)
    ensures var v := Step(w, Selects(other));
            || v.panel.selectedId != Some(id)
            || (|v.fetches| == |w.fetches| + 1 && v.fetches[|w.fetches|].id == id)
  {
  }

  lemma OwedEffect(w: World, id: Id)
    requires w.owed == Some(id) && Step(w, EffectRuns).owed != Some(id)
    ensures var v := Step(w, EffectRuns);
            || v.panel.selectedId != Some(id)
            || (|v.fetches| == |w.fetches| + 1 && v.fetches[|w.fetches|].id == id)
  {
  }

  lemma OwedIsReleased(w: World, e: Event, id: Id)
    requires w.owed == Some(id) && Step(w, e).owed != Some(id)
    ensures var v := Step(w, e);
            || v.panel.selectedId != Some(id)
            || (|v.fetches| == |w.fetches| + 1 && v.fetches[|w.fetches|].id == id)
  {
    match e
    case Selects(other) => OwedSelects(w, other, id);
    case Reload(other) => StartedReleases(w, Start(w.panel, other, false), other, false, id);
    case Live =>
    case EffectRuns => OwedEffect(w, id);
    case _ => assert false;
  }

  /** The refresh put off, from the events alone: that of the last notice during a loud load, until the
      effect runs with nothing loading. */
  function PendingAfter(events: seq<Event>): Option<Id> {
    if events == [] then None
    else PendingBy(After(events[..|events| - 1]), events[|events| - 1], PendingAfter(events[..|events| - 1]))
  }

  function PendingBy(w: World, e: Event, before: Option<Id>): Option<Id> {
    if e.Live? && w.panel.selectedId.Some? && LoudOpen(w.fetches) then w.panel.selectedId
    else if e.EffectRuns? && !LoudOpen(w.fetches) then None
    else before
  }

  lemma PendingStep(w: World, e: Event)
    requires Invariant(w)
    ensures Step(w, e).panel.pending == PendingBy(w, e, w.panel.pending)
  {
    match e
    case Settles(i, reply) => PendingSettles(w, i, reply);
    case Selects(id) => PendingSelects(w, id);
    case _ =>
  }

  lemma PendingSettles(w: World, i: nat, reply: Reply)
    ensures Step(w, Settles(i, reply)).panel.pending == w.panel.pending
  {
  }

  lemma PendingSelects(w: World, id: Option<Id>)
    ensures Step(w, Selects(id)).panel.pending == w.panel.pending
  {
  }

  lemma {:induction false} PendingRuns(events: seq<Event>)
    ensures After(events).panel.pending == PendingAfter(events)
  {
    if events != [] {
      StaffLoaderRuns(events[..|events| - 1]);
      PendingRuns(events[..|events| - 1]);
      PendingStep(After(events[..|events| - 1]), events[|events| - 1]);
    }
  }

  // ---- No load that was not asked for ----

  function Asks(events: seq<Event>): nat {
    if events == [] then 0
    else
      var e := events[|events| - 1];
      Asks(events[..|events| - 1]) + if e.Selects? || e.Reload? || e.Live? then 1 else 0
  }

  /** The fetches there were, and one still to come. */
  function Loads(w: World): nat {
    |w.fetches| + if w.panel.pending.Some? then 1 else 0
  }

  lemma LoadsStep(w: World, e: Event)
    ensures Loads(Step(w, e)) <= Loads(w) + if e.Selects? || e.Reload? || e.Live? then 1 else 0
  {
    match e
    case Selects(id) => LoadsSelect(w, id);
    case Settles(i, reply) => LoadsSettle(w, i, reply);
    case _ =>
  }

  lemma LoadsSelect(w: World, id: Option<Id>)
    ensures Loads(Step(w, Selects(id))) <= Loads(w) + 1
  {
  }

  lemma LoadsSettle(w: World, i: nat, reply: Reply)
    ensures Loads(Step(w, Settles(i, reply))) <= Loads(w)
  {
  }

  /** In every run there are no more fetches than selections, reloads and notices. */
  lemma {:induction false} LoadsAreAsked(events: seq<Event>)
    ensures Loads(After(events)) <= Asks(events)
  {
    if events != [] {
      LoadsAreAsked(events[..|events| - 1]);
      LoadsStep(After(events[..|events| - 1]), events[|events| - 1]);
    }
  }

  // ---- Whose detail is on screen ----

  /** Whether the newest fetch is astray, from the events alone: clearing the selection or loading
      another request again leads it astray, and the next load of the selected request back. */
  predicate GoneAstray(events: seq<Event>) {
    events != [] &&
    LedAstray(After(events[..|events| - 1]), events[|events| - 1], GoneAstray(events[..|events| - 1]))
  }

  predicate LedAstray(w: World, e: Event, before: bool) {
    match e
    case Selects(id) => id.None? && w.fetches != []
    case Reload(id) => Some(id) != w.panel.selectedId
    case Live => before && (w.panel.selectedId.None? || w.panel.loading)
    case EffectRuns => before && Drain(w.panel).generation == w.panel.generation
    case _ => before
  }

  lemma AstraySettles(w: World, i: nat, reply: Reply)
    requires Invariant(w)
    ensures Astray(Step(w, Settles(i, reply))) <==> Astray(w)
  {
  }

  lemma AstraySelects(w: World, id: Option<Id>)
    requires Invariant(w)
    ensures Astray(Step(w, Selects(id))) <==> id.None? && w.fetches != []
  {
  }

  lemma AstrayStep(w: World, e: Event)
    requires Invariant(w)
    ensures Astray(Step(w, e)) <==> LedAstray(w, e, Astray(w))
  {
    match e
    case Selects(id) => AstraySelects(w, id);
    case Settles(i, reply) => AstraySettles(w, i, reply);
    case EffectRuns => AstrayEffect(w);
    case _ =>
  }

  lemma AstrayEffect(w: World)
    requires Invariant(w)
    ensures Astray(Step(w, EffectRuns)) <==> Astray(w) && Drain(w.panel).generation == w.panel.generation
  {
  }

  lemma {:induction false} AstrayExactly(events: seq<Event>)
    ensures Astray(After(events)) <==> GoneAstray(events)
  {
    if events != [] {
      StaffLoaderRuns(events[..|events| - 1]);
      AstrayExactly(events[..|events| - 1]);
      AstrayStep(After(events[..|events| - 1]), events[|events| - 1]);
    }
  }

  /** A reply is stored without a look at the selection, so what it shows is the selected
      request exactly if the events have not led the newest fetch astray. */
  lemma {:induction false} StoresSelectedExactly(events: seq<Event>, i: nat, d: Detail)
    requires i + 1 == |After(events).fetches| && Enabled(After(events), Settles(i, Found(d)))
    ensures var v := Step(After(events), Settles(i, Found(d)));
            v.panel.selected == Some(d) && (v.panel.selectedId == Some(d.id) <==> !GoneAstray(events))
  {
    StaffLoaderRuns(events);
    AstrayExactly(events);
  }

  predicate ShownIsKept(w: World) {
    w.panel.selected.Some? && !w.panel.loading && !w.failed ==>
      (w.panel.selectedId == Some(w.panel.selected.value.id) <==> !w.stray)
  }

  lemma ShownSettles(w: World, i: nat, reply: Reply)
    requires Invariant(w) && ShownIsKept(w)
    ensures ShownIsKept(Step(w, Settles(i, reply)))
  {
  }

  lemma ShownSelects(w: World, id: Option<Id>)
    requires Invariant(w) && ShownIsKept(w)
    ensures ShownIsKept(Step(w, Selects(id)))
  {
  }

  lemma ShownStep(w: World, e: Event)
    requires Invariant(w) && ShownIsKept(w)
    ensures ShownIsKept(Step(w, e))
  {
    if e.Settles? {
      ShownSettles(w, e.fetch, e.reply);
    } else if e.Selects? {
      ShownSelects(w, e.id);
    } else if e.Live? || e.EffectRuns? {
      ShownLive(w);
    }
  }

  lemma ShownLive(w: World)
    requires Invariant(w) && ShownIsKept(w)
    ensures ShownIsKept(Step(w, Live)) && ShownIsKept(Step(w, EffectRuns))
  {
  }

  /** With nothing loading and no load failed since a reply was stored, the detail on screen is
      the selected request's exactly if it was not stored astray. */
  lemma {:induction false} ShownIsSelectedExactly(events: seq<Event>)
    ensures ShownIsKept(After(events))
  {
    if events != [] {
      ShownIsSelectedExactly(events[..|events| - 1]);
      StaffLoaderRuns(events[..|events| - 1]);
      ShownStep(After(events[..|events| - 1]), events[|events| - 1]);
    }
  }

  lemma Extended(events: seq<Event>, e: Event) returns (more: seq<Event>)
    ensures After(more) == Step(After(events), e)
  {
    more := events + [e];
    assert more[..|events|] == events;
  }

  /** Clearing the selection does not supersede the load: its reply still comes on screen. */
  lemma {:induction false} ClearedIsShown(d: Detail) returns (events: seq<Event>)
    ensures var p := After(events).panel;
            p.selectedId == None && p.selected == Some(d) && !p.loading && p.error.None?
  {
    events := Extended([], Selects(Some(d.id)));
    events := Extended(events, Selects(None));
    events := Extended(events, Settles(0, Found(d)));
  }

  /** And a load that fails leaves the request selected before on screen, also when a list load
      or an action has cleared its error. */
  lemma {:induction false} FailedLoadKeepsOther(d: Detail, other: Id, message: string, error: Option<string>)
    returns (events: seq<Event>)
    ensures var p := After(events).panel;
            p.selectedId == Some(other) && p.selected == Some(d) && !p.loading && p.error == error
  {
    events := Extended([], Selects(Some(d.id)));
    events := Extended(events, Settles(0, Found(d)));
    events := Extended(events, Selects(Some(other)));
    events := Extended(events, Settles(1, DetailError(message)));
    events := Extended(events, Reports(error));
  }

  // ---- The draft ----

  /** The loud reply that replaces the draft. */
  predicate StoresLoud(w: World, e: Event) {
    && e.Settles? && Enabled(w, e) && !w.fetches[e.fetch].silent
    && e.fetch + 1 == w.panel.generation && e.reply.Found?
  }

  /** Whatever refreshes, loads and selections come and go, a draft that differs from the
      stored assignee all along is never overwritten, short of an edit or a loud reply. */
  lemma {:induction false} DraftKept(w: World, events: seq<Event>)
    requires forall k | 0 <= k < |events| ::
               var v := Run(w, events[..k]);
               StoredAssignee(v.panel.selected) != w.panel.draft && !StoresLoud(v, events[k]) && !events[k].Edits?
    ensures Run(w, events).panel.draft == w.panel.draft
  {
    if events != [] {
      var front, last := events[..|events| - 1], events[|events| - 1];
      forall k | 0 <= k < |front| ensures front[..k] == events[..k] && front[k] == events[k] {
      }
      DraftKept(w, front);
      assert events[..|events| - 1] == front;
      DraftStep(Run(w, front), last);
    }
  }

  lemma DraftSettles(w: World, i: nat, reply: Reply)
    requires StoredAssignee(w.panel.selected) != w.panel.draft && !StoresLoud(w, Settles(i, reply))
    ensures Step(w, Settles(i, reply)).panel.draft == w.panel.draft
  {
  }

  lemma DraftStep(w: World, e: Event)
    requires StoredAssignee(w.panel.selected) != w.panel.draft && !StoresLoud(w, e) && !e.Edits?
    ensures Step(w, e).panel.draft == w.panel.draft
  {
    if e.Settles? {
      DraftSettles(w, e.fetch, e.reply);
    }
  }

  // ---- What a loud reply does to the forms ----

  /** A loud reply of the newest fetch sets the draft to its assignee and empties the status form. */
  lemma {:induction false} LoudReplyResets(events: seq<Event>, i: nat, d: Detail)
    requires StoresLoud(After(events), Settles(i, Found(d)))
    ensures var p := Step(After(events), Settles(i, Found(d))).panel;
            p.draft == d.assignee && p.nextStatus == "" && p.statusReason == ""
  {
    StaffLoaderRuns(events);
  }

  /** The status form as the events leave it: what was filled in since the last loud reply. */
  function FormAfter(events: seq<Event>): (string, string) {
    if events == [] then ("", "")
    else FormBy(After(events[..|events| - 1]), events[|events| - 1], FormAfter(events[..|events| - 1]))
  }

  function FormBy(w: World, e: Event, before: (string, string)): (string, string) {
    if e.Fills? then (e.status, e.reason) else if StoresLoud(w, e) then ("", "") else before
  }

  /** And the error: that of the last loud failure since a loud start, or what was reported since. */
  function ErrorAfter(events: seq<Event>): Option<string> {
    if events == [] then None
    else ErrorBy(After(events[..|events| - 1]), events[|events| - 1], ErrorAfter(events[..|events| - 1]))
  }

  function ErrorBy(w: World, e: Event, before: Option<string>): Option<string> {
    match e
    case Selects(id) => if id.Some? then None else before
    case Reload(_) => None
    case Reports(error) => error
    case Settles(i, reply) => if FailsLoud(w, i, reply) then Some(reply.message) else before
    case _ => before
  }

  predicate FailsLoud(w: World, i: nat, reply: Reply) {
    && reply.DetailError? && i + 1 == |w.fetches| && !w.fetches[i].settled && !w.fetches[i].silent
  }

  lemma {:induction false} FormsRun(events: seq<Event>)
    ensures var p := After(events).panel; (p.nextStatus, p.statusReason) == FormAfter(events)
  {
    if events != [] {
      var front, e := events[..|events| - 1], events[|events| - 1];
      FormsRun(front);
      StaffLoaderRuns(front);
      FormStep(After(front), e);
    }
  }

  lemma FormStep(w: World, e: Event)
    requires Invariant(w)
    ensures var p, q := w.panel, Step(w, e).panel;
            (q.nextStatus, q.statusReason) == FormBy(w, e, (p.nextStatus, p.statusReason))
  {
    if e.Settles? {
      FormSettles(w, e.fetch, e.reply);
    } else if !e.Fills? {
      FormUntouched(w, e);
    }
  }

  lemma FormUntouched(w: World, e: Event)
    requires !e.Settles? && !e.Fills?
    ensures SameForm(w.panel, Step(w, e).panel)
  {
    match e
    case Selects(id) => assert SameForm(w.panel, Choose(w.panel, id));
    case EffectRuns => assert SameForm(w.panel, Drain(w.panel));
    case _ =>
  }

  predicate SameForm(p: Panel, q: Panel) {
    q.nextStatus == p.nextStatus && q.statusReason == p.statusReason
  }

  lemma FormSettles(w: World, i: nat, reply: Reply)
    requires Invariant(w)
    ensures var e := Settles(i, reply);
            var p, q := w.panel, Step(w, e).panel;
            (q.nextStatus, q.statusReason) == FormBy(w, e, (p.nextStatus, p.statusReason))
  {
  }

  lemma {:induction false} ErrorsRun(events: seq<Event>)
    ensures After(events).panel.error == ErrorAfter(events)
  {
    if events != [] {
      var front := events[..|events| - 1];
      ErrorsRun(front);
      StaffLoaderRuns(front);
      ErrorStep(After(front), events[|events| - 1]);
    }
  }

  lemma ErrorStep(w: World, e: Event)
    requires Invariant(w)
    ensures Step(w, e).panel.error == ErrorBy(w, e, w.panel.error)
  {
    if e.Settles? {
      ErrorSettles(w, e.fetch, e.reply);
    }
  }

  lemma ErrorSettles(w: World, i: nat, reply: Reply)
    requires Invariant(w)
    ensures Step(w, Settles(i, reply)).panel.error == ErrorBy(w, Settles(i, reply), w.panel.error)
  {
  }

  /** Without an edit since the last loud reply the draft is the assignee on screen, exactly if the
      detail was not forgotten under it. */
  predicate DraftFollows(w: World) {
    !w.edited ==> (w.panel.draft == StoredAssignee(w.panel.selected) <==> !w.stale)
  }

  lemma DraftFollowsStep(w: World, e: Event)
    requires Invariant(w) && DraftFollows(w)
    ensures DraftFollows(Step(w, e))
  {
    if e.Settles? {
      DraftFollowsSettles(w, e.fetch, e.reply);
    } else if e.Selects? {
      DraftFollowsSelects(w, e.id);
    }
  }

  lemma DraftFollowsSettles(w: World, i: nat, reply: Reply)
    requires Invariant(w) && DraftFollows(w)
    ensures DraftFollows(Step(w, Settles(i, reply)))
  {
  }

  lemma DraftFollowsSelects(w: World, id: Option<Id>)
    requires DraftFollows(w)
    ensures DraftFollows(Step(w, Selects(id)))
  {
  }

  lemma {:induction false} DraftFollowsExactly(events: seq<Event>)
    ensures var w := After(events);
            !w.edited ==> (w.panel.draft == StoredAssignee(w.panel.selected) <==> !w.stale)
  {
    if events != [] {
      DraftFollowsExactly(events[..|events| - 1]);
      StaffLoaderRuns(events[..|events| - 1]);
      DraftFollowsStep(After(events[..|events| - 1]), events[|events| - 1]);
    }
  }

  /** A failed list load forgets the detail but not the draft, so that a live refresh under way then
      leaves the old assignee in it. */
  lemma {:induction false} ForgottenDraftStays(d: Detail, assignee: string) returns (events: seq<Event>)
    requires d.assignee != ""
    ensures var w := After(events);
            && w.panel.selected == Some(d.(assignee := assignee)) && w.panel.draft == d.assignee && !w.edited
            && !w.panel.loading && w.panel.selectedId == Some(d.id)
  {
    events := Extended([], Selects(Some(d.id)));
    events := Extended(events, Settles(0, Found(d)));
    events := Extended(events, Live);
    events := Extended(events, Forgets);
    events := Extended(events, Settles(1, Found(d.(assignee := assignee))));
  }

  function Refreshes(p: Panel, details: seq<Detail>): Panel {
    if details == [] then p else StoreLive(Refreshes(p, details[..|details| - 1]), details[|details| - 1])
  }

  /** The draft was the stored assignee at the start or after some refresh but the last. */
  predicate WasStored(p: Panel, details: seq<Detail>) {
    p.draft == StoredAssignee(p.selected) || exists i | 0 <= i < |details| - 1 :: details[i].assignee == p.draft
  }

  /** After any number of refreshes: the draft follows the last one if it ever coincided with
      a stored assignee, and is untouched if it never did. */
  lemma {:induction false} DraftAfterRefreshes(p: Panel, details: seq<Detail>)
    requires details != []
    ensures Refreshes(p, details).selected == Some(details[|details| - 1])
    ensures Refreshes(p, details).draft
         == if WasStored(p, details) then details[|details| - 1].assignee else p.draft
  {
    var front, last := details[..|details| - 1], details[|details| - 1];
    if front == [] {
      assert Refreshes(p, front) == p;
    } else {
      DraftAfterRefreshes(p, front);
      var previous := front[|front| - 1];
      assert previous == details[|details| - 2];
      assert forall i | 0 <= i < |front| - 1 :: front[i] == details[i];
      if WasStored(p, front) {
        assert WasStored(p, details);
      } else if previous.assignee == p.draft {
        assert details[|details| - 2].assignee == p.draft;
      }
    }
  }
}
