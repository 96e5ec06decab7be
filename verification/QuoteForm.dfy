/** The public quote form and the server that removes duplicates by idempotency key:
    src/components/QuoteForm.tsx and src/server/modules/quote-requests/service.ts. */
module QuoteForm {
  import opened JsText
  import opened JsonText
  import opened QuoteText
  import opened Wrappers

  /** `crypto.randomUUID()` is the next key that was never drawn. */
  type Key = nat

  datatype Field =
    Nombre | Telefono | Email | TipoProyecto | Ubicacion | ProjectStage | Dimensions | Timeline | BudgetRange | Mensaje

  datatype FormData = FormData(nombre: string, telefono: string, email: string, tipoProyecto: string,
                               ubicacion: string, projectStage: string, dimensions: string, timeline: string,
                               budgetRange: string, mensaje: string)
  {
    function With(field: Field, value: string): FormData {
      match field
      case Nombre => this.(nombre := value)
      case Telefono => this.(telefono := value)
      case Email => this.(email := value)
      case TipoProyecto => this.(tipoProyecto := value)
      case Ubicacion => this.(ubicacion := value)
      case ProjectStage => this.(projectStage := value)
      case Dimensions => this.(dimensions := value)
      case Timeline => this.(timeline := value)
      case BudgetRange => this.(budgetRange := value)
      case Mensaje => this.(mensaje := value)
    }
  }

  const INITIAL_DATA: FormData := FormData("", "", "", "", "", "", "", "", "", "")

  /** `/^[^\s@]+@[^\s@]+\.[^\s@]+$/` */
  predicate EmailAddress(s: string) {
    exists at, dot | 0 < at && at + 1 < dot < |s| - 1 ::
      s[at] == '@' && s[dot] == '.' && forall i | 0 <= i < |s| && i != at :: s[i] != '@' && !IsSpace(s[i])
  }

  predicate StepOneValid(d: FormData) {
    && Length(Trim(d.nombre)) >= 2 && Length(Trim(d.telefono)) >= 7 && EmailAddress(Trim(d.email))
    && d.tipoProyecto != "" && Length(Trim(d.ubicacion)) >= 2
  }

  predicate StepTwoValid(d: FormData, acceptTerms: bool) {
    && (Trim(d.dimensions) != "" ==> Length(Trim(d.dimensions)) >= 2)
    && Length(Trim(d.mensaje)) >= 10 && acceptTerms
  }

  datatype Feedback = Registered(folio: nat) | Failed(message: string)

  datatype Form = Form(data: FormData, acceptTerms: bool, key: Option<Key>, submitting: bool,
                       feedback: Option<Feedback>)

  const INITIAL_FORM: Form := Form(INITIAL_DATA, false, None, false, None)

  function UpdateField(f: Form, field: Field, value: string): Form {
    f.(data := f.data.With(field, value), key := None, feedback := None)
  }

  function ChangeConsent(f: Form, checked: bool): Form {
    f.(acceptTerms := checked, key := None, feedback := None)
  }

  predicate Valid(f: Form) {
    StepOneValid(f.data) && StepTwoValid(f.data, f.acceptTerms)
  }

  /** The form as its request leaves: the key drawn by an earlier try, or a fresh one. */
  function Submit(f: Form, uuid: Key): Form {
    if !Valid(f) then f
    else f.(submitting := true, feedback := None, key := if f.key.Some? then f.key else Some(uuid))
  }

  function Settle(f: Form, reply: Feedback): Form {
    match reply
    case Registered(folio) => INITIAL_FORM.(feedback := Some(reply))
    case Failed(_) => f.(feedback := Some(reply), submitting := false)
  }

  class QuoteFormPanel {
    var formData: FormData
    var acceptTerms: bool
    var idempotencyKey: Option<Key>
    var isSubmitting: bool
    var feedback: Option<Feedback>

    ghost function State(): Form
      reads this
    {
      Form(formData, acceptTerms, idempotencyKey, isSubmitting, feedback)
    }

    constructor ()
      ensures State() == INITIAL_FORM
    {
      formData, acceptTerms, idempotencyKey, isSubmitting, feedback := INITIAL_DATA, false, None, false, None;
    }

    method UpdateFormField(field: Field, value: string)
      modifies this
      ensures State() == UpdateField(old(State()), field, value)
    {
      formData := formData.With(field, value);
      idempotencyKey := None;
      if feedback.Some? {
        feedback := None;
      }
    }

    method Consent(checked: bool)
      modifies this
      ensures State() == ChangeConsent(old(State()), checked)
    {
      acceptTerms := checked;
      idempotencyKey := None;
      feedback := None;
    }

    /** `handleSubmit` up to its fetch; it sends nothing while the form is not valid. */
    method HandleSubmit(uuid: Key) returns (sends: bool)
      modifies this
      ensures State() == Submit(old(State()), uuid) && sends == Valid(old(State()))
    {
      if !StepOneValid(formData) || !StepTwoValid(formData, acceptTerms) {
        return false;
      }
      isSubmitting := true;
      feedback := None;
      if idempotencyKey.None? {
        idempotencyKey := Some(uuid);
      }
      return true;
    }

    /** `handleSubmit` after its fetch. */
    method SettleSubmit(reply: Feedback)
      modifies this
      ensures State() == Settle(old(State()), reply)
    {
      feedback := Some(reply);
      if reply.Registered? {
        formData := INITIAL_DATA;
        acceptTerms := false;
        idempotencyKey := None;
      }
      isSubmitting := false;
    }
  }

  // ---- The server ----

  /** What the server compares; the contact is not part of it. */
  datatype Detail = Detail(projectType: string, location: string, dimensions: Option<string>, description: string,
                           projectStage: Option<string>, timeline: Option<string>, budgetRange: Option<string>)

  function Optional(s: string): Option<string> {
    if s == "" then None else Some(s)
  }

  function Candidate(d: FormData): Detail {
    Detail(Text(d.tipoProyecto), Text(d.ubicacion), if d.dimensions == "" then None else Some(Text(d.dimensions)),
           Text(d.mensaje), Optional(d.projectStage), Optional(d.timeline), Optional(d.budgetRange))
  }

  /** A stored request; `source` is the request that created it. */
  datatype Record = Record(key: Key, detail: Detail, source: nat)

  datatype Outcome = Accepted(folio: nat) | Conflict

  /** The record of a key; the folio of a record is its place. */
  function Lookup(records: seq<Record>, key: Key): (found: Option<nat>)
    ensures found.Some? ==> found.value < |records| && records[found.value].key == key
    ensures found.None? ==> forall r | 0 <= r < |records| :: records[r].key != key
  {
    if records == [] then None
    else if records[|records| - 1].key == key then Some(|records| - 1)
    else Lookup(records[..|records| - 1], key)
  }

  function Replay(records: seq<Record>, folio: nat, candidate: Detail): Outcome
    requires folio < |records|
  {
    if records[folio].detail == candidate then Accepted(folio) else Conflict
  }

  // ---- Runs ----

  /** A request as sent; `epoch` counts the edits before it, and it is open until the form has
      settled it. */
  datatype Request = Request(key: Key, data: FormData, consent: bool, website: string, epoch: nat, isOpen: bool)

  /** A transaction of the server: the record it saw when it began, and its outcome. */
  datatype Transaction = Transaction(request: nat, seen: Option<nat>, outcome: Option<Outcome>)

  /** `told` is the request the form settled last, `takes` the server's test of an address. */
  datatype World = World(form: Form, epoch: nat, nextKey: Key, requests: seq<Request>, transactions: seq<Transaction>,
                         records: seq<Record>, told: Option<nat>, takes: string -> bool)

  const PROJECT_STAGES: seq<string> :=
    ["IDEA", "SITE_READY", "UNDER_CONSTRUCTION", "REMODEL", "EQUIPMENT_ONLY", "UNSURE"]
  const TIMELINES: seq<string> :=
    ["ASAP", "ONE_TO_THREE_MONTHS", "THREE_TO_SIX_MONTHS", "SIX_PLUS_MONTHS", "UNSURE"]
  const BUDGET_RANGES: seq<string> :=
    ["UNDER_250K", "FROM_250K_TO_500K", "FROM_500K_TO_1M", "OVER_1M", "UNSURE"]

  predicate TrimmedLength(s: string, least: nat, most: nat) {
    least <= Length(Trim(s)) <= most
  }

  /** The schema of the request body, with the library's test of an address as a parameter; what
      the form leaves empty it does not send. */
  predicate SchemaTakes(d: FormData, takes: string -> bool) {
    && TrimmedLength(d.nombre, 2, 180) && TrimmedLength(d.telefono, 7, 40)
    && takes(Trim(d.email)) && TrimmedLength(d.email, 0, 320)
    && TrimmedLength(d.tipoProyecto, 2, 120) && TrimmedLength(d.ubicacion, 2, 180)
    && (d.projectStage == "" || d.projectStage in PROJECT_STAGES)
    && (d.dimensions == "" || TrimmedLength(d.dimensions, 2, 500))
    && (d.timeline == "" || d.timeline in TIMELINES)
    && (d.budgetRange == "" || d.budgetRange in BUDGET_RANGES)
    && TrimmedLength(d.mensaje, 10, 10_000)
  }

  /** The server trims the honeypot before it asks whether it is empty. */
  predicate PassesHoneypot(website: string) {
    Trim(website) == ""
  }

  const MAX_BODY_BYTES := 16_384

  /** The members of the request's body; what is empty is left out. */
  function BodyEntries(d: FormData, website: string): seq<Entry> {
    [Entry("displayName", Str(d.nombre)), Entry("phone", Str(d.telefono)), Entry("email", Str(d.email)),
     Entry("projectType", Str(d.tipoProyecto)), Entry("location", Str(d.ubicacion))]
    + Unless(d.projectStage, "projectStage") + Unless(d.dimensions, "dimensions")
    + Unless(d.timeline, "timeline") + Unless(d.budgetRange, "budgetRange")
    + [Entry("description", Str(d.mensaje)), Entry("consent", True), Entry("website", Str(website))]
  }

  function Unless(s: string, key: string): seq<Entry> {
    if s == "" then [] else [Entry(key, Str(s))]
  }

  /** The length of the body in bytes. */
  function BodyBytes(d: FormData, website: string): nat {
    ObjectBytes(BodyEntries(d, website))
  }

  /** What the route asks of a request before it creates a record. */
  predicate ServerTakes(q: Request, takes: string -> bool) {
    && q.consent && BodyBytes(q.data, q.website) <= MAX_BODY_BYTES
    && SchemaTakes(q.data, takes) && PassesHoneypot(q.website)
  }

  /** A request may arrive any number of times, at any time, and its replies may be lost. */
  datatype Event =
    | Edits(field: Field, value: string)
    | Consents(checked: bool)
    | Submits(website: string)
    | Arrives(request: nat)
    | Commits(transaction: nat)
    | Replies(transaction: nat)
    | Fails(request: nat, message: string)

  predicate Enabled(w: World, e: Event) {
    match e
    case Edits(_, _) => true
    case Consents(_) => true
    case Submits(_) => Valid(w.form)
    case Arrives(i) => i < |w.requests| && ServerTakes(w.requests[i], w.takes)
    case Commits(t) => t < |w.transactions| && w.transactions[t].outcome.None? && Linked(w, t)
    case Replies(t) =>
      t < |w.transactions| && w.transactions[t].outcome.Some? && Linked(w, t)
      && w.requests[w.transactions[t].request].isOpen
    case Fails(i, _) => i < |w.requests| && w.requests[i].isOpen
  }

  /** The transaction refers to a request and to a record there is. */
  predicate Linked(w: World, t: nat)
    requires t < |w.transactions|
  {
    var x := w.transactions[t];
    x.request < |w.requests| && (x.seen.Some? ==> x.seen.value < |w.records|)
  }

  function Sent(w: World, website: string): World {
    var form := Submit(w.form, w.nextKey);
    if form.key.None? then w else
    w.(form := form, nextKey := if w.form.key.Some? then w.nextKey else w.nextKey + 1,
       requests := w.requests + [Request(form.key.value, form.data, form.acceptTerms, website, w.epoch, true)])
  }

  /** The record it saw is replayed; otherwise one that was stored since, whose key the insert
      runs into; otherwise a record is created. */
  function Committed(w: World, t: nat): World
    requires t < |w.transactions| && Linked(w, t)
  {
    var x := w.transactions[t];
    var q := w.requests[x.request];
    var found := if x.seen.Some? then x.seen else Lookup(w.records, q.key);
    if found.Some? then
      w.(transactions := w.transactions[t := x.(outcome := Some(Replay(w.records, found.value, Candidate(q.data))))])
    else
      w.(transactions := w.transactions[t := x.(outcome := Some(Accepted(|w.records|)))],
         records := w.records + [Record(q.key, Candidate(q.data), x.request)])
  }

  const CONFLICT_MESSAGE :=
    "Ya se registró un envío distinto para este intento. Recarga la página e inténtalo de nuevo."

  function Settled(w: World, i: nat, reply: Feedback): World
    requires i < |w.requests|
  {
    w.(form := Settle(w.form, reply), epoch := if reply.Registered? then w.epoch + 1 else w.epoch,
       requests := w.requests[i := w.requests[i].(isOpen := false)], told := Some(i))
  }

  function Step(w: World, e: Event): World {
    if !Enabled(w, e) then w else
    match e
    case Edits(field, value) => w.(form := UpdateField(w.form, field, value), epoch := w.epoch + 1)
    case Consents(checked) => w.(form := ChangeConsent(w.form, checked), epoch := w.epoch + 1)
    case Submits(website) => Sent(w, website)
    case Arrives(i) =>
      w.(transactions := w.transactions + [Transaction(i, Lookup(w.records, w.requests[i].key), None)])
    case Commits(t) => Committed(w, t)
    case Replies(t) =>
      var x := w.transactions[t];
      Settled(w, x.request,
              if x.outcome.value.Accepted? then Registered(x.outcome.value.folio) else Failed(CONFLICT_MESSAGE))
    case Fails(i, message) => Settled(w, i, Failed(message))
  }

  function Initial(takes: string -> bool): World {
    World(INITIAL_FORM, 0, 0, [], [], [], None, takes)
  }

  function After(takes: string -> bool, events: seq<Event>): World {
    if events == [] then Initial(takes) else Step(After(takes, events[..|events| - 1]), events[|events| - 1])
  }

  // ---- Invariants ----

  /** Keys and epochs of requests determine each other, and the payload. */
  predicate Agree(q: Request, r: Request) {
    && (q.key == r.key <==> q.epoch == r.epoch)
    && (q.key == r.key ==> q.data == r.data && q.consent == r.consent)
  }

  predicate KeysKept(w: World) {
    && (forall i | 0 <= i < |w.requests| :: w.requests[i].key < w.nextKey && w.requests[i].epoch <= w.epoch)
    && (forall i, j | 0 <= i < j < |w.requests| :: Agree(w.requests[i], w.requests[j]))
  }

  /** The form's key is the one of the requests of this epoch, and they carried the form. */
  predicate FormKept(w: World) {
    && (w.form.key.Some? ==> w.form.key.value < w.nextKey)
    && (forall i | 0 <= i < |w.requests| ::
          var q := w.requests[i];
          (w.form.key == Some(q.key) <==> q.epoch == w.epoch)
          && (q.epoch == w.epoch ==> q.data == w.form.data && q.consent == w.form.acceptTerms))
  }

  predicate DistinctKeys(records: seq<Record>) {
    forall r, s | 0 <= r < s < |records| :: records[r].key != records[s].key
  }

  /** A record is of the request that created it. */
  predicate SourceKept(x: Record, requests: seq<Request>) {
    x.source < |requests| && x.key == requests[x.source].key && x.detail == Candidate(requests[x.source].data)
  }

  /** And records have distinct keys. */
  predicate RecordsKept(w: World) {
    && (forall r | 0 <= r < |w.records| :: SourceKept(w.records[r], w.requests))
    && DistinctKeys(w.records)
  }

  predicate OfKey(w: World, folio: nat, request: nat) {
    folio < |w.records| && request < |w.requests| && w.records[folio].key == w.requests[request].key
  }

  predicate TransactionsKept(w: World) {
    forall t | 0 <= t < |w.transactions| ::
      var x := w.transactions[t];
      x.request < |w.requests|
      && (x.seen.Some? ==> OfKey(w, x.seen.value, x.request))
      && (x.outcome.Some? ==> x.outcome.value.Accepted? && OfKey(w, x.outcome.value.folio, x.request))
  }

  predicate Invariant(w: World) {
    KeysKept(w) && FormKept(w) && RecordsKept(w) && TransactionsKept(w)
  }

  lemma AgreeAlways(w: World, i: nat, j: nat)
    requires KeysKept(w) && i < |w.requests| && j < |w.requests|
    ensures Agree(w.requests[i], w.requests[j])
  {
    if j < i {
      assert Agree(w.requests[j], w.requests[i]);
    }
  }

  lemma OnePlace(records: seq<Record>, r: nat, s: nat)
    requires DistinctKeys(records) && r < |records| && s < |records| && records[r].key == records[s].key
    ensures r == s
  {
  }

  lemma EditKeeps(w: World, form: Form)
    requires Invariant(w) && form.key.None?
    ensures Invariant(w.(form := form, epoch := w.epoch + 1))
  {
    var v := w.(form := form, epoch := w.epoch + 1);
    assert KeysKept(v) && FormKept(v);
    assert RecordsKept(v) && TransactionsKept(v);
  }

  lemma SentAgrees(w: World, website: string, i: nat)
    requires Invariant(w) && Valid(w.form) && i < |w.requests|
    ensures var v := Sent(w, website);
            |v.requests| == |w.requests| + 1 && v.requests[i] == w.requests[i]
            && Agree(w.requests[i], v.requests[|w.requests|]) && w.requests[i].key < v.nextKey
  {
  }

  lemma SentKeepsKeys(w: World, website: string)
    requires Invariant(w) && Valid(w.form)
    ensures KeysKept(Sent(w, website))
  {
    var v := Sent(w, website);
    forall i | 0 <= i < |w.requests|
      ensures v.requests[i] == w.requests[i] && v.requests[i].key < v.nextKey
      ensures Agree(v.requests[i], v.requests[|w.requests|])
    {
      SentAgrees(w, website, i);
    }
  }

  lemma SentKeepsForm(w: World, website: string)
    requires Invariant(w) && Valid(w.form)
    ensures FormKept(Sent(w, website))
  {
    var v := Sent(w, website);
    forall i | 0 <= i < |w.requests| ensures v.requests[i] == w.requests[i] {
    }
  }

  lemma SentKeepsRecords(w: World, website: string)
    requires Invariant(w) && Valid(w.form)
    ensures RecordsKept(Sent(w, website)) && TransactionsKept(Sent(w, website))
  {
    var v := Sent(w, website);
    assert forall i | 0 <= i < |w.requests| :: v.requests[i] == w.requests[i];
    assert forall t | 0 <= t < |w.transactions| :: v.transactions[t] == w.transactions[t];
  }

  lemma ArrivesKeeps(w: World, i: nat)
    requires Invariant(w) && i < |w.requests|
    ensures Invariant(w.(transactions := w.transactions + [Transaction(i, Lookup(w.records, w.requests[i].key), None)]))
  {
    var x := Transaction(i, Lookup(w.records, w.requests[i].key), None);
    var v := w.(transactions := w.transactions + [x]);
    assert KeysKept(v) && FormKept(v) && RecordsKept(v);
    forall t | 0 <= t < |v.transactions|
      ensures v.transactions[t] == if t < |w.transactions| then w.transactions[t] else x
    {
    }
  }

  /** A record of the key of a request stores what the request carries. */
  lemma NeverConflicts(w: World, folio: nat, request: nat)
    requires Invariant(w) && OfKey(w, folio, request)
    ensures Replay(w.records, folio, Candidate(w.requests[request].data)) == Accepted(folio)
  {
    AgreeAlways(w, w.records[folio].source, request);
  }

  lemma RecordAdded(records: seq<Record>, x: Record, requests: seq<Request>)
    requires forall r | 0 <= r < |records| :: SourceKept(records[r], requests) && records[r].key != x.key
    requires DistinctKeys(records) && SourceKept(x, requests)
    ensures DistinctKeys(records + [x])
    ensures forall r | 0 <= r < |records + [x]| :: SourceKept((records + [x])[r], requests)
  {
  }

  lemma CommitKeepsRecords(w: World, t: nat)
    requires Invariant(w) && t < |w.transactions| && Linked(w, t)
    ensures RecordsKept(Committed(w, t))
  {
    var i := w.transactions[t].request;
    if Committed(w, t).records != w.records {
      RecordAdded(w.records, Record(w.requests[i].key, Candidate(w.requests[i].data), i), w.requests);
    }
  }

  lemma CommitKeepsKeys(w: World, t: nat)
    requires KeysKept(w) && FormKept(w) && t < |w.transactions| && Linked(w, t)
    ensures KeysKept(Committed(w, t)) && FormKept(Committed(w, t))
  {
    var v := Committed(w, t);
    assert v.requests == w.requests && v.form == w.form && v.epoch == w.epoch && v.nextKey == w.nextKey;
  }

  lemma CommitKeepsTransactions(w: World, t: nat)
    requires Invariant(w) && t < |w.transactions| && Linked(w, t)
    ensures TransactionsKept(Committed(w, t))
  {
    var x := w.transactions[t];
    var found := if x.seen.Some? then x.seen else Lookup(w.records, w.requests[x.request].key);
    var v := Committed(w, t);
    if found.Some? {
      NeverConflicts(w, found.value, x.request);
    }
    assert v.requests == w.requests && w.records <= v.records;
    forall u | 0 <= u < |v.transactions| && u != t ensures v.transactions[u] == w.transactions[u] {
    }
  }

  lemma SettledKeepsKeys(w: World, i: nat, reply: Feedback)
    requires Invariant(w) && i < |w.requests|
    ensures KeysKept(Settled(w, i, reply)) && FormKept(Settled(w, i, reply))
  {
  }

  lemma SettledKeepsRecords(w: World, i: nat, reply: Feedback)
    requires Invariant(w) && i < |w.requests|
    ensures RecordsKept(Settled(w, i, reply)) && TransactionsKept(Settled(w, i, reply))
  {
  }

  lemma StepKeeps(w: World, e: Event)
    requires Invariant(w)
    ensures Invariant(Step(w, e))
  {
    if Enabled(w, e) {
      match e
      case Edits(field, value) => EditKeeps(w, UpdateField(w.form, field, value));
      case Consents(checked) => EditKeeps(w, ChangeConsent(w.form, checked));
      case Submits(website) =>
        SentKeepsKeys(w, website);
        SentKeepsForm(w, website);
        SentKeepsRecords(w, website);
      case Arrives(i) => ArrivesKeeps(w, i);
      case Commits(t) =>
        CommitKeepsKeys(w, t);
        CommitKeepsRecords(w, t);
        CommitKeepsTransactions(w, t);
      case Replies(t) => SettleKeeps(w, e);
      case Fails(i, message) => SettleKeeps(w, e);
    }
  }

  lemma SettleKeeps(w: World, e: Event)
    requires Invariant(w) && Enabled(w, e) && (e.Replies? || e.Fails?)
    ensures Invariant(Step(w, e))
  {
    var i := if e.Replies? then w.transactions[e.transaction].request else e.request;
    var reply := if e.Fails? then Failed(e.message)
                 else if w.transactions[e.transaction].outcome.value.Accepted?
                 then Registered(w.transactions[e.transaction].outcome.value.folio)
                 else Failed(CONFLICT_MESSAGE);
    SettledKeepsKeys(w, i, reply);
    SettledKeepsRecords(w, i, reply);
  }

  lemma {:induction false} RunKeeps(takes: string -> bool, events: seq<Event>)
    ensures Invariant(After(takes, events))
  {
    if events != [] {
      RunKeeps(takes, events[..|events| - 1]);
      StepKeeps(After(takes, events[..|events| - 1]), events[|events| - 1]);
    }
  }

  // ---- Exactly once ----

  /** No key is ever sent with two payloads, nor in two epochs of editing. */
  lemma {:induction false} OneKeyOnePayload(takes: string -> bool, events: seq<Event>, i: nat, j: nat)
    requires i < |After(takes, events).requests| && j < |After(takes, events).requests|
    requires After(takes, events).requests[i].key == After(takes, events).requests[j].key
    ensures var q, r := After(takes, events).requests[i], After(takes, events).requests[j];
            q.data == r.data && q.consent == r.consent && q.epoch == r.epoch
  {
    RunKeeps(takes, events);
    AgreeAlways(After(takes, events), i, j);
  }

  /** A retry with no edit and no success in between reuses the key. */
  lemma {:induction false} RetryReusesKey(takes: string -> bool, events: seq<Event>, i: nat, j: nat)
    requires i < |After(takes, events).requests| && j < |After(takes, events).requests|
    requires After(takes, events).requests[i].epoch == After(takes, events).requests[j].epoch
    ensures After(takes, events).requests[i].key == After(takes, events).requests[j].key
  {
    RunKeeps(takes, events);
    AgreeAlways(After(takes, events), i, j);
  }

  /** The server never answers that a key came back with other data, and a folio it answers is
      a record of what the request carried. */
  lemma {:induction false} AcceptedIsRecorded(takes: string -> bool, events: seq<Event>, t: nat)
    requires t < |After(takes, events).transactions| && After(takes, events).transactions[t].outcome.Some?
    ensures var w := After(takes, events);
            var x := w.transactions[t];
            x.outcome.value.Accepted? && OfKey(w, x.outcome.value.folio, x.request)
            && w.records[x.outcome.value.folio].detail == Candidate(w.requests[x.request].data)
  {
    RunKeeps(takes, events);
    var w := After(takes, events);
    var x := w.transactions[t];
    NeverConflicts(w, x.outcome.value.folio, x.request);
  }

  /** However often requests are sent, repeated, reordered and their replies lost, an epoch of
      editing creates at most one record. */
  lemma {:induction false} OneRecordPerEpoch(takes: string -> bool, events: seq<Event>, r: nat, s: nat)
    requires r < |After(takes, events).records| && s < |After(takes, events).records|
    ensures var w := After(takes, events);
            var i, j := w.records[r].source, w.records[s].source;
            && i < |w.requests| && j < |w.requests|
            && (w.requests[i].epoch == w.requests[j].epoch ==> r == s)
  {
    RunKeeps(takes, events);
    var w := After(takes, events);
    AgreeAlways(w, w.records[r].source, w.records[s].source);
    if w.records[r].key == w.records[s].key {
      OnePlace(w.records, r, s);
    }
  }

  /** All the folios answered in one epoch are the same. */
  lemma {:induction false} OneFolioPerEpoch(takes: string -> bool, events: seq<Event>, t: nat, u: nat)
    requires t < |After(takes, events).transactions| && u < |After(takes, events).transactions|
    requires After(takes, events).transactions[t].outcome.Some? && After(takes, events).transactions[u].outcome.Some?
    ensures var w := After(takes, events);
            var x, y := w.transactions[t], w.transactions[u];
            && x.request < |w.requests| && y.request < |w.requests|
            && (w.requests[x.request].epoch == w.requests[y.request].epoch ==> x.outcome == y.outcome)
  {
    RunKeeps(takes, events);
    var w := After(takes, events);
    var x, y := w.transactions[t], w.transactions[u];
    AgreeAlways(w, x.request, y.request);
    if w.requests[x.request].key == w.requests[y.request].key {
      OnePlace(w.records, x.outcome.value.folio, y.outcome.value.folio);
    }
  }

  // ---- What a record stores ----

  /** The detail is the form's: every text with its words, the choices as they are, and nothing
      for what was left empty. */
  predicate Stores(x: Detail, d: FormData) {
    && x.projectType == Joined(Words(d.tipoProyecto))
    && x.location == Joined(Words(d.ubicacion))
    && x.description == Joined(Words(d.mensaje))
    && (x.dimensions.None? <==> d.dimensions == "")
    && (x.dimensions.Some? ==> x.dimensions.value == Joined(Words(d.dimensions)))
    && StoresChoice(x.projectStage, d.projectStage)
    && StoresChoice(x.timeline, d.timeline)
    && StoresChoice(x.budgetRange, d.budgetRange)
  }

  predicate StoresChoice(stored: Option<string>, chosen: string) {
    (stored.None? <==> chosen == "") && (stored.Some? ==> stored.value == chosen)
  }

  lemma CandidateStores(d: FormData)
    ensures Stores(Candidate(d), d)
  {
    TextIs(d.tipoProyecto);
    TextIs(d.ubicacion);
    TextIs(d.mensaje);
    TextIs(d.dimensions);
  }

  /** In every run a record stores the fields of the form it came from, each under its own name,
      and as they were typed where they are clean. */
  lemma {:induction false} RecordStoresItsForm(takes: string -> bool, events: seq<Event>, r: nat)
    requires r < |After(takes, events).records|
    ensures var w := After(takes, events);
            var x := w.records[r];
            && x.source < |w.requests| && x.key == w.requests[x.source].key
            && Stores(x.detail, w.requests[x.source].data)
            && (Clean(w.requests[x.source].data.tipoProyecto) ==>
                  x.detail.projectType == w.requests[x.source].data.tipoProyecto)
            && (Clean(w.requests[x.source].data.ubicacion) ==>
                  x.detail.location == w.requests[x.source].data.ubicacion)
            && (Clean(w.requests[x.source].data.mensaje) ==>
                  x.detail.description == w.requests[x.source].data.mensaje)
  {
    RunKeeps(takes, events);
    var w := After(takes, events);
    assert SourceKept(w.records[r], w.requests);
    var d := w.requests[w.records[r].source].data;
    CandidateStores(d);
    TextFixesExactly(d.tipoProyecto);
    TextFixesExactly(d.ubicacion);
    TextFixesExactly(d.mensaje);
  }

  /** The forms differ at most in white space, and in the contact. */
  predicate SameProject(d: FormData, e: FormData) {
    && Words(d.tipoProyecto) == Words(e.tipoProyecto) && Words(d.ubicacion) == Words(e.ubicacion)
    && Words(d.mensaje) == Words(e.mensaje)
    && (d.dimensions == "" <==> e.dimensions == "") && Words(d.dimensions) == Words(e.dimensions)
    && d.projectStage == e.projectStage && d.timeline == e.timeline && d.budgetRange == e.budgetRange
  }

  lemma {:induction false} CandidatesAgreeExactly(d: FormData, e: FormData)
    ensures Candidate(d) == Candidate(e) <==> SameProject(d, e)
  {
    TextsAgreeExactly(d.tipoProyecto, e.tipoProyecto);
    TextsAgreeExactly(d.ubicacion, e.ubicacion);
    TextsAgreeExactly(d.mensaje, e.mensaje);
    TextsAgreeExactly(d.dimensions, e.dimensions);
  }

  /** Whatever client sends it: a key that comes back with a form of another project is a conflict, one
      of the same project is told the folio there is, and neither stores anything. */
  lemma {:induction false} ConflictsExactly(w: World, t: nat, folio: nat, stored: FormData)
    requires t < |w.transactions| && Linked(w, t) && w.transactions[t].seen == Some(folio)
    requires w.records[folio].detail == Candidate(stored)
    ensures var v := Committed(w, t);
            var same := SameProject(w.requests[w.transactions[t].request].data, stored);
            v.records == w.records && v.transactions[t].outcome == Some(if same then Accepted(folio) else Conflict)
  {
    CandidatesAgreeExactly(w.requests[w.transactions[t].request].data, stored);
  }

  // ---- What the form shows ----

  function Read(d: FormData, field: Field): string {
    match field
    case Nombre => d.nombre
    case Telefono => d.telefono
    case Email => d.email
    case TipoProyecto => d.tipoProyecto
    case Ubicacion => d.ubicacion
    case ProjectStage => d.projectStage
    case Dimensions => d.dimensions
    case Timeline => d.timeline
    case BudgetRange => d.budgetRange
    case Mensaje => d.mensaje
  }

  /** An edit sets its field and no other. */
  lemma {:induction false} EditSetsOneField(f: Form, field: Field, value: string, other: Field)
    ensures Read(UpdateField(f, field, value).data, other) == if other == field then value else Read(f.data, other)
  {
  }

  datatype Screen = Screen(data: FormData, consent: bool, submitting: bool, feedback: Option<Feedback>)

  /** From the events alone: a success empties the form, a failure keeps it, and both end the
      submission and say so until the next edit or submission. */
  function ScreenAfter(takes: string -> bool, events: seq<Event>): Screen {
    if events == [] then Screen(INITIAL_DATA, false, false, None)
    else
      var front := events[..|events| - 1];
      ScreenBy(After(takes, front), events[|events| - 1], ScreenAfter(takes, front))
  }

  function ScreenBy(w: World, e: Event, before: Screen): Screen {
    if !Enabled(w, e) then before else
    match e
    case Edits(field, value) => before.(data := before.data.With(field, value), feedback := None)
    case Consents(checked) => before.(consent := checked, feedback := None)
    case Submits(_) => before.(submitting := true, feedback := None)
    case Arrives(_) => before
    case Commits(_) => before
    case Replies(t) =>
      (match w.transactions[t].outcome.value
       case Accepted(folio) => Screen(INITIAL_DATA, false, false, Some(Registered(folio)))
       case Conflict => Screen(before.data, before.consent, false, Some(Failed(CONFLICT_MESSAGE))))
    case Fails(_, message) => Screen(before.data, before.consent, false, Some(Failed(message)))
  }

  function ScreenOf(f: Form): Screen {
    Screen(f.data, f.acceptTerms, f.submitting, f.feedback)
  }

  lemma ScreenStep(w: World, e: Event)
    ensures ScreenOf(Step(w, e).form) == ScreenBy(w, e, ScreenOf(w.form))
  {
    if Enabled(w, e) && e.Commits? {
      assert Committed(w, e.transaction).form == w.form;
    }
  }

  lemma {:induction false} ScreenRuns(takes: string -> bool, events: seq<Event>)
    ensures ScreenOf(After(takes, events).form) == ScreenAfter(takes, events)
  {
    if events != [] {
      var front := events[..|events| - 1];
      ScreenRuns(takes, front);
      ScreenStep(After(takes, front), events[|events| - 1]);
    }
  }

  /** As long as a folio is on screen the form is empty and without a key: nothing is sent again. */
  predicate StartedOver(f: Form) {
    f.feedback.Some? && f.feedback.value.Registered? ==> f == INITIAL_FORM.(feedback := f.feedback) && !Valid(f)
  }

  lemma EmptyIsInvalid(f: Form)
    requires f.data == INITIAL_DATA
    ensures !Valid(f)
  {
  }

  lemma {:induction false} FolioEmptiesForm(takes: string -> bool, events: seq<Event>)
    ensures StartedOver(After(takes, events).form)
  {
    if events != [] {
      var front, e := events[..|events| - 1], events[|events| - 1];
      FolioEmptiesForm(takes, front);
      StartedOverStep(After(takes, front), e);
    }
  }

  lemma StartedOverStep(w: World, e: Event)
    requires StartedOver(w.form)
    ensures StartedOver(Step(w, e).form)
  {
    if Enabled(w, e) && (e.Replies? || e.Fails?) {
      EmptyIsInvalid(INITIAL_FORM.(feedback := Step(w, e).form.feedback));
    } else if Enabled(w, e) && e.Commits? {
      assert Committed(w, e.transaction).form == w.form;
    }
  }

  // ---- What is sent ----

  /** A text that is not blank, nor shorter than so many units without the white space at its ends. */
  predicate AtLeast(s: string, least: nat) {
    !AllSpace(s) && Length(Trim(s)) >= least
  }

  /** Every request carries consent, a project type, the texts that are asked for, and dimensions that
      are blank or of two units. */
  lemma {:induction false} SentIsComplete(takes: string -> bool, events: seq<Event>, i: nat)
    requires i < |After(takes, events).requests|
    ensures var q := After(takes, events).requests[i];
            && q.consent && q.data.tipoProyecto != "" && EmailAddress(Trim(q.data.email))
            && AtLeast(q.data.nombre, 2) && AtLeast(q.data.telefono, 7)
            && AtLeast(q.data.ubicacion, 2) && AtLeast(q.data.mensaje, 10)
            && (AllSpace(q.data.dimensions) || AtLeast(q.data.dimensions, 2))
  {
    CheckedRuns(takes, events);
    var d := After(takes, events).requests[i].data;
    TrimsToNothing(d.nombre);
    TrimsToNothing(d.telefono);
    TrimsToNothing(d.ubicacion);
    TrimsToNothing(d.mensaje);
    TrimsToNothing(d.dimensions);
  }

  /** And a form that is complete in this way is sent. */
  lemma {:induction false} CompleteIsSent(f: Form, w: World, website: string)
    requires f == w.form && f.acceptTerms && f.data.tipoProyecto != "" && EmailAddress(Trim(f.data.email))
    requires AtLeast(f.data.nombre, 2) && AtLeast(f.data.telefono, 7)
    requires AtLeast(f.data.ubicacion, 2) && AtLeast(f.data.mensaje, 10)
    requires AllSpace(f.data.dimensions) || AtLeast(f.data.dimensions, 2)
    ensures var v := Step(w, Submits(website));
            |v.requests| == |w.requests| + 1 && v.requests[|w.requests|].data == f.data
  {
    TrimsToNothing(f.data.dimensions);
  }

  /** The key of a field in the body. */
  function KeyOf(field: Field): string {
    match field
    case Nombre => "displayName"
    case Telefono => "phone"
    case Email => "email"
    case TipoProyecto => "projectType"
    case Ubicacion => "location"
    case ProjectStage => "projectStage"
    case Dimensions => "dimensions"
    case Timeline => "timeline"
    case BudgetRange => "budgetRange"
    case Mensaje => "description"
  }

  predicate Always(field: Field) {
    !field.ProjectStage? && !field.Dimensions? && !field.Timeline? && !field.BudgetRange?
  }

  /** The body holds every field under its key, but for the four that are left out when empty. */
  lemma {:induction false} BodyCarries(d: FormData, website: string, field: Field, value: string)
    ensures Entry(KeyOf(field), Str(value)) in BodyEntries(d, website)
       <==> value == Read(d, field) && (Always(field) || value != "")
  {
    InBody(d, website, KeyOf(field), value);
  }

  lemma InBody(d: FormData, website: string, key: string, value: string)
    ensures Entry(key, Str(value)) in BodyEntries(d, website)
       <==> (key == "displayName" && value == d.nombre) || (key == "phone" && value == d.telefono)
            || (key == "email" && value == d.email) || (key == "projectType" && value == d.tipoProyecto)
            || (key == "location" && value == d.ubicacion) || InChoices(d, key, value)
            || (key == "description" && value == d.mensaje) || (key == "website" && value == website)
  {
    var e := Entry(key, Str(value));
    InUnless(e, d.projectStage, "projectStage");
    InUnless(e, d.dimensions, "dimensions");
    InUnless(e, d.timeline, "timeline");
    InUnless(e, d.budgetRange, "budgetRange");
  }

  predicate InChoices(d: FormData, key: string, value: string) {
    value != "" && ((key == "projectStage" && value == d.projectStage) || (key == "dimensions" && value == d.dimensions)
                    || (key == "timeline" && value == d.timeline) || (key == "budgetRange" && value == d.budgetRange))
  }

  lemma InUnless(e: Entry, s: string, key: string)
    ensures e in Unless(s, key) <==> s != "" && e == Entry(key, Str(s))
  {
  }

  // ---- What the visitor is told ----

  /** A folio on screen is that of a record of the request the form settled. */
  predicate FeedbackKept(w: World) {
    w.form.feedback.Some? && w.form.feedback.value.Registered? ==>
      && w.told.Some? && OfKey(w, w.form.feedback.value.folio, w.told.value)
      && !w.requests[w.told.value].isOpen
  }

  lemma FeedbackStep(w: World, e: Event)
    requires Invariant(w) && FeedbackKept(w)
    ensures FeedbackKept(Step(w, e))
  {
    if Enabled(w, e) && e.Submits? {
      assert Sent(w, e.website).form.feedback.None?;
    } else if Enabled(w, e) && e.Commits? {
      CommitKeepsFolios(w, e.transaction);
    }
  }

  lemma CommitKeepsFolios(w: World, t: nat)
    requires t < |w.transactions| && Linked(w, t) && FeedbackKept(w)
    ensures FeedbackKept(Committed(w, t))
  {
    var v := Committed(w, t);
    assert v.form == w.form && v.told == w.told && v.requests == w.requests && w.records <= v.records;
  }

  lemma {:induction false} FeedbackRuns(takes: string -> bool, events: seq<Event>)
    ensures FeedbackKept(After(takes, events))
  {
    if events != [] {
      FeedbackRuns(takes, events[..|events| - 1]);
      RunKeeps(takes, events[..|events| - 1]);
      FeedbackStep(After(takes, events[..|events| - 1]), events[|events| - 1]);
    }
  }

  /** A visitor who reads a folio has a record under it of what the request just settled carried. */
  lemma {:induction false} ToldIsRecorded(takes: string -> bool, events: seq<Event>, folio: nat)
    requires After(takes, events).form.feedback == Some(Registered(folio))
    ensures var w := After(takes, events);
            && w.told.Some? && OfKey(w, folio, w.told.value) && !w.requests[w.told.value].isOpen
            && w.records[folio].detail == Candidate(w.requests[w.told.value].data)
  {
    RunKeeps(takes, events);
    FeedbackRuns(takes, events);
    NeverConflicts(After(takes, events), folio, After(takes, events).told.value);
  }

  // ---- What the server takes ----

  predicate Passed(w: World, i: nat) {
    i < |w.requests| && ServerTakes(w.requests[i], w.takes)
  }

  /** Whatever arrived and whatever was recorded is one of these requests. */
  predicate ArrivedAre(w: World, taken: nat -> bool) {
    && (forall t | 0 <= t < |w.transactions| :: taken(w.transactions[t].request))
    && (forall r | 0 <= r < |w.records| :: taken(w.records[r].source))
  }

  predicate SentAre(w: World, valid: (FormData, bool) -> bool) {
    forall i | 0 <= i < |w.requests| :: valid(w.requests[i].data, w.requests[i].consent)
  }

  predicate SentChecked(w: World) {
    SentAre(w, (d: FormData, consent: bool) => StepOneValid(d) && StepTwoValid(d, consent))
  }

  /** What was sent passed the form's own checks; what arrived and what was recorded, the server's. */
  predicate ChecksKept(w: World) {
    SentChecked(w) && ArrivedAre(w, (i: nat) => Passed(w, i))
  }

  lemma ArrivedStep(w: World, e: Event, taken: nat -> bool)
    requires ArrivedAre(w, taken) && (e.Arrives? && Enabled(w, e) ==> taken(e.request))
    ensures ArrivedAre(Step(w, e), taken)
  {
    if Enabled(w, e) && e.Commits? {
      CommittedAre(w, e.transaction, taken);
    }
  }

  lemma CommittedAre(w: World, t: nat, taken: nat -> bool)
    requires ArrivedAre(w, taken) && t < |w.transactions| && Linked(w, t)
    ensures ArrivedAre(Committed(w, t), taken)
  {
  }

  /** A step changes neither what a request carries nor how it is checked. */
  lemma CarriesStill(w: World, e: Event, i: nat)
    requires i < |w.requests|
    ensures var v := Step(w, e);
            && i < |v.requests| && v.takes == w.takes
            && v.requests[i] == w.requests[i].(isOpen := v.requests[i].isOpen)
  {
  }

  lemma PassedStill(w: World, e: Event, i: nat)
    requires Passed(w, i)
    ensures Passed(Step(w, e), i)
  {
    CarriesStill(w, e, i);
  }

  /** Only a form that is valid adds a request. */
  lemma SentStep(w: World, e: Event, valid: (FormData, bool) -> bool)
    requires SentAre(w, valid) && (e.Submits? && Enabled(w, e) ==> valid(w.form.data, w.form.acceptTerms))
    ensures SentAre(Step(w, e), valid)
  {
  }

  lemma PassedInBoth(w: World, v: World)
    requires ArrivedAre(v, (i: nat) => Passed(w, i)) && forall i: nat | Passed(w, i) :: Passed(v, i)
    ensures ArrivedAre(v, (i: nat) => Passed(v, i))
  {
  }

  lemma PassedStep(w: World, e: Event, v: World)
    requires ArrivedAre(w, (i: nat) => Passed(w, i)) && v == Step(w, e)
    ensures ArrivedAre(v, (i: nat) => Passed(v, i))
  {
    ArrivedStep(w, e, (i: nat) => Passed(w, i));
    forall i: nat | Passed(w, i) ensures Passed(v, i) {
      PassedStill(w, e, i);
    }
    PassedInBoth(w, v);
  }

  lemma CheckedStep(w: World, e: Event)
    requires ChecksKept(w)
    ensures ChecksKept(Step(w, e))
  {
    SentStep(w, e, (d: FormData, consent: bool) => StepOneValid(d) && StepTwoValid(d, consent));
    PassedStep(w, e, Step(w, e));
  }

  lemma TakesStill(w: World, e: Event)
    ensures Step(w, e).takes == w.takes
  {
  }

  lemma {:induction false} CheckedRuns(takes: string -> bool, events: seq<Event>)
    ensures ChecksKept(After(takes, events)) && After(takes, events).takes == takes
  {
    if events != [] {
      CheckedRuns(takes, events[..|events| - 1]);
      CheckedStep(After(takes, events[..|events| - 1]), events[|events| - 1]);
      TakesStill(After(takes, events[..|events| - 1]), events[|events| - 1]);
    }
  }

  /** What the schema refuses of a form that the browser lets through, exactly: an address, a text
      that is too long, a choice that is not offered, a project type that is short when trimmed, and
      white space for dimensions. */
  lemma {:induction false} RefusedExactly(d: FormData, takes: string -> bool)
    requires StepOneValid(d) && StepTwoValid(d, true)
    ensures SchemaTakes(d, takes) <==>
      && takes(Trim(d.email)) && Length(Trim(d.email)) <= 320 && Length(Trim(d.tipoProyecto)) >= 2
      && (d.dimensions == "" || !AllSpace(d.dimensions))
      && NotTooLong(d) && OffersChoices(d)
  {
    TrimsToNothing(d.dimensions);
    AsIs("");
  }

  predicate NotTooLong(d: FormData) {
    && Length(Trim(d.nombre)) <= 180 && Length(Trim(d.telefono)) <= 40 && Length(Trim(d.tipoProyecto)) <= 120
    && Length(Trim(d.ubicacion)) <= 180 && Length(Trim(d.dimensions)) <= 500 && Length(Trim(d.mensaje)) <= 10_000
  }

  predicate OffersChoices(d: FormData) {
    && (d.projectStage == "" || d.projectStage in PROJECT_STAGES)
    && (d.timeline == "" || d.timeline in TIMELINES)
    && (d.budgetRange == "" || d.budgetRange in BUDGET_RANGES)
  }

  /** The length that the service accepts for a text after normalizing it; otherwise it throws. */
  predicate Normalizes(s: string, most: nat) {
    Text(s) != "" && Length(Text(s)) <= most
  }

  /** So the service throws on no text that the schema took. */
  lemma {:induction false} SchemaIsEnough(d: FormData, takes: string -> bool)
    requires SchemaTakes(d, takes)
    ensures Normalizes(d.tipoProyecto, 120) && Normalizes(d.ubicacion, 180) && Normalizes(d.mensaje, 10_000)
    ensures d.dimensions == "" || Normalizes(d.dimensions, 500)
  {
    NormalizesTrimmed(d.tipoProyecto, 2, 120);
    NormalizesTrimmed(d.ubicacion, 2, 180);
    NormalizesTrimmed(d.mensaje, 10, 10_000);
    if d.dimensions != "" {
      NormalizesTrimmed(d.dimensions, 2, 500);
    }
  }

  lemma NormalizesTrimmed(s: string, least: nat, most: nat)
    requires TrimmedLength(s, least, most) && least > 0
    ensures Normalizes(s, most)
  {
    TextIsShorter(s);
    TrimsToNothing(s);
  }

  /** What can be recorded: a form that its own checks and the schema take, with a honeypot of
      nothing but white space, in a body that is not too long. */
  predicate Recordable(d: FormData, website: string, takes: string -> bool) {
    && StepOneValid(d) && StepTwoValid(d, true) && SchemaTakes(d, takes)
    && AllSpace(website) && BodyBytes(d, website) <= MAX_BODY_BYTES
  }

  /** Nothing else is ever recorded. */
  lemma {:induction false} RecordedIsTaken(takes: string -> bool, events: seq<Event>, r: nat)
    requires r < |After(takes, events).records|
    ensures var w := After(takes, events);
            var i := w.records[r].source;
            i < |w.requests| && Recordable(w.requests[i].data, w.requests[i].website, takes)
  {
    CheckedRuns(takes, events);
    var w := After(takes, events);
    assert Passed(w, w.records[r].source);
    TrimsToNothing(w.requests[w.records[r].source].website);
  }

  lemma AfterOneMore(takes: string -> bool, events: seq<Event>, e: Event)
    ensures After(takes, events + [e]) == Step(After(takes, events), e)
  {
    assert (events + [e])[..|events|] == events;
  }

  lemma Edited(takes: string -> bool, events: seq<Event>, field: Field, value: string) returns (more: seq<Event>)
    ensures After(takes, more) == After(takes, events).(form := UpdateField(After(takes, events).form, field, value),
                                          epoch := After(takes, events).epoch + 1)
  {
    more := events + [Edits(field, value)];
    AfterOneMore(takes, events, Edits(field, value));
  }

  lemma ContactFilled(takes: string -> bool, d: FormData) returns (events: seq<Event>)
    ensures After(takes, events) == Initial(takes).(
              form := Form(FormData(d.nombre, d.telefono, d.email, d.tipoProyecto, d.ubicacion, "", "", "", "", ""),
                           false, None, false, None),
              epoch := 5)
  {
    events := Edited(takes, [], Nombre, d.nombre);
    events := Edited(takes, events, Telefono, d.telefono);
    events := Edited(takes, events, Email, d.email);
    events := Edited(takes, events, TipoProyecto, d.tipoProyecto);
    events := Edited(takes, events, Ubicacion, d.ubicacion);
  }

  /** Any form can be filled in, field by field. */
  lemma Filled(takes: string -> bool, d: FormData) returns (events: seq<Event>)
    ensures After(takes, events) == Initial(takes).(form := Form(d, true, None, false, None), epoch := 11)
  {
    events := ContactFilled(takes, d);
    events := Edited(takes, events, ProjectStage, d.projectStage);
    events := Edited(takes, events, Dimensions, d.dimensions);
    events := Edited(takes, events, Timeline, d.timeline);
    events := Edited(takes, events, BudgetRange, d.budgetRange);
    events := Edited(takes, events, Mensaje, d.mensaje);
    AfterOneMore(takes, events, Consents(true));
    events := events + [Consents(true)];
  }

  /** And all of it can be, with a honeypot that is empty or not. */
  lemma {:induction false} TakenIsRecorded(takes: string -> bool, d: FormData, website: string)
    returns (events: seq<Event>)
    requires Recordable(d, website, takes)
    ensures After(takes, events).records == [Record(0, Candidate(d), 0)]
    ensures |After(takes, events).requests| == 1
    ensures After(takes, events).requests[0].data == d && After(takes, events).requests[0].website == website
  {
    events := Filled(takes, d);
    TrimsToNothing(website);
    AfterOneMore(takes, events, Submits(website));
    SentFirst(After(takes, events), website);
    events := events + [Submits(website)];
    AfterOneMore(takes, events, Arrives(0));
    ArrivesFirst(After(takes, events));
    events := events + [Arrives(0)];
    AfterOneMore(takes, events, Commits(0));
    CommitsFirst(After(takes, events));
    events := events + [Commits(0)];
  }

  predicate Records(w: World, r: nat, d: FormData, website: string) {
    && r < |w.records| && w.records[r].source < |w.requests|
    && w.requests[w.records[r].source].data == d && w.requests[w.records[r].source].website == website
  }

  /** Some run records a form with a honeypot exactly if they are recordable. */
  lemma {:induction false} RecordableExactly(takes: string -> bool, d: FormData, website: string)
    ensures (exists events, r :: Records(After(takes, events), r, d, website))
       <==> Recordable(d, website, takes)
  {
    if events, r :| Records(After(takes, events), r, d, website) {
      RecordedIsTaken(takes, events, r);
    }
    if Recordable(d, website, takes) {
      var events := TakenIsRecorded(takes, d, website);
      assert Records(After(takes, events), 0, d, website);
    }
  }

  lemma SentFirst(w: World, website: string)
    requires Valid(w.form) && w.form.key.None? && w.requests == [] && w.nextKey == 0
    ensures var v := Step(w, Submits(website));
            && v.requests == [Request(0, w.form.data, w.form.acceptTerms, website, w.epoch, true)]
            && v.transactions == w.transactions && v.records == w.records && v.takes == w.takes
  {
  }

  lemma ArrivesFirst(w: World)
    requires |w.requests| == 1 && ServerTakes(w.requests[0], w.takes) && w.transactions == [] && w.records == []
    ensures var v := Step(w, Arrives(0));
            v.requests == w.requests && v.transactions == [Transaction(0, None, None)] && v.records == []
  {
  }

  lemma CommitsFirst(w: World)
    requires |w.requests| == 1 && w.transactions == [Transaction(0, None, None)] && w.records == []
    ensures var v := Step(w, Commits(0));
            v.requests == w.requests && v.records == [Record(w.requests[0].key, Candidate(w.requests[0].data), 0)]
  {
  }

  const EXAMPLE: FormData :=
    FormData("Ana", "6671234567", "a@b.mx", "Alberca residencial", "Loreto", "", "", "", "", "Alberca de 8 x 4 m.")

  /** Such a form: with a single space in the hidden field it is accepted and recorded. */
  lemma {:induction false} SpacedBaitRecorded(takes: string -> bool) returns (events: seq<Event>)
    requires takes(EXAMPLE.email)
    ensures Records(After(takes, events), 0, EXAMPLE, " ")
  {
    ExampleIsTaken(takes);
    ExampleIsShort();
    TrimsToNothing(" ");
    RecordableIs(EXAMPLE, " ", takes);
    events := TakenIsRecorded(takes, EXAMPLE, " ");
  }

  lemma RecordableIs(d: FormData, website: string, takes: string -> bool)
    requires StepOneValid(d) && StepTwoValid(d, true) && SchemaTakes(d, takes)
    requires AllSpace(website) && BodyBytes(d, website) <= MAX_BODY_BYTES
    ensures Recordable(d, website, takes)
  {
  }

  /** A form that the browser lets through and the server refuses: white space for dimensions. */
  lemma {:induction false} BlankDimensionsRefused(takes: string -> bool, events: seq<Event>, r: nat, website: string)
    ensures StepOneValid(EXAMPLE.(dimensions := " ")) && StepTwoValid(EXAMPLE.(dimensions := " "), true)
    ensures !Records(After(takes, events), r, EXAMPLE.(dimensions := " "), website)
  {
    ExampleTexts();
    TrimsToNothing(" ");
    if Records(After(takes, events), r, EXAMPLE.(dimensions := " "), website) {
      RecordedIsTaken(takes, events, r);
    }
  }

  lemma ExampleIsTaken(takes: string -> bool)
    requires takes(EXAMPLE.email)
    ensures StepOneValid(EXAMPLE) && StepTwoValid(EXAMPLE, true) && SchemaTakes(EXAMPLE, takes)
  {
    ExampleTexts();
    AsIs(EXAMPLE.dimensions);
  }

  lemma ExampleIsShort()
    ensures BodyBytes(EXAMPLE, " ") <= MAX_BODY_BYTES
  {
    var entries := BodyEntries(EXAMPLE, " ");
    assert |entries| == 8;
    forall i | 0 <= i < |entries| ensures Short(entries[i]) {
    }
    ShortEntries(entries);
  }

  lemma ExampleTexts()
    ensures Fits(EXAMPLE.nombre, 2, 20) && Fits(EXAMPLE.telefono, 7, 20) && Fits(EXAMPLE.email, 0, 20)
    ensures Fits(EXAMPLE.tipoProyecto, 2, 40) && Fits(EXAMPLE.ubicacion, 2, 20) && Fits(EXAMPLE.mensaje, 10, 40)
    ensures EmailAddress(EXAMPLE.email)
  {
    ExampleContact();
    AsIs(EXAMPLE.tipoProyecto);
    AsIs(EXAMPLE.ubicacion);
    AsIs(EXAMPLE.mensaje);
  }

  lemma ExampleContact()
    ensures Fits(EXAMPLE.nombre, 2, 20) && Fits(EXAMPLE.telefono, 7, 20) && Fits(EXAMPLE.email, 0, 20)
    ensures EmailAddress(EXAMPLE.email)
  {
    AsIs(EXAMPLE.nombre);
    AsIs(EXAMPLE.telefono);
    AsIs(EXAMPLE.email);
    ExampleEmail(EXAMPLE.email);
  }

  /** A text with nothing to trim, of so many UTF-16 units. */
  predicate Fits(s: string, least: nat, most: nat) {
    Trim(s) == s && least <= Length(s) <= most
  }

  lemma AsIs(s: string)
    requires Trimmed(s)
    ensures Fits(s, |s|, 2 * |s|)
  {
    TrimFixes(s);
    LengthBound(s);
  }

  predicate Plain(s: string) {
    s != "" && forall i | 0 <= i < |s| :: s[i] != '@' && !IsSpace(s[i])
  }

  predicate Spells(s: string, local: string, domain: string, top: string) {
    Plain(local) && Plain(domain) && Plain(top) && s == local + ("@" + (domain + ("." + top)))
  }

  /** The test of an address is the pattern of the form: three plain texts with an at sign and a point
      between them. */
  lemma {:induction false} EmailIsPattern(s: string)
    ensures EmailAddress(s) <==> exists local, domain, top :: Spells(s, local, domain, top)
  {
    if EmailAddress(s) {
      EmailSplits(s);
    }
    if local, domain, top :| Spells(s, local, domain, top) {
      EmailJoins(s, local, domain, top);
    }
  }

  lemma CutAt(s: string, k: nat, c: char)
    requires k < |s| && s[k] == c
    ensures s == s[..k] + ([c] + s[k + 1..])
  {
  }

  lemma PlainPart(s: string, at: nat, from: nat, to: nat)
    requires from < to <= |s| && !(from <= at < to)
    requires forall i | 0 <= i < |s| && i != at :: s[i] != '@' && !IsSpace(s[i])
    ensures Plain(s[from..to])
  {
  }

  lemma EmailSplits(s: string)
    requires EmailAddress(s)
    ensures exists local, domain, top :: Spells(s, local, domain, top)
  {
    var at, dot :| 0 < at && at + 1 < dot < |s| - 1 && s[at] == '@' && s[dot] == '.'
                   && forall i | 0 <= i < |s| && i != at :: s[i] != '@' && !IsSpace(s[i]);
    PlainPart(s, at, 0, at);
    PlainPart(s, at, at + 1, dot);
    PlainPart(s, at, dot + 1, |s|);
    PartsSpell(s, at, dot, s[at + 1..]);
  }

  lemma PartsSpell(s: string, at: nat, dot: nat, rest: string)
    requires at < dot < |s| && s[at] == '@' && s[dot] == '.' && rest == s[at + 1..]
    requires Plain(s[0..at]) && Plain(s[at + 1..dot]) && Plain(s[dot + 1..|s|])
    ensures exists local, domain, top :: Spells(s, local, domain, top)
  {
    var k := dot - at - 1;
    CutAt(s, at, '@');
    CutAt(rest, k, '.');
    assert rest[..k] == s[at + 1..dot] && rest[k + 1..] == s[dot + 1..|s|] && s[..at] == s[0..at];
    assert Spells(s, s[..at], rest[..k], rest[k + 1..]);
  }

  lemma EmailJoins(s: string, local: string, domain: string, top: string)
    requires Spells(s, local, domain, top)
    ensures EmailAddress(s)
  {
    var at, dot := |local|, |local| + 1 + |domain|;
    assert s[at] == '@' && s[dot] == '.';
    forall i | 0 <= i < |s| && i != at ensures s[i] != '@' && !IsSpace(s[i]) {
      if i < at {
        assert s[i] == local[i];
      } else if at < i < dot {
        assert s[i] == domain[i - at - 1];
      } else if i > dot {
        assert s[i] == top[i - dot - 1];
      }
    }
  }

  lemma ExampleEmail(s: string)
    requires s == "a@b.mx"
    ensures EmailAddress(s)
  {
    assert s[1] == '@' && s[3] == '.';
  }
}
