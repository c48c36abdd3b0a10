// The DNSRecord reconciler: a record is checked against the zone it names and
// then rendered into a DNSEndpoint, while record and zone may change between
// any two calls.
module Dns {
  import opened Kube
  import opened Names

  const TENANT := "platform.inari.io/tenant"

  datatype Entry = Entry(dnsName: string, recordType: string, targets: seq<string>, ttl: int)
  datatype Spec = Spec(tenantID: string, zoneRef: string, entries: seq<Entry>)

  /** An unstructured value, as it is stored in the endpoint. */
  datatype Value = Text(text: string) | Number(number: int) | Texts(texts: seq<string>)

  datatype Status = Status(observed: nat, mark: Mark)
  datatype Record = Record(uid: nat, revision: nat, generation: nat, deleting: bool, finalizers: set<string>, spec: Spec, status: Status)
  datatype Endpoint = Endpoint(revision: nat, owner: nat, labels: map<string, string>, entries: seq<map<string, Value>>)

  datatype Store = Store(revision: nat, record: Option<Record>, endpoint: Option<Endpoint>, zones: map<string, string>)

  predicate AllInZone(entries: seq<Entry>, zone: string) {
    forall i | 0 <= i < |entries| :: NameInZone(entries[i].dnsName, zone)
  }

  function RenderedEntry(e: Entry): map<string, Value> {
    map["dnsName" := Text(e.dnsName), "recordType" := Text(e.recordType), "targets" := Texts(e.targets), "recordTTL" := Number(e.ttl)]
  }

  function Rendered(entries: seq<Entry>): (r: seq<map<string, Value>>)
    ensures |r| == |entries|
  {
    seq(|entries|, i requires 0 <= i < |entries| => RenderedEntry(entries[i]))
  }

  /** The stored entry has exactly the four fields of e, each under its own key. */
  predicate Says(stored: map<string, Value>, e: Entry) {
    && stored.Keys == {"dnsName", "recordType", "targets", "recordTTL"}
    && stored["dnsName"] == Text(e.dnsName) && stored["recordType"] == Text(e.recordType)
    && stored["targets"] == Texts(e.targets) && stored["recordTTL"] == Number(e.ttl)
  }

  /** Entry by entry, in order. */
  ghost predicate AllSay(stored: seq<map<string, Value>>, entries: seq<Entry>) {
    |stored| == |entries| && forall i | 0 <= i < |stored| :: Says(stored[i], entries[i])
  }

  /** Every stored name is a text, and lies in the zone. */
  predicate NamesInside(stored: seq<map<string, Value>>, zone: string) {
    forall i | 0 <= i < |stored| ::
      "dnsName" in stored[i] && stored[i]["dnsName"].Text? && NameInZone(stored[i]["dnsName"].text, zone)
  }

  lemma RenderedSays(entries: seq<Entry>)
    ensures AllSay(Rendered(entries), entries)
  {
  }

  /** A rendering gives back the entries, in order. */
  lemma RenderingDecides(a: seq<Entry>, b: seq<Entry>)
    requires Rendered(a) == Rendered(b)
    ensures a == b
  {
    forall i | 0 <= i < |a| ensures a[i] == b[i] {
      var r := Rendered(a)[i];
      assert r == RenderedEntry(a[i]) && r == RenderedEntry(b[i]);
      assert r["dnsName"] == Text(a[i].dnsName) && r["dnsName"] == Text(b[i].dnsName);
      assert r["recordType"] == Text(a[i].recordType) && r["recordType"] == Text(b[i].recordType);
      assert r["targets"] == Texts(a[i].targets) && r["targets"] == Texts(b[i].targets);
      assert r["recordTTL"] == Number(a[i].ttl) && r["recordTTL"] == Number(b[i].ttl);
    }
    assert |a| == |b|;
  }

  // ---------- Calls ----------

  datatype Call =
    | GetRecord
    | UpdateRecord(record: Record)
    | StatusRecord(record: Record)
    | GetZone(name: string)
    | GetEndpoint
    | CreateEndpoint(endpoint: Endpoint)
    | UpdateEndpoint(endpoint: Endpoint)

  datatype Answer = Refused | Missing | Done | GotRecord(record: Record) | GotZone(zone: string) | GotEndpoint(endpoint: Endpoint)

  function PutRecord(st: Store, rec: Record): Store
    requires st.record.Some?
  {
    if rec == st.record.value then st
    else if rec.deleting && rec.finalizers == {} then st.(revision := st.revision + 1, record := None)
    else st.(revision := st.revision + 1, record := Some(rec.(revision := st.revision + 1)))
  }

  function PutEndpoint(st: Store, e: Endpoint): Store {
    st.(revision := st.revision + 1, endpoint := Some(e.(revision := st.revision + 1)))
  }

  function Effect(st: Store, call: Call): (Store, Answer) {
    match call
    case GetRecord => if st.record.Some? then (st, GotRecord(st.record.value)) else (st, Missing)
    case UpdateRecord(rec) =>
      if st.record.None? then (st, Missing)
      else if st.record.value.revision != rec.revision then (st, Refused)
      else (PutRecord(st, st.record.value.(finalizers := rec.finalizers)), Done)
    case StatusRecord(rec) =>
      if st.record.None? then (st, Missing)
      else if st.record.value.revision != rec.revision then (st, Refused)
      else (PutRecord(st, st.record.value.(status := rec.status)), Done)
    case GetZone(name) => if name in st.zones then (st, GotZone(st.zones[name])) else (st, Missing)
    case GetEndpoint => if st.endpoint.Some? then (st, GotEndpoint(st.endpoint.value)) else (st, Missing)
    case CreateEndpoint(e) => if st.endpoint.Some? then (st, Refused) else (PutEndpoint(st, e), Done)
    case UpdateEndpoint(e) =>
      if st.endpoint.None? then (st, Missing)
      else if st.endpoint.value.revision != e.revision then (st, Refused)
      else (PutEndpoint(st, e), Done)
  }

  function Perform(st: Store, call: Call, fault: Fault): (Store, Answer) {
    if fault.Lost? then (st, Refused)
    else
      var (st', answer) := Effect(st, call);
      (st', if fault.ReplyLost? then Refused else answer)
  }

  // ---------- DNSRecordReconciler.Reconcile ----------

  datatype PC =
    | Idle
    | Load
    | DropFinalizer(rec: Record)
    | AddFinalizer(rec: Record)
    | ReadZone(rec: Record)
    | ReadEndpoint(rec: Record, zone: string)
    | Create(rec: Record, zone: string)
    | Update(rec: Record, zone: string, endpoint: Endpoint)
    | MarkReady(rec: Record, zone: string)
    | MarkFailed(rec: Record)

  /** The mutation of the endpoint: it keeps the labels of others, and takes over
      an endpoint left by an earlier record of the same name. */
  function Mutated(e: Endpoint, rec: Record): Endpoint {
    e.(owner := rec.uid, labels := e.labels[TENANT := rec.spec.tenantID], entries := Rendered(rec.spec.entries))
  }

  function NewEndpoint(rec: Record): Endpoint {
    Mutated(Endpoint(0, rec.uid, map[], []), rec)
  }

  function CallOf(pc: PC): Call
    requires !pc.Idle?
  {
    match pc
    case Load => GetRecord
    case DropFinalizer(rec) => UpdateRecord(rec.(finalizers := rec.finalizers - {FINALIZER}))
    case AddFinalizer(rec) => UpdateRecord(rec.(finalizers := rec.finalizers + {FINALIZER}))
    case ReadZone(rec) => GetZone(rec.spec.zoneRef)
    case ReadEndpoint(_, _) => GetEndpoint
    case Create(rec, _) => CreateEndpoint(NewEndpoint(rec))
    case Update(rec, _, e) => UpdateEndpoint(Mutated(e, rec))
    case MarkReady(rec, _) => StatusRecord(rec.(status := Status(rec.generation, Ready(rec.generation))))
    case MarkFailed(rec) => StatusRecord(rec.(status := rec.status.(mark := Failed(rec.generation))))
  }

  function Loaded(rec: Record): PC {
    if rec.deleting then (if FINALIZER in rec.finalizers then DropFinalizer(rec) else Idle)
    else if FINALIZER !in rec.finalizers then AddFinalizer(rec)
    else ReadZone(rec)
  }

  function Resume(pc: PC, answer: Answer): PC {
    match pc
    case Idle => Load
    case Load => if answer.GotRecord? then Loaded(answer.record) else Idle
    case DropFinalizer(_) => Idle
    case AddFinalizer(_) => Idle
    case ReadZone(rec) =>
      if answer.GotZone? && AllInZone(rec.spec.entries, answer.zone) then ReadEndpoint(rec, answer.zone) else MarkFailed(rec)
    case ReadEndpoint(rec, zone) =>
      if answer.Missing? then Create(rec, zone)
      else if !answer.GotEndpoint? then MarkFailed(rec)
      else if Mutated(answer.endpoint, rec) == answer.endpoint then MarkReady(rec, zone)
      else Update(rec, zone, answer.endpoint)
    case Create(rec, zone) => if answer.Done? then MarkReady(rec, zone) else MarkFailed(rec)
    case Update(rec, zone, _) => if answer.Done? then MarkReady(rec, zone) else MarkFailed(rec)
    case MarkReady(_, _) => Idle
    case MarkFailed(_) => Idle
  }

  // ---------- Runs ----------

  /** What a run of the worker had read when it judged a record: the record's
      spec and the name of the zone it refers to. */
  datatype Reading = Reading(spec: Spec, zone: string)

  /** History: every spec the record ever had, every name a zone ever had, and
      every pair some run read. */
  datatype State = State(store: Store, pc: PC, specs: set<Spec>, zoneNames: set<string>, readings: set<Reading>)

  datatype Action =
    | Step(fault: Fault)
    | Crash
    | CreateRecord(spec: Spec, finalizers: set<string>)
    | EditRecord(spec: Spec)
    | SetFinalizers(finalizers: set<string>)
    | DeleteRecord
    | SetZone(name: string, zone: Option<string>)
    | Label(labels: map<string, string>)
    | CollectGarbage

  predicate Allowed(st: Store, a: Action) {
    match a
    case CreateRecord(_, _) => st.record.None?
    case EditRecord(_) => st.record.Some?
    case SetFinalizers(fs) => st.record.Some? && (st.record.value.deleting ==> fs <= st.record.value.finalizers)
    case DeleteRecord => st.record.Some?
    case Label(_) => st.endpoint.Some?
    case CollectGarbage => st.endpoint.Some? && (st.record.None? || st.record.value.uid != st.endpoint.value.owner)
    case _ => true
  }

  /** Marking an object for deletion, the first time, raises its generation. */
  function Deleted(rec: Record): Record {
    if rec.deleting then rec else rec.(deleting := true, generation := rec.generation + 1)
  }

  function Edited(rec: Record, spec: Spec): Record {
    if spec == rec.spec then rec else rec.(spec := spec, generation := rec.generation + 1)
  }

  function Users(s: State, a: Action): State
    requires Allowed(s.store, a)
  {
    var st := s.store;
    match a
    case CreateRecord(spec, fs) =>
      s.(store := st.(revision := st.revision + 1,
                      record := Some(Record(st.revision + 1, st.revision + 1, 1, false, fs, spec, Status(0, Unmarked)))),
         specs := s.specs + {spec})
    case EditRecord(spec) => s.(store := PutRecord(st, Edited(st.record.value, spec)), specs := s.specs + {spec})
    case SetFinalizers(fs) => s.(store := PutRecord(st, st.record.value.(finalizers := fs)))
    case DeleteRecord => s.(store := PutRecord(st, Deleted(st.record.value)))
    case SetZone(name, zone) =>
      if zone.Some? then s.(store := st.(zones := st.zones[name := zone.value]), zoneNames := s.zoneNames + {zone.value})
      else s.(store := st.(zones := st.zones - {name}))
    case Label(labels) => s.(store := PutEndpoint(st, st.endpoint.value.(labels := labels)))
    case CollectGarbage => s.(store := st.(endpoint := None))
    case _ => s
  }

  function StepWorker(s: State, fault: Fault): State {
    if s.pc.Idle? then s.(pc := Load)
    else
      var (st, answer) := Perform(s.store, CallOf(s.pc), fault);
      s.(store := st, pc := Resume(s.pc, answer),
         readings := if s.pc.ReadZone? && answer.GotZone? then s.readings + {Reading(s.pc.rec.spec, answer.zone)} else s.readings)
  }

  function Apply(s: State, a: Action): State {
    match a
    case Step(fault) => StepWorker(s, fault)
    case Crash => s.(pc := Idle)
    case _ => if Allowed(s.store, a) then Users(s, a) else s
  }

  function Exec(s: State, run: seq<Action>): State {
    if run == [] then s else Apply(Exec(s, run[..|run| - 1]), run[|run| - 1])
  }

  const START := State(Store(0, None, None, map[]), Idle, {}, {}, {})

  // ---------- Where endpoints come from ----------

  /** The entries are those of a spec read in one run, all inside the zone read in that run. */
  ghost predicate Copied(s: State, entries: seq<map<string, Value>>) {
    exists r :: r in s.readings && entries == Rendered(r.spec.entries) && AllInZone(r.spec.entries, r.zone)
  }

  predicate HasZone(pc: PC) {
    pc.ReadEndpoint? || pc.Create? || pc.Update? || pc.MarkReady?
  }

  predicate HasRecord(pc: PC) {
    !pc.Idle? && !pc.Load?
  }

  predicate SaysReady(st: Store) {
    st.record.Some? && st.record.value.status.mark == Ready(st.record.value.generation)
  }

  ghost predicate Shows(st: Store, rec: Record) {
    st.endpoint.Some? && st.endpoint.value.owner == rec.uid && st.endpoint.value.entries == Rendered(rec.spec.entries)
  }

  ghost predicate RecordOK(s: State) {
    s.store.record.Some? ==>
      var rec := s.store.record.value;
      && rec.uid <= rec.revision <= s.store.revision && rec.spec in s.specs
      && (rec.status.mark.Ready? ==> rec.status.mark.generation <= rec.generation)
      && (SaysReady(s.store) ==> !rec.deleting && Shows(s.store, rec))
  }

  ghost predicate WorkerOK(s: State) {
    HasRecord(s.pc) ==>
      var rec := s.pc.rec;
      && rec.spec in s.specs && rec.uid <= rec.revision <= s.store.revision
      && (s.store.record.Some? && s.store.record.value.revision == rec.revision ==> s.store.record.value == rec)
      && (s.store.record.Some? && s.store.record.value.uid != rec.uid ==> s.store.record.value.uid > rec.revision)
      && (SaysReady(s.store) ==> s.store.record.value.uid == rec.uid && s.store.record.value.spec == rec.spec)
      && (s.pc.ReadZone? || HasZone(s.pc) ==> !rec.deleting)
      && (HasZone(s.pc) ==> AllInZone(rec.spec.entries, s.pc.zone) && Reading(rec.spec, s.pc.zone) in s.readings)
      && (s.pc.MarkReady? && s.store.record.Some? && s.store.record.value.uid == rec.uid ==> Shows(s.store, rec))
  }

  ghost predicate Inv(s: State) {
    && RecordOK(s) && WorkerOK(s)
    && (s.store.endpoint.Some? ==> Copied(s, s.store.endpoint.value.entries))
    && (forall r | r in s.readings :: r.spec in s.specs && r.zone in s.zoneNames)
    && s.store.zones.Values <= s.zoneNames
  }

  lemma ReadingKeepsCopied(s: State, s': State, entries: seq<map<string, Value>>)
    requires Copied(s, entries) && s.readings <= s'.readings
    ensures Copied(s', entries)
  {
    var r :| r in s.readings && entries == Rendered(r.spec.entries) && AllInZone(r.spec.entries, r.zone);
    assert r in s'.readings;
  }

  /** The endpoint changes only into the rendering of a record whose entries all
      lie in the zone the same run read. */
  lemma EndpointOnlyRendered(s: State, fault: Fault)
    requires Inv(s)
    ensures var s' := StepWorker(s, fault);
      s'.store.endpoint != s.store.endpoint ==>
        && (s.pc.Create? || s.pc.Update?) && AllInZone(s.pc.rec.spec.entries, s.pc.zone)
        && Reading(s.pc.rec.spec, s.pc.zone) in s.readings && Shows(s'.store, s.pc.rec)
  {
  }

  lemma EndpointStepKeeps(s: State, fault: Fault)
    requires Inv(s) && (s.pc.Create? || s.pc.Update?)
    ensures Inv(StepWorker(s, fault))
  {
    var s' := StepWorker(s, fault);
    assert s'.store == s.store.(endpoint := s'.store.endpoint, revision := s'.store.revision);
    assert s'.readings == s.readings;
    EndpointOnlyRendered(s, fault);
    if s'.store.endpoint == s.store.endpoint {
      if s.store.endpoint.Some? { ReadingKeepsCopied(s, s', s.store.endpoint.value.entries); }
    } else {
      assert Reading(s.pc.rec.spec, s.pc.zone) in s'.readings;
      assert Copied(s', s'.store.endpoint.value.entries);
    }
  }

  lemma RecordStepKeeps(s: State, fault: Fault)
    requires Inv(s) && (s.pc.AddFinalizer? || s.pc.DropFinalizer? || s.pc.MarkReady? || s.pc.MarkFailed?)
    ensures Inv(StepWorker(s, fault))
  {
    var s' := StepWorker(s, fault);
    assert s'.pc.Idle? && s'.readings == s.readings && s'.store.endpoint == s.store.endpoint;
    if s.store.endpoint.Some? { ReadingKeepsCopied(s, s', s.store.endpoint.value.entries); }
  }

  lemma ReadStepKeeps(s: State, fault: Fault)
    requires Inv(s) && (s.pc.Idle? || s.pc.Load? || s.pc.ReadZone? || s.pc.ReadEndpoint?)
    ensures Inv(StepWorker(s, fault))
  {
    var s' := StepWorker(s, fault);
    assert s'.store == s.store;
    if s.store.endpoint.Some? { ReadingKeepsCopied(s, s', s.store.endpoint.value.entries); }
  }

  lemma StepKeeps(s: State, fault: Fault)
    requires Inv(s)
    ensures Inv(StepWorker(s, fault))
  {
    match s.pc {
      case Create(_, _) => EndpointStepKeeps(s, fault);
      case Update(_, _, _) => EndpointStepKeeps(s, fault);
      case AddFinalizer(_) => RecordStepKeeps(s, fault);
      case DropFinalizer(_) => RecordStepKeeps(s, fault);
      case MarkReady(_, _) => RecordStepKeeps(s, fault);
      case MarkFailed(_) => RecordStepKeeps(s, fault);
      case _ => ReadStepKeeps(s, fault);
    }
  }

  lemma OthersKeep(s: State, a: Action)
    requires Inv(s) && Allowed(s.store, a)
    ensures Inv(Users(s, a))
  {
    if a.Label? || a.CollectGarbage? || a.SetZone? {
      ElsewhereKeeps(s, a);
    } else {
      RecordActKeeps(s, a);
    }
  }

  /** Zones change, and others touch the endpoint without its entries. */
  lemma ElsewhereKeeps(s: State, a: Action)
    requires Inv(s) && Allowed(s.store, a) && (a.Label? || a.CollectGarbage? || a.SetZone?)
    ensures Inv(Users(s, a))
  {
    if s.store.endpoint.Some? { ReadingKeepsCopied(s, Users(s, a), s.store.endpoint.value.entries); }
  }

  /** Users change the record. */
  lemma RecordActKeeps(s: State, a: Action)
    requires Inv(s) && Allowed(s.store, a) && !a.Label? && !a.CollectGarbage? && !a.SetZone?
    ensures Inv(Users(s, a))
  {
    var s' := Users(s, a);
    assert s'.store.endpoint == s.store.endpoint && s'.readings == s.readings && s'.zoneNames == s.zoneNames;
    if s.store.endpoint.Some? { ReadingKeepsCopied(s, s', s.store.endpoint.value.entries); }
  }

  lemma {:induction false} RunKeeps(run: seq<Action>)
    ensures Inv(Exec(START, run))
  {
    if run != [] {
      var last := |run| - 1;
      RunKeeps(run[..last]);
      var s, a := Exec(START, run[..last]), run[last];
      if a.Step? { StepKeeps(s, a.fault); }
      else if !a.Crash? && Allowed(s.store, a) { OthersKeep(s, a); }
    }
  }

  /** Every endpoint in every reachable state says, entry by entry, what some past
      record said, and all the names stored in it lie inside the name the zone had
      in the same run. */
  lemma EndpointsAreCopies(run: seq<Action>)
    ensures var s := Exec(START, run);
      s.store.endpoint.Some? ==> exists spec, zone ::
        && spec in s.specs && zone in s.zoneNames && Reading(spec, zone) in s.readings
        && AllSay(s.store.endpoint.value.entries, spec.entries) && NamesInside(s.store.endpoint.value.entries, zone)
  {
    RunKeeps(run);
    var s := Exec(START, run);
    if s.store.endpoint.Some? {
      var r :| r in s.readings && s.store.endpoint.value.entries == Rendered(r.spec.entries) && AllInZone(r.spec.entries, r.zone);
      assert r == Reading(r.spec, r.zone);
      RenderedSays(r.spec.entries);
    }
  }

  /** A record that says Ready for its current generation is live and owns an
      endpoint that says exactly what its entries say. */
  lemma ReadyRecordsAreShown(run: seq<Action>)
    ensures var st := Exec(START, run).store;
      SaysReady(st) ==>
        && !st.record.value.deleting && st.endpoint.Some? && st.endpoint.value.owner == st.record.value.uid
        && AllSay(st.endpoint.value.entries, st.record.value.spec.entries)
  {
    RunKeeps(run);
    var st := Exec(START, run).store;
    if SaysReady(st) { RenderedSays(st.record.value.spec.entries); }
  }

  /** If a call about zone or endpoint fails, the next call records the failure
      for the generation that was read. */
  lemma RecordFailuresAreReported(s: State, fault: Fault)
    requires (s.pc.ReadZone? || s.pc.ReadEndpoint? || s.pc.Create? || s.pc.Update?) && !fault.Fine?
    ensures var rec, pc' := s.pc.rec, StepWorker(s, fault).pc;
      && !pc'.Idle?
      && CallOf(pc') == StatusRecord(rec.(status := rec.status.(mark := Failed(rec.generation))))
  {
  }
}
