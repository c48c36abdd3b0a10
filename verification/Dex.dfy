// The ClusterDex reconciler as a step machine: one resource, its three
// children in the ArgoCD namespace, and the secrets it waits for. Specs change
// between any two calls, calls fail in either way, and the worker crashes.
module Dex {
  import opened Kube
  import opened Names
  import opened Policy

  const TENANT := "platform.inari.io/tenant"
  const CLIENTKEYS: set<string> := {"client-id", "client-secret"}
  const CONFIGKEYS: set<string> := {"config.yaml"}

  // ---------- Specification and defaults ----------

  datatype SecretRef = SecretRef(name: string, namespace: string)
  datatype KeyRef = KeyRef(name: string, key: string)
  datatype Route = Route(gateway: string, namespace: string, section: string, hostnames: seq<string>, annotations: map<string, string>)
  datatype DexPart = DexPart(issuerURL: string, image: string, chartVersion: string, config: Option<SecretRef>, route: Option<Route>)
  datatype ArgoPart = ArgoPart(namespace: string, project: string, oidcSecret: Option<KeyRef>,
                               admins: seq<string>, viewers: seq<string>, extra: seq<string>)
  datatype Spec = Spec(tenantID: string, namespace: string, serviceAccount: string, clusterID: string,
                       clientSecret: SecretRef, enabled: Option<bool>, dex: Option<DexPart>, argocd: Option<ArgoPart>)

  predicate IsEnabled(spec: Spec) {
    spec.enabled.None? || spec.enabled.value
  }

  function Or(given: string, default: string): string {
    if given == "" then default else given
  }

  function DexOf(spec: Spec): DexPart {
    if spec.dex.Some? then spec.dex.value else DexPart("", "", "", None, None)
  }

  function ArgoOf(spec: Spec): ArgoPart {
    if spec.argocd.Some? then spec.argocd.value else ArgoPart("", "", None, [], [], [])
  }

  function ArgoNamespace(spec: Spec): string {
    Or(ArgoOf(spec).namespace, "argocd")
  }

  function IssuerURL(hash: string -> string, spec: Spec): string {
    Or(DexOf(spec).issuerURL, DefaultIssuer(hash, spec.clusterID))
  }

  function DexClientID(spec: Spec): string {
    "cluster-" + spec.clusterID + "-dex"
  }

  // ---------- Rendering ----------

  datatype Kind = Application | ConfigMap
  datatype ID = ID(kind: Kind, key: Key)

  datatype Content =
    | AppContent(project: string, chartVersion: string, fullname: string, configSecret: string,
                 image: Option<ImageRef>, route: Option<Route>)
    | OidcContent(issuer: string, clientSecret: string)
    | PolicyContent(csv: string)

  /** content is what the operator renders (spec or data); labels other than the
      tenant's and notes belong to others. */
  datatype Child = Child(revision: nat, content: Content, labels: map<string, string>, notes: map<string, string>)

  /** The children in the order they are written: Application, argocd-cm, argocd-rbac-cm. */
  function NameOf(hash: string -> string, spec: Spec, i: nat): ID {
    var ns := ArgoNamespace(spec);
    if i == 0 then ID(Application, Key(ns, DexName(hash, spec.clusterID)))
    else ID(ConfigMap, Key(ns, if i == 1 then "argocd-cm" else "argocd-rbac-cm"))
  }

  function ContentOf(hash: string -> string, spec: Spec, i: nat): Content {
    var dex, argo := DexOf(spec), ArgoOf(spec);
    if i == 0 then
      AppContent(Or(argo.project, "default"), Or(dex.chartVersion, "0.25.2"), DexName(hash, spec.clusterID),
                 if dex.config.Some? then dex.config.value.name else "",
                 if dex.image == "" then None else Some(SplitImageRef(dex.image)), dex.route)
    else if i == 1 then
      OidcContent(IssuerURL(hash, spec),
                  if argo.oidcSecret.Some? then "$" + argo.oidcSecret.value.name + ":" + Or(argo.oidcSecret.value.key, "client-secret") else "")
    else PolicyContent(PolicyText(argo.admins, argo.viewers, argo.extra))
  }

  function Rendered(hash: string -> string, spec: Spec, i: nat): Child {
    Child(0, ContentOf(hash, spec, i), map[TENANT := spec.tenantID], map[])
  }

  /** Neither rendering step reports an error. */
  predicate Renderable(spec: Spec) {
    && DexOf(spec).config.Some? && ArgoOf(spec).oidcSecret.Some?
    && (DexOf(spec).image == "" || SplitImageRef(DexOf(spec).image).Image?)
    && AllSingle(ArgoOf(spec).admins) && AllSingle(ArgoOf(spec).viewers)
  }

  /** The mutation applyChild makes to whatever is there. */
  function Mutated(child: Child, content: Content, tenant: string): Child {
    child.(content := content, labels := child.labels[TENANT := tenant])
  }

  // ---------- The stores ----------

  datatype Status = Status(clientID: string, application: string, issuer: string, observed: nat, mark: Mark)
  datatype CR = CR(namespace: string, revision: nat, generation: nat, deleting: bool, finalizers: set<string>,
                   spec: Spec, status: Status)

  const NEWSTATUS := Status("", "", "", 0, Unmarked)

  /** secrets: the keys present in each Secret; their values are never read. */
  datatype Store = Store(revision: nat, cr: Option<CR>, children: map<ID, Child>, secrets: map<Key, set<string>>)

  datatype Call =
    | GetCR
    | UpdateCR(cr: CR)
    | StatusCR(cr: CR)
    | GetSecret(key: Key)
    | Impersonate(account: string)
    | GetChild(id: ID)
    | CreateChild(id: ID, child: Child)
    | UpdateChild(id: ID, child: Child)
    | DeleteChild(id: ID)

  datatype Answer = Refused | Missing | Done | GotCR(cr: CR) | GotKeys(keys: set<string>) | GotChild(child: Child)

  function PutCR(st: Store, cr: CR): Store
    requires st.cr.Some?
  {
    if cr == st.cr.value then st
    else if cr.deleting && cr.finalizers == {} then st.(revision := st.revision + 1, cr := None)
    else st.(revision := st.revision + 1, cr := Some(cr.(revision := st.revision + 1)))
  }

  function PutChild(st: Store, id: ID, child: Child): Store {
    st.(revision := st.revision + 1, children := st.children[id := child.(revision := st.revision + 1)])
  }

  function Effect(st: Store, call: Call): (Store, Answer) {
    match call
    case GetCR => if st.cr.Some? then (st, GotCR(st.cr.value)) else (st, Missing)
    case UpdateCR(cr) =>
      if st.cr.None? then (st, Missing)
      else if st.cr.value.revision != cr.revision then (st, Refused)
      else (PutCR(st, st.cr.value.(finalizers := cr.finalizers)), Done)
    case StatusCR(cr) =>
      if st.cr.None? then (st, Missing)
      else if st.cr.value.revision != cr.revision then (st, Refused)
      else (PutCR(st, st.cr.value.(status := cr.status)), Done)
    case GetSecret(key) => if key in st.secrets then (st, GotKeys(st.secrets[key])) else (st, Missing)
    case Impersonate(_) => (st, Done)
    case GetChild(id) => if id in st.children then (st, GotChild(st.children[id])) else (st, Missing)
    case CreateChild(id, child) => if id in st.children then (st, Refused) else (PutChild(st, id, child), Done)
    case UpdateChild(id, child) =>
      if id !in st.children then (st, Missing)
      else if st.children[id].revision != child.revision then (st, Refused)
      else (PutChild(st, id, child), Done)
    case DeleteChild(id) => if id in st.children then (st.(children := st.children - {id}), Done) else (st, Missing)
  }

  function Perform(st: Store, call: Call, fault: Fault): (Store, Answer) {
    if call == Impersonate("") then (st, Done)
    else if fault.Lost? then (st, Refused)
    else
      var (st', answer) := Effect(st, call);
      (st', if fault.ReplyLost? then Refused else answer)
  }

  // ---------- ClusterDexReconciler.Reconcile ----------

  datatype PC =
    | Idle
    | Load
    | AddFinalizer(cr: CR)
    | CheckClient(cr: CR)
    | CheckConfig(cr: CR)
    | ActAs(cr: CR)
    | Delete(cr: CR, i: nat)
    | DropFinalizer(cr: CR)
    | Read(cr: CR, i: nat)
    | Create(cr: CR, i: nat)
    | Update(cr: CR, i: nat, child: Child)
    | MarkReady(cr: CR)
    | MarkFailed(cr: CR)

  /** Tearing down, because the resource is deleted or the baseline disabled. */
  predicate Removing(cr: CR) {
    cr.deleting || !IsEnabled(cr.spec)
  }

  function ReadyStatus(hash: string -> string, cr: CR): Status {
    Status(DexClientID(cr.spec), if IsEnabled(cr.spec) then DexName(hash, cr.spec.clusterID) else "",
           IssuerURL(hash, cr.spec), cr.generation, Ready(cr.generation))
  }

  /** Nothing to record: the status already says all this for this generation. */
  predicate Unchanged(hash: string -> string, cr: CR) {
    cr.status.(observed := cr.generation) == ReadyStatus(hash, cr)
  }

  function CallOf(hash: string -> string, pc: PC): Call
    requires !pc.Idle?
  {
    match pc
    case Load => GetCR
    case AddFinalizer(cr) => UpdateCR(cr.(finalizers := cr.finalizers + {FINALIZER}))
    case CheckClient(cr) => GetSecret(ClientSecretKey(cr))
    case CheckConfig(cr) => GetSecret(ConfigKey(cr))
    case ActAs(cr) => Impersonate(cr.spec.serviceAccount)
    case Delete(cr, i) => DeleteChild(NameOf(hash, cr.spec, i))
    case DropFinalizer(cr) => UpdateCR(cr.(finalizers := cr.finalizers - {FINALIZER}))
    case Read(cr, i) => GetChild(NameOf(hash, cr.spec, i))
    case Create(cr, i) =>
      CreateChild(NameOf(hash, cr.spec, i), Mutated(Rendered(hash, cr.spec, i), ContentOf(hash, cr.spec, i), cr.spec.tenantID))
    case Update(cr, i, child) => UpdateChild(NameOf(hash, cr.spec, i), Mutated(child, ContentOf(hash, cr.spec, i), cr.spec.tenantID))
    case MarkReady(cr) => StatusCR(cr.(status := ReadyStatus(hash, cr)))
    case MarkFailed(cr) => StatusCR(cr.(status := cr.status.(mark := Failed(cr.generation))))
  }

  /** A reference without a namespace means the resource's own, not the tenant's. */
  function ClientSecretKey(cr: CR): Key {
    Key(Or(cr.spec.clientSecret.namespace, cr.namespace), cr.spec.clientSecret.name)
  }

  function ConfigKey(cr: CR): Key {
    var ref := if DexOf(cr.spec).config.Some? then DexOf(cr.spec).config.value else SecretRef("", "");
    Key(Or(ref.namespace, cr.namespace), ref.name)
  }

  /** The children are as wanted: record it, unless it is recorded already. */
  function Settle(hash: string -> string, cr: CR): PC {
    if Unchanged(hash, cr) then Idle else MarkReady(cr)
  }

  function NextChild(hash: string -> string, cr: CR, i: nat): PC {
    if i < 2 then Read(cr, i + 1) else Settle(hash, cr)
  }

  function Loaded(cr: CR): PC {
    if cr.deleting then (if FINALIZER in cr.finalizers then ActAs(cr) else Idle)
    else if FINALIZER !in cr.finalizers then AddFinalizer(cr)
    else if !IsEnabled(cr.spec) then ActAs(cr)
    else CheckClient(cr)
  }

  function Resume(hash: string -> string, pc: PC, answer: Answer): PC {
    match pc
    case Idle => Load
    case Load => if answer.GotCR? then Loaded(answer.cr) else Idle
    case AddFinalizer(_) => Idle
    case CheckClient(cr) =>
      if answer.GotKeys? && CLIENTKEYS <= answer.keys && DexOf(cr.spec).config.Some? then CheckConfig(cr)
      else if answer.GotKeys? || answer.Missing? then MarkFailed(cr)
      else Idle
    case CheckConfig(cr) =>
      if answer.GotKeys? && CONFIGKEYS <= answer.keys && Renderable(cr.spec) then ActAs(cr)
      else if answer.GotKeys? || answer.Missing? then MarkFailed(cr)
      else Idle
    case ActAs(cr) =>
      if !answer.Done? then Idle else if Removing(cr) then Delete(cr, 0) else Read(cr, 0)
    case Delete(cr, i) =>
      if !answer.Done? && !answer.Missing? then Idle
      else if i < 2 then Delete(cr, i + 1)
      else if cr.deleting then DropFinalizer(cr)
      else Settle(hash, cr)
    case DropFinalizer(_) => Idle
    case Read(cr, i) =>
      if answer.GotChild? then
        (if Mutated(answer.child, ContentOf(hash, cr.spec, i), cr.spec.tenantID) == answer.child
         then NextChild(hash, cr, i) else Update(cr, i, answer.child))
      else if answer.Missing? then Create(cr, i)
      else MarkFailed(cr)
    case Create(cr, i) => if answer.Done? then NextChild(hash, cr, i) else MarkFailed(cr)
    case Update(cr, i, _) => if answer.Done? then NextChild(hash, cr, i) else MarkFailed(cr)
    case MarkReady(_) => Idle
    case MarkFailed(_) => Idle
  }

  // ---------- Steps and runs ----------

  /** fixed: every spec names the same three children. strip: users may remove
      the finalizer by hand. */
  datatype Rules = Rules(fixed: bool, strip: bool)

  datatype State = State(store: Store, pc: PC)

  datatype Action =
    | Step(fault: Fault)
    | Crash
    | CreateCR(namespace: string, spec: Spec, finalizers: set<string>)
    | EditCR(spec: Spec)
    | SetFinalizers(finalizers: set<string>)
    | DeleteCR
    | Decorate(id: ID, labels: map<string, string>, notes: map<string, string>)
    | SyncSecret(key: Key, keys: Option<set<string>>)

  predicate SameNames(hash: string -> string, a: Spec, b: Spec) {
    ArgoNamespace(a) == ArgoNamespace(b) && DexName(hash, a.clusterID) == DexName(hash, b.clusterID)
  }

  predicate SameTenant(a: map<string, string>, b: map<string, string>) {
    (TENANT in a <==> TENANT in b) && (TENANT in a ==> a[TENANT] == b[TENANT])
  }

  /** home names the children every spec must keep when names are fixed. */
  predicate Allowed(hash: string -> string, rules: Rules, home: Spec, st: Store, a: Action) {
    match a
    case CreateCR(_, spec, _) => st.cr.None? && (rules.fixed ==> SameNames(hash, spec, home))
    case EditCR(spec) => st.cr.Some? && (rules.fixed ==> SameNames(hash, spec, home))
    case SetFinalizers(fs) =>
      && st.cr.Some? && (st.cr.value.deleting ==> fs <= st.cr.value.finalizers)
      && (FINALIZER in st.cr.value.finalizers && FINALIZER !in fs ==> rules.strip)
    case DeleteCR => st.cr.Some?
    case Decorate(id, labels, _) => id in st.children && SameTenant(st.children[id].labels, labels)
    case _ => true
  }

  /** Marking an object for deletion, the first time, raises its generation. */
  function Deleted(cr: CR): CR {
    if cr.deleting then cr else cr.(deleting := true, generation := cr.generation + 1)
  }

  function Edited(cr: CR, spec: Spec): CR {
    if spec == cr.spec then cr else cr.(spec := spec, generation := cr.generation + 1)
  }

  function Users(hash: string -> string, rules: Rules, home: Spec, st: Store, a: Action): Store
    requires Allowed(hash, rules, home, st, a)
  {
    match a
    case CreateCR(namespace, spec, fs) =>
      st.(revision := st.revision + 1, cr := Some(CR(namespace, st.revision + 1, 1, false, fs, spec, NEWSTATUS)))
    case EditCR(spec) => PutCR(st, Edited(st.cr.value, spec))
    case SetFinalizers(fs) => PutCR(st, st.cr.value.(finalizers := fs))
    case DeleteCR => PutCR(st, Deleted(st.cr.value))
    case Decorate(id, labels, notes) => PutChild(st, id, st.children[id].(labels := labels, notes := notes))
    case SyncSecret(key, keys) =>
      st.(secrets := if keys.Some? then st.secrets[key := keys.value] else st.secrets - {key})
    case _ => st
  }

  function StepWorker(hash: string -> string, s: State, fault: Fault): State {
    if s.pc.Idle? then s.(pc := Load)
    else
      var (st, answer) := Perform(s.store, CallOf(hash, s.pc), fault);
      State(st, Resume(hash, s.pc, answer))
  }

  function Apply(hash: string -> string, rules: Rules, home: Spec, s: State, a: Action): State {
    match a
    case Step(fault) => StepWorker(hash, s, fault)
    case Crash => s.(pc := Idle)
    case _ => if Allowed(hash, rules, home, s.store, a) then s.(store := Users(hash, rules, home, s.store, a)) else s
  }

  function Exec(hash: string -> string, rules: Rules, home: Spec, s: State, run: seq<Action>): State {
    if run == [] then s
    else Apply(hash, rules, home, Exec(hash, rules, home, s, run[..|run| - 1]), run[|run| - 1])
  }

  /** No ClusterDex yet, among whatever other objects there are. */
  function Begin(children: map<ID, Child>): State {
    State(Store(0, None, children, map[]), Idle)
  }

  /** Some run from some beginning leads there. */
  ghost predicate Reachable(hash: string -> string, rules: Rules, home: Spec, s: State) {
    exists children, run :: s == Exec(hash, rules, home, Begin(children), run)
  }
}
