// The KeycloakRealm and KeycloakClient reconcilers as one step machine over two
// stores, the Kubernetes API and Keycloak. One worker per object key runs the
// reconcile loop one remote call at a time; between any two calls other workers
// and users act, calls fail in either way, and workers crash.
module Machine {
  import opened Kube
  import opened KeycloakServer

  // ---------- API objects ----------

  datatype RealmSpec = RealmSpec(realm: string, tenantID: string, displayName: string, enabled: bool)
  datatype RealmStatus = RealmStatus(realm: string, observed: nat, mark: Mark)
  datatype RealmCR = RealmCR(revision: nat, generation: nat, deleting: bool, finalizers: set<string>,
                             spec: RealmSpec, status: RealmStatus)

  datatype ClientSpec = ClientSpec(
    tenantID: string, namespace: string, serviceAccount: string,
    realmRef: string, clientID: string, isPublic: bool, redirectURIs: seq<string>,
    serviceAccounts: bool, secretName: string)
  datatype ClientStatus = ClientStatus(realm: string, clientID: string, secretName: string, observed: nat, mark: Mark)
  datatype ClientCR = ClientCR(revision: nat, generation: nat, deleting: bool, finalizers: set<string>,
                               spec: ClientSpec, status: ClientStatus)

  datatype Datum = Text(text: string) | IssuerOf(realm: string) | ClientSecret(secret: Secret)
  datatype TenantSecret = TenantSecret(tenant: string, data: map<string, Datum>)

  datatype Store = Store(
    revision: nat,
    realms: map<Key, RealmCR>,
    clients: map<Key, ClientCR>,
    secrets: map<Key, TenantSecret>,
    server: Server)

  const NEWREALM := RealmStatus("", 0, Unmarked)
  const NEWCLIENT := ClientStatus("", "", "", 0, Unmarked)

  function EffName(spec: RealmSpec): string {
    if spec.realm == "" then spec.tenantID else spec.realm
  }

  function RefKey(k: Key, spec: ClientSpec): Key {
    Key(k.namespace, spec.realmRef)
  }

  function EffClientID(k: Key, spec: ClientSpec): string {
    if spec.clientID == "" then k.name else spec.clientID
  }

  function SecretKey(k: Key, spec: ClientSpec): Key {
    Key(spec.namespace, if spec.secretName == "" then k.name + "-keycloak-client" else spec.secretName)
  }

  function Desired(k: Key, spec: ClientSpec): ClientRep {
    ClientRep(0, EffClientID(k, spec), spec.isPublic, spec.serviceAccounts, spec.redirectURIs != [], spec.redirectURIs)
  }

  /** The two representations agree on every field the operator manages. */
  predicate SameManaged(a: ClientRep, b: ClientRep) {
    a.(id := 0, clientID := "") == b.(id := 0, clientID := "")
  }

  function SecretData(k: Key, spec: ClientSpec, realm: string, secret: Option<Secret>): map<string, Datum> {
    var data := map["client-id" := Text(EffClientID(k, spec)), "issuer" := IssuerOf(realm)];
    if secret.Some? then data["client-secret" := ClientSecret(secret.value)] else data
  }

  // ---------- Remote calls ----------

  datatype Call =
    | GetRealmCR(key: Key)
    | UpdateRealmCR(key: Key, realm: RealmCR)
    | StatusRealmCR(key: Key, realm: RealmCR)
    | GetClientCR(key: Key)
    | UpdateClientCR(key: Key, client: ClientCR)
    | StatusClientCR(key: Key, client: ClientCR)
    | Admin(request: Request)
    | Impersonate(account: string)
    | PutSecret(key: Key, tenant: string, data: map<string, Datum>)
    | DeleteSecret(key: Key)

  datatype Answer = Refused | Missing | Done | GotRealm(realm: RealmCR) | GotClient(client: ClientCR) | Replied(body: Body)

  /** Writes new content for an existing object: an identical write changes
      nothing, and a deleting object without finalizers goes away. */
  function PutRealmCR(st: Store, m: Key, cr: RealmCR): Store
    requires m in st.realms
  {
    if cr == st.realms[m] then st
    else if cr.deleting && cr.finalizers == {} then st.(revision := st.revision + 1, realms := st.realms - {m})
    else st.(revision := st.revision + 1, realms := st.realms[m := cr.(revision := st.revision + 1)])
  }

  function PutClientCR(st: Store, k: Key, cr: ClientCR): Store
    requires k in st.clients
  {
    if cr == st.clients[k] then st
    else if cr.deleting && cr.finalizers == {} then st.(revision := st.revision + 1, clients := st.clients - {k})
    else st.(revision := st.revision + 1, clients := st.clients[k := cr.(revision := st.revision + 1)])
  }

  function Effect(st: Store, call: Call, pick: Pick): (Store, Answer) {
    match call
    case GetRealmCR(m) =>
      if m in st.realms then (st, GotRealm(st.realms[m])) else (st, Missing)
    case UpdateRealmCR(m, cr) =>
      if m !in st.realms then (st, Missing)
      else if st.realms[m].revision != cr.revision then (st, Refused)
      else (PutRealmCR(st, m, st.realms[m].(finalizers := cr.finalizers)), Done)
    case StatusRealmCR(m, cr) =>
      if m !in st.realms then (st, Missing)
      else if st.realms[m].revision != cr.revision then (st, Refused)
      else (PutRealmCR(st, m, st.realms[m].(status := cr.status)), Done)
    case GetClientCR(k) =>
      if k in st.clients then (st, GotClient(st.clients[k])) else (st, Missing)
    case UpdateClientCR(k, cr) =>
      if k !in st.clients then (st, Missing)
      else if st.clients[k].revision != cr.revision then (st, Refused)
      else (PutClientCR(st, k, st.clients[k].(finalizers := cr.finalizers)), Done)
    case StatusClientCR(k, cr) =>
      if k !in st.clients then (st, Missing)
      else if st.clients[k].revision != cr.revision then (st, Refused)
      else (PutClientCR(st, k, st.clients[k].(status := cr.status)), Done)
    case Admin(req) =>
      var (server, reply) := Handle(st.server, req, pick);
      (st.(server := server),
       if 200 <= reply.status < 300 then Replied(reply.body) else if reply.status == 404 then Missing else Refused)
    case Impersonate(_) => (st, Done)
    case PutSecret(key, tenant, data) =>
      var was := if key in st.secrets then st.secrets[key].data else map[];
      (st.(secrets := st.secrets[key := TenantSecret(tenant, was + data)]), Done)
    case DeleteSecret(key) =>
      if key in st.secrets then (st.(secrets := st.secrets - {key}), Done) else (st, Missing)
  }

  /** One remote call under one of the three outcomes. Acting as the operator
      itself needs no call, so it cannot fail. */
  function Perform(st: Store, call: Call, fault: Fault, pick: Pick): (Store, Answer) {
    if call == Impersonate("") then (st, Done)
    else if fault.Lost? then (st, Refused)
    else
      var (st', answer) := Effect(st, call, pick);
      (st', if fault.ReplyLost? then Refused else answer)
  }

  // ---------- KeycloakRealmReconciler.Reconcile ----------

  datatype RealmPC =
    | RIdle
    | RGetCR
    | RDeleteRealm(cr: RealmCR)
    | RDropFinalizer(cr: RealmCR)
    | RAddFinalizer(cr: RealmCR)
    | RGetRealm(cr: RealmCR)
    | RPutRealm(cr: RealmCR)
    | RPostRealm(cr: RealmCR)
    | RMark(cr: RealmCR, ok: bool)

  function RealmCall(m: Key, pc: RealmPC): Call
    requires !pc.RIdle?
  {
    match pc
    case RGetCR => GetRealmCR(m)
    case RDeleteRealm(cr) => Admin(DeleteRealm(EffName(cr.spec)))
    case RDropFinalizer(cr) => UpdateRealmCR(m, cr.(finalizers := cr.finalizers - {FINALIZER}))
    case RAddFinalizer(cr) => UpdateRealmCR(m, cr.(finalizers := cr.finalizers + {FINALIZER}))
    case RGetRealm(cr) => Admin(GetRealm(EffName(cr.spec)))
    case RPutRealm(cr) => Admin(PutRealm(EffName(cr.spec), RealmRepOf(cr.spec)))
    case RPostRealm(cr) => Admin(PostRealm(RealmRepOf(cr.spec)))
    case RMark(cr, ok) =>
      StatusRealmCR(m, cr.(status :=
        if ok then RealmStatus(EffName(cr.spec), cr.generation, Ready(cr.generation))
        else cr.status.(mark := Failed(cr.generation))))
  }

  function RealmRepOf(spec: RealmSpec): RealmRep {
    RealmRep(EffName(spec), spec.displayName, spec.enabled)
  }

  function RealmResume(pc: RealmPC, answer: Answer): RealmPC {
    match pc
    case RIdle => RGetCR
    case RGetCR =>
      if !answer.GotRealm? then RIdle
      else
        var cr := answer.realm;
        if cr.deleting then (if FINALIZER in cr.finalizers then RDeleteRealm(cr) else RIdle)
        else if FINALIZER !in cr.finalizers then RAddFinalizer(cr)
        else RGetRealm(cr)
    case RDeleteRealm(cr) => if answer.Replied? || answer.Missing? then RDropFinalizer(cr) else RIdle
    case RDropFinalizer(_) => RIdle
    case RAddFinalizer(_) => RIdle
    case RGetRealm(cr) =>
      if answer.Missing? then RPostRealm(cr)
      else if answer.Replied? && answer.body.RealmBody? then
        (if answer.body.rep.displayName == cr.spec.displayName && answer.body.rep.enabled == cr.spec.enabled
         then RMark(cr, true) else RPutRealm(cr))
      else RMark(cr, false)
    case RPutRealm(cr) => RMark(cr, answer.Replied?)
    case RPostRealm(cr) => RMark(cr, answer.Replied?)
    case RMark(_, _) => RIdle
  }

  // ---------- KeycloakClientReconciler.Reconcile ----------

  datatype ClientPC =
    | CIdle
    | CGetCR
    | CGetRealm(kc: ClientCR)
    | CDelFind(kc: ClientCR, realm: string)
    | CDelClient(kc: ClientCR, realm: string, id: nat)
    | CDelImpersonate(kc: ClientCR, realm: string)
    | CDelSecret(kc: ClientCR, realm: string)
    | CDropFinalizer(kc: ClientCR, realm: string)
    | CAddFinalizer(kc: ClientCR)
    | CFind(kc: ClientCR, realm: string)
    | CPost(kc: ClientCR, realm: string)
    | CFindAgain(kc: ClientCR, realm: string)
    | CPut(kc: ClientCR, realm: string, id: nat)
    | CGetSecret(kc: ClientCR, realm: string, id: nat)
    | CImpersonate(kc: ClientCR, realm: string, secret: Option<Secret>)
    | CPutSecret(kc: ClientCR, realm: string, secret: Option<Secret>)
    | CMarkReady(kc: ClientCR, realm: string)
    | CMark(kc: ClientCR, mark: Mark)

  function ReadyStatus(k: Key, kc: ClientCR, realm: string): ClientStatus {
    ClientStatus(realm, EffClientID(k, kc.spec), SecretKey(k, kc.spec).name, kc.generation, Ready(kc.generation))
  }

  function ClientCall(k: Key, pc: ClientPC): Call
    requires !pc.CIdle?
  {
    match pc
    case CGetCR => GetClientCR(k)
    case CGetRealm(kc) => GetRealmCR(RefKey(k, kc.spec))
    case CDelFind(kc, realm) => Admin(ListClients(realm, EffClientID(k, kc.spec)))
    case CDelClient(kc, realm, id) => Admin(DeleteClient(realm, id))
    case CDelImpersonate(kc, _) => Impersonate(kc.spec.serviceAccount)
    case CDelSecret(kc, _) => DeleteSecret(SecretKey(k, kc.spec))
    case CDropFinalizer(kc, _) => UpdateClientCR(k, kc.(finalizers := kc.finalizers - {FINALIZER}))
    case CAddFinalizer(kc) => UpdateClientCR(k, kc.(finalizers := kc.finalizers + {FINALIZER}))
    case CFind(kc, realm) => Admin(ListClients(realm, EffClientID(k, kc.spec)))
    case CPost(kc, realm) => Admin(PostClient(realm, Desired(k, kc.spec)))
    case CFindAgain(kc, realm) => Admin(ListClients(realm, EffClientID(k, kc.spec)))
    case CPut(kc, realm, id) => Admin(PutClient(realm, id, Desired(k, kc.spec).(id := id)))
    case CGetSecret(kc, realm, id) => Admin(GetSecret(realm, id))
    case CImpersonate(kc, _, _) => Impersonate(kc.spec.serviceAccount)
    case CPutSecret(kc, realm, secret) =>
      PutSecret(SecretKey(k, kc.spec), kc.spec.tenantID, SecretData(k, kc.spec, realm, secret))
    case CMarkReady(kc, realm) => StatusClientCR(k, kc.(status := ReadyStatus(k, kc, realm)))
    case CMark(kc, mark) => StatusClientCR(k, kc.(status := kc.status.(mark := mark)))
  }

  /** After the realm lookup: realmName and realmReady are known. */
  function Resolved(kc: ClientCR, realm: string, ready: bool): ClientPC {
    if kc.deleting then
      if FINALIZER !in kc.finalizers then CIdle
      else if realm != "" then CDelFind(kc, realm)
      else CDelImpersonate(kc, realm)
    else if FINALIZER !in kc.finalizers then CAddFinalizer(kc)
    else if realm == "" then CMark(kc, Failed(kc.generation))
    else if !ready && kc.status.realm == "" then CMark(kc, Reconciling(kc.generation))
    else CFind(kc, realm)
  }

  /** The client is known to exist under this id: fetch the secret unless it is public. */
  function Ensured(kc: ClientCR, realm: string, id: nat): ClientPC {
    if kc.spec.isPublic then CImpersonate(kc, realm, None) else CGetSecret(kc, realm, id)
  }

  function ClientResume(k: Key, pc: ClientPC, answer: Answer): ClientPC {
    match pc
    case CIdle => CGetCR
    case CGetCR => if answer.GotClient? then CGetRealm(answer.client) else CIdle
    case CGetRealm(kc) =>
      if answer.GotRealm? then
        Resolved(kc, if kc.status.realm != "" then kc.status.realm else EffName(answer.realm.spec), answer.realm.status.mark.Ready?)
      else if answer.Missing? then Resolved(kc, kc.status.realm, false)
      else CIdle
    case CDelFind(kc, realm) =>
      if answer.Replied? && answer.body.Listing? then
        var found := FirstExact(answer.body.clients, EffClientID(k, kc.spec));
        if found.Some? then CDelClient(kc, realm, found.value.id) else CDelImpersonate(kc, realm)
      else CIdle
    case CDelClient(kc, realm, _) => if answer.Replied? then CDelImpersonate(kc, realm) else CIdle
    case CDelImpersonate(kc, realm) => if answer.Done? then CDelSecret(kc, realm) else CIdle
    case CDelSecret(kc, realm) => if answer.Done? || answer.Missing? then CDropFinalizer(kc, realm) else CIdle
    case CDropFinalizer(_, _) => CIdle
    case CAddFinalizer(_) => CIdle
    case CFind(kc, realm) =>
      if answer.Replied? && answer.body.Listing? then
        var found := FirstExact(answer.body.clients, EffClientID(k, kc.spec));
        if found.None? then CPost(kc, realm)
        else if !SameManaged(found.value, Desired(k, kc.spec)) then CPut(kc, realm, found.value.id)
        else Ensured(kc, realm, found.value.id)
      else CMark(kc, Failed(kc.generation))
    case CPost(kc, realm) => if answer.Replied? then CFindAgain(kc, realm) else CMark(kc, Failed(kc.generation))
    case CFindAgain(kc, realm) =>
      if answer.Replied? && answer.body.Listing? then
        var found := FirstExact(answer.body.clients, EffClientID(k, kc.spec));
        if found.Some? then Ensured(kc, realm, found.value.id) else CMark(kc, Failed(kc.generation))
      else CMark(kc, Failed(kc.generation))
    case CPut(kc, realm, id) => if answer.Replied? then Ensured(kc, realm, id) else CMark(kc, Failed(kc.generation))
    case CGetSecret(kc, realm, _) =>
      if answer.Replied? && answer.body.SecretBody? then CImpersonate(kc, realm, Some(answer.body.secret))
      else CMark(kc, Failed(kc.generation))
    case CImpersonate(kc, realm, secret) => if answer.Done? then CPutSecret(kc, realm, secret) else CIdle
    case CPutSecret(kc, realm, _) => if answer.Done? then CMarkReady(kc, realm) else CMark(kc, Failed(kc.generation))
    case CMarkReady(_, _) => CIdle
    case CMark(_, _) => CIdle
  }

  // ---------- Users ----------

  datatype UserAct =
    | CreateRealm(key: Key, realm: RealmSpec, finalizers: set<string>)
    | EditRealm(key: Key, realm: RealmSpec)
    | FinalizersRealm(key: Key, finalizers: set<string>)
    | DeleteRealmCR(key: Key)
    | CreateClient(key: Key, client: ClientSpec, finalizers: set<string>)
    | EditClient(key: Key, client: ClientSpec)
    | FinalizersClient(key: Key, finalizers: set<string>)
    | DeleteClientCR(key: Key)

  /** What a realm CR and a client id together name in Keycloak. */
  datatype Target = Target(realmKey: Key, clientID: string)

  /** Fixed: a live object keeps its realm name, realm reference and client id.
      Renaming: a realm name or client id may be edited, into any that is not taken.
      Free: anything goes. But for Free, a realm name or target that is taken
      passes to another key only once nothing needs the old one. */
  datatype Naming = Fixed | Renaming | Free

  /** How users behave; stripRealms, stripClients: they may remove the finalizer by hand. */
  datatype Rules = Rules(naming: Naming, stripRealms: bool, stripClients: bool)

  const STRICT := Rules(Fixed, false, false)
  const STRIPPING := Rules(Fixed, true, false)
  const RENAMING := Rules(Renaming, false, false)
  const REUSING := Rules(Free, false, false)
  const FREE := Rules(Free, true, true)

  datatype State = State(
    store: Store,
    realmPCs: map<Key, RealmPC>,
    clientPCs: map<Key, ClientPC>,
    // history: which key last took a realm name or a target, and which names
    // a realm CR has carried while its Ready condition was true
    realmOwner: map<string, Key>,
    clientOwner: map<Target, Key>,
    readyNames: set<string>)

  function RPC(s: State, m: Key): RealmPC {
    if m in s.realmPCs then s.realmPCs[m] else RIdle
  }

  function CPC(s: State, k: Key): ClientPC {
    if k in s.clientPCs then s.clientPCs[k] else CIdle
  }

  function TargetOf(k: Key, spec: ClientSpec): Target {
    Target(RefKey(k, spec), EffClientID(k, spec))
  }

  predicate FinalizersMayBecome(was: set<string>, now: set<string>, deleting: bool, mayStrip: bool) {
    (deleting ==> now <= was) && (FINALIZER in was && FINALIZER !in now ==> mayStrip)
  }

  /** No realm resource m, and no client resource that refers to it. */
  predicate Vacated(st: Store, m: Key) {
    m !in st.realms && forall k | k in st.clients :: RefKey(k, st.clients[k].spec) != m
  }

  /** The realm name is new, or m's own, or its last owner has vacated it. */
  predicate MayName(s: State, m: Key, name: string) {
    name in s.realmOwner ==> s.realmOwner[name] == m || Vacated(s.store, s.realmOwner[name])
  }

  /** The target is new, or k's own, or the resource that had it is gone. */
  predicate MayTarget(s: State, k: Key, t: Target) {
    t in s.clientOwner ==> s.clientOwner[t] == k || s.clientOwner[t] !in s.store.clients
  }

  predicate Allowed(rules: Rules, s: State, u: UserAct) {
    match u
    case CreateRealm(m, spec, _) =>
      && m !in s.store.realms && spec.tenantID != ""
      && (rules.naming.Free? || MayName(s, m, EffName(spec)))
    case EditRealm(m, spec) =>
      && m in s.store.realms && spec.tenantID != ""
      && (rules.naming.Free? || EffName(spec) == EffName(s.store.realms[m].spec)
          || (rules.naming.Renaming? && MayName(s, m, EffName(spec))))
    case FinalizersRealm(m, fs) =>
      && m in s.store.realms
      && FinalizersMayBecome(s.store.realms[m].finalizers, fs, s.store.realms[m].deleting, rules.stripRealms)
    case DeleteRealmCR(m) => m in s.store.realms
    case CreateClient(k, spec, _) =>
      && k !in s.store.clients
      && (rules.naming.Free? || MayTarget(s, k, TargetOf(k, spec)))
    case EditClient(k, spec) =>
      && k in s.store.clients
      && (rules.naming.Free? || TargetOf(k, spec) == TargetOf(k, s.store.clients[k].spec)
          || (rules.naming.Renaming? && RefKey(k, spec) == RefKey(k, s.store.clients[k].spec) && MayTarget(s, k, TargetOf(k, spec))))
    case FinalizersClient(k, fs) =>
      && k in s.store.clients
      && FinalizersMayBecome(s.store.clients[k].finalizers, fs, s.store.clients[k].deleting, rules.stripClients)
    case DeleteClientCR(k) => k in s.store.clients
  }

  function UserStep(s: State, u: UserAct): State
    requires Allowed(FREE, s, u)
  {
    var st := s.store;
    match u
    case CreateRealm(m, spec, fs) =>
      s.(store := st.(revision := st.revision + 1,
                      realms := st.realms[m := RealmCR(st.revision + 1, 1, false, fs, spec, NEWREALM)]),
         realmOwner := s.realmOwner[EffName(spec) := m])
    case EditRealm(m, spec) =>
      s.(store := PutRealmCR(st, m, EditedRealm(st.realms[m], spec)),
         realmOwner := s.realmOwner[EffName(spec) := m])
    case FinalizersRealm(m, fs) =>
      s.(store := PutRealmCR(st, m, st.realms[m].(finalizers := fs)))
    case DeleteRealmCR(m) =>
      s.(store := PutRealmCR(st, m, DeletedRealm(st.realms[m])))
    case CreateClient(k, spec, fs) =>
      s.(store := st.(revision := st.revision + 1,
                      clients := st.clients[k := ClientCR(st.revision + 1, 1, false, fs, spec, NEWCLIENT)]),
         clientOwner := s.clientOwner[TargetOf(k, spec) := k])
    case EditClient(k, spec) =>
      s.(store := PutClientCR(st, k, EditedClient(st.clients[k], spec)),
         clientOwner := s.clientOwner[TargetOf(k, spec) := k])
    case FinalizersClient(k, fs) =>
      s.(store := PutClientCR(st, k, st.clients[k].(finalizers := fs)))
    case DeleteClientCR(k) =>
      s.(store := PutClientCR(st, k, DeletedClient(st.clients[k])))
  }

  /** Marking an object for deletion, the first time, raises its generation. */
  function DeletedRealm(cr: RealmCR): RealmCR {
    if cr.deleting then cr else cr.(deleting := true, generation := cr.generation + 1)
  }

  function DeletedClient(cr: ClientCR): ClientCR {
    if cr.deleting then cr else cr.(deleting := true, generation := cr.generation + 1)
  }

  function EditedRealm(cr: RealmCR, spec: RealmSpec): RealmCR {
    if spec == cr.spec then cr else cr.(spec := spec, generation := cr.generation + 1)
  }

  function EditedClient(cr: ClientCR, spec: ClientSpec): ClientCR {
    if spec == cr.spec then cr else cr.(spec := spec, generation := cr.generation + 1)
  }

  // ---------- Steps and runs ----------

  datatype Action =
    | RealmStep(key: Key, fault: Fault, pick: Pick)
    | ClientStep(key: Key, fault: Fault, pick: Pick)
    | RealmCrash(key: Key)
    | ClientCrash(key: Key)
    | User(act: UserAct)

  function StepRealm(s: State, m: Key, fault: Fault, pick: Pick): State {
    var pc := RPC(s, m);
    if pc.RIdle? then s.(realmPCs := s.realmPCs[m := RGetCR])
    else
      var (st, answer) := Perform(s.store, RealmCall(m, pc), fault, pick);
      s.(store := st, realmPCs := s.realmPCs[m := RealmResume(pc, answer)])
  }

  function StepClient(s: State, k: Key, fault: Fault, pick: Pick): State {
    var pc := CPC(s, k);
    if pc.CIdle? then s.(clientPCs := s.clientPCs[k := CGetCR])
    else
      var (st, answer) := Perform(s.store, ClientCall(k, pc), fault, pick);
      s.(store := st, clientPCs := s.clientPCs[k := ClientResume(k, pc, answer)])
  }

  function ReadyNow(st: Store): set<string> {
    set m | m in st.realms && st.realms[m].status.mark.Ready? :: EffName(st.realms[m].spec)
  }

  /** A user action the rules forbid changes nothing, so every sequence of
      actions is a run. */
  function Apply(rules: Rules, s: State, a: Action): State {
    var s' := match a
      case RealmStep(m, fault, pick) => StepRealm(s, m, fault, pick)
      case ClientStep(k, fault, pick) => StepClient(s, k, fault, pick)
      case RealmCrash(m) => s.(realmPCs := s.realmPCs[m := RIdle])
      case ClientCrash(k) => s.(clientPCs := s.clientPCs[k := CIdle])
      case User(u) => if Allowed(rules, s, u) then UserStep(s, u) else s;
    s'.(readyNames := s.readyNames + ReadyNow(s'.store))
  }

  function Exec(rules: Rules, s: State, run: seq<Action>): State {
    if run == [] then s
    else Apply(rules, Exec(rules, s, run[..|run| - 1]), run[|run| - 1])
  }

  /** Both stores empty, every worker idle. */
  const START := State(Store(0, map[], map[], map[], Server(map[], 1)), map[], map[], map[], map[], {})

  lemma ExecNext(rules: Rules, s: State, run: seq<Action>, i: nat)
    requires i < |run|
    ensures Exec(rules, s, run[..i + 1]) == Apply(rules, Exec(rules, s, run[..i]), run[i])
  {
    assert run[..i + 1][..i] == run[..i];
  }

  /** Some run leads there. */
  ghost predicate Reachable(rules: Rules, s: State) {
    exists run :: s == Exec(rules, START, run)
  }

  lemma {:induction false} ServerStaysWellFormed(rules: Rules, run: seq<Action>)
    ensures WellFormed(Exec(rules, START, run).store.server)
  {
    if run != [] {
      var last := |run| - 1;
      ServerStaysWellFormed(rules, run[..last]);
      ApplyKeepsWellFormed(rules, Exec(rules, START, run[..last]), run[last]);
    }
  }

  lemma ApplyKeepsWellFormed(rules: Rules, s: State, a: Action)
    requires WellFormed(s.store.server)
    ensures WellFormed(Apply(rules, s, a).store.server)
  {
    match a {
      case RealmStep(m, fault, pick) =>
        if !RPC(s, m).RIdle? { PerformKeepsWellFormed(s.store, RealmCall(m, RPC(s, m)), fault, pick); }
      case ClientStep(k, fault, pick) =>
        if !CPC(s, k).CIdle? { PerformKeepsWellFormed(s.store, ClientCall(k, CPC(s, k)), fault, pick); }
      case User(u) =>
        if Allowed(rules, s, u) { UsersLeaveServer(s, u); }
      case _ =>
    }
  }

  lemma UsersLeaveServer(s: State, u: UserAct)
    requires Allowed(FREE, s, u)
    ensures UserStep(s, u).store.server == s.store.server
  {
  }

  lemma PerformKeepsWellFormed(st: Store, call: Call, fault: Fault, pick: Pick)
    requires WellFormed(st.server)
    ensures WellFormed(Perform(st, call, fault, pick).0.server)
  {
    if call.Admin? { HandleKeepsWellFormed(st.server, call.request, pick); }
  }
}
