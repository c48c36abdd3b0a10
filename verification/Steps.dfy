// Single undisturbed steps of both workers, and the stretches of a run they
// make up: what reachable states are built from.
module Steps {
  import opened Kube
  import opened KeycloakServer
  import opened Machine
  import opened NoOrphan
  import opened Passes

  const NOTHINGYET: seq<Action> := []

  /** One action more. */
  lemma Go(rules: Rules, s: State, a: Action) returns (s': State)
    requires Reachable(rules, s)
    ensures Reachable(rules, s') && s' == Apply(rules, s, a)
  {
    var run :| s == Exec(rules, START, run);
    assert (run + [a])[..|run|] == run;
    s' := Exec(rules, START, run + [a]);
  }

  function RealmGo(m: Key): Action { RealmStep(m, Fine, NOPICK) }

  function ClientGo(k: Key): Action { ClientStep(k, Fine, NOPICK) }

  predicate Named(spec: RealmSpec) {
    spec.tenantID != "" && EffName(spec) != ""
  }

  /** A resource with the finalizer whose realm does not exist yet. */
  predicate Awaiting(s: State, m: Key) {
    && m in s.store.realms && !s.store.realms[m].deleting && FINALIZER in s.store.realms[m].finalizers
    && RPC(s, m).RIdle? && EffName(s.store.realms[m].spec) !in s.store.server.realms
  }

  /** Only the worker of m moved. */
  predicate SameBesidesRealms(s: State, s': State, m: Key) {
    && s'.clientPCs == s.clientPCs && s'.realmOwner == s.realmOwner && s'.clientOwner == s.clientOwner
    && s'.realmPCs - {m} == s.realmPCs - {m}
  }

  predicate AllIdle(pcs: map<Key, RealmPC>) {
    forall n | n in pcs :: pcs[n].RIdle?
  }

  lemma StillIdle(s: State, s': State, m: Key)
    requires AllIdle(s.realmPCs) && SameBesidesRealms(s, s', m) && RPC(s', m).RIdle?
    ensures AllIdle(s'.realmPCs)
  {
    forall n | n in s'.realmPCs ensures s'.realmPCs[n].RIdle? {
      if n != m { assert n in s'.realmPCs - {m} && n in s.realmPCs - {m} && (s'.realmPCs - {m})[n] == (s.realmPCs - {m})[n]; }
    }
  }

  lemma RealmWakes(rules: Rules, s: State, m: Key)
    requires RPC(s, m).RIdle?
    ensures var s' := Apply(rules, s, RealmGo(m));
      s'.store == s.store && RPC(s', m) == RGetCR && SameBesidesRealms(s, s', m)
  {
  }

  lemma RealmIsLoaded(rules: Rules, s: State, m: Key)
    requires RPC(s, m) == RGetCR && m in s.store.realms
    ensures var s' := Apply(rules, s, RealmGo(m));
      s'.store == s.store && RPC(s', m) == RealmResume(RGetCR, GotRealm(s.store.realms[m])) && SameBesidesRealms(s, s', m)
  {
  }

  lemma RealmIsMissed(rules: Rules, s: State, m: Key, cr: RealmCR)
    requires RPC(s, m) == RGetRealm(cr) && EffName(cr.spec) !in s.store.server.realms
    ensures var s' := Apply(rules, s, RealmGo(m));
      s'.store == s.store && RPC(s', m) == RPostRealm(cr) && SameBesidesRealms(s, s', m)
  {
  }

  lemma RealmIsPosted(rules: Rules, s: State, m: Key, cr: RealmCR)
    requires RPC(s, m) == RPostRealm(cr) && EffName(cr.spec) !in s.store.server.realms
    ensures var s' := Apply(rules, s, RealmGo(m));
      && s'.store == s.store.(server := EnsuredRealm(s.store.server, RealmRepOf(cr.spec)))
      && RPC(s', m) == RMark(cr, true) && SameBesidesRealms(s, s', m)
  {
  }

  lemma RealmIsMarked(rules: Rules, s: State, m: Key, cr: RealmCR)
    requires RPC(s, m) == RMark(cr, true) && m in s.store.realms && s.store.realms[m] == cr
    ensures var s' := Apply(rules, s, RealmGo(m));
      && s'.store == PutRealmCR(s.store, m, cr.(status := RealmStatus(EffName(cr.spec), cr.generation, Ready(cr.generation))))
      && RPC(s', m).RIdle? && SameBesidesRealms(s, s', m)
  {
  }

  /** Five undisturbed steps of its worker create the realm and mark it Ready. */
  lemma RealmIsCreated(rules: Rules, s: State, m: Key) returns (s': State)
    requires Reachable(rules, s) && Awaiting(s, m)
    ensures Reachable(rules, s') && s'.store == RealmPass(s.store, m) && RPC(s', m).RIdle? && SameBesidesRealms(s, s', m)
  {
    var cr := s.store.realms[m];
    RealmWakes(rules, s, m);
    s' := Go(rules, s, RealmGo(m));
    RealmIsLoaded(rules, s', m);
    s' := Go(rules, s', RealmGo(m));
    RealmIsMissed(rules, s', m, cr);
    s' := Go(rules, s', RealmGo(m));
    RealmIsPosted(rules, s', m, cr);
    s' := Go(rules, s', RealmGo(m));
    RealmIsMarked(rules, s', m, cr);
    s' := Go(rules, s', RealmGo(m));
  }

  /** Only m's realm, created and Ready, and nothing else anywhere. */
  predicate JustRealm(s: State, m: Key, spec: RealmSpec) {
    && AllIdle(s.realmPCs)
    && s.store.realms.Keys == {m} && s.store.realms[m].spec == spec && s.store.realms[m].finalizers == {FINALIZER}
    && !s.store.realms[m].deleting && s.store.realms[m].status.mark == Ready(s.store.realms[m].generation)
    && s.realmOwner.Keys == {EffName(spec)}
    && s.store.clients == map[] && s.clientPCs == map[] && s.clientOwner == map[]
    && s.store.server == Server(map[EffName(spec) := RealmRec(spec.displayName, spec.enabled, map[])], 1)
  }

  lemma RealmFromNothing(rules: Rules, m: Key, spec: RealmSpec) returns (s: State)
    requires Named(spec)
    ensures Reachable(rules, s) && JustRealm(s, m, spec)
  {
    assert START == Exec(rules, START, NOTHINGYET);
    s := Go(rules, START, User(CreateRealm(m, spec, {FINALIZER})));
    assert Awaiting(s, m) && s.store.realms.Keys == {m};
    var created := RealmIsCreated(rules, s, m);
    StillIdle(s, created, m);
    s := created;
  }

  // ---------- Deleting a realm ----------

  /** A realm resource marked for deletion, held only by the platform finalizer. */
  predicate Leaving(s: State, m: Key) {
    && m in s.store.realms && s.store.realms[m].deleting && s.store.realms[m].finalizers == {FINALIZER}
    && RPC(s, m).RIdle? && EffName(s.store.realms[m].spec) in s.store.server.realms
  }

  lemma RealmIsUnmade(rules: Rules, s: State, m: Key, cr: RealmCR)
    requires RPC(s, m) == RDeleteRealm(cr) && EffName(cr.spec) in s.store.server.realms
    ensures var s' := Apply(rules, s, RealmGo(m));
      && s'.store == s.store.(server := s.store.server.(realms := s.store.server.realms - {EffName(cr.spec)}))
      && RPC(s', m) == RDropFinalizer(cr) && SameBesidesRealms(s, s', m)
  {
  }

  lemma RealmIsReleased(rules: Rules, s: State, m: Key, cr: RealmCR)
    requires RPC(s, m) == RDropFinalizer(cr) && m in s.store.realms && s.store.realms[m] == cr
    requires cr.deleting && cr.finalizers == {FINALIZER}
    ensures var s' := Apply(rules, s, RealmGo(m));
      && s'.store == s.store.(revision := s.store.revision + 1, realms := s.store.realms - {m})
      && RPC(s', m).RIdle? && SameBesidesRealms(s, s', m)
  {
    assert {FINALIZER} - {FINALIZER} == {};
  }

  /** Three steps delete the realm; the resource is still there. */
  lemma RealmIsDeleted(rules: Rules, s: State, m: Key) returns (s': State)
    requires Reachable(rules, s) && Leaving(s, m)
    ensures Reachable(rules, s') && RPC(s', m) == RDropFinalizer(s.store.realms[m]) && SameBesidesRealms(s, s', m)
    ensures s'.store == s.store.(server := s.store.server.(realms := s.store.server.realms - {EffName(s.store.realms[m].spec)}))
  {
    RealmWakes(rules, s, m);
    s' := Go(rules, s, RealmGo(m));
    RealmIsLoaded(rules, s', m);
    s' := Go(rules, s', RealmGo(m));
    RealmIsUnmade(rules, s', m, s.store.realms[m]);
    s' := Go(rules, s', RealmGo(m));
  }

  /** A fourth lets the resource go. */
  lemma RealmGoes(rules: Rules, s: State, m: Key) returns (s': State)
    requires Reachable(rules, s) && Leaving(s, m)
    ensures Reachable(rules, s') && RPC(s', m).RIdle? && SameBesidesRealms(s, s', m)
    ensures s'.store.realms == s.store.realms - {m} && s'.store.clients == s.store.clients
    ensures s'.store.server == s.store.server.(realms := s.store.server.realms - {EffName(s.store.realms[m].spec)})
  {
    s' := RealmIsDeleted(rules, s, m);
    RealmIsReleased(rules, s', m, s.store.realms[m]);
    s' := Go(rules, s', RealmGo(m));
  }

  // ---------- Users ----------

  lemma RealmIsMarkedDeleted(rules: Rules, s: State, m: Key)
    requires m in s.store.realms && !s.store.realms[m].deleting && s.store.realms[m].finalizers == {FINALIZER}
    requires RPC(s, m).RIdle? && EffName(s.store.realms[m].spec) in s.store.server.realms
    ensures var s' := Apply(rules, s, User(DeleteRealmCR(m)));
      && Leaving(s', m) && s'.store.realms.Keys == s.store.realms.Keys
      && s'.store.realms[m] == DeletedRealm(s.store.realms[m]).(revision := s'.store.realms[m].revision)
      && s'.store.clients == s.store.clients && s'.store.server == s.store.server
      && s'.realmPCs == s.realmPCs && SameBesidesRealms(s, s', m)
  {
  }

  lemma ClientIsMarkedDeleted(rules: Rules, s: State, k: Key)
    requires k in s.store.clients && !s.store.clients[k].deleting && FINALIZER in s.store.clients[k].finalizers
    ensures var s' := Apply(rules, s, User(DeleteClientCR(k)));
      && s'.store.realms == s.store.realms && s'.store.clients.Keys == s.store.clients.Keys
      && s'.store.clients[k] == DeletedClient(s.store.clients[k]).(revision := s'.store.clients[k].revision)
      && s'.clientPCs == s.clientPCs
  {
  }

  // ---------- Provisioning a client ----------

  predicate SameBesidesClients(s: State, s': State, k: Key, pc: ClientPC) {
    s'.clientPCs == s.clientPCs[k := pc] && s'.realmPCs == s.realmPCs && s'.store.realms == s.store.realms
  }

  lemma ClientWakes(rules: Rules, s: State, k: Key)
    requires CPC(s, k).CIdle?
    ensures var s' := Apply(rules, s, ClientGo(k)); s'.store == s.store && SameBesidesClients(s, s', k, CGetCR)
  {
  }

  lemma ClientIsLoaded(rules: Rules, s: State, k: Key)
    requires CPC(s, k) == CGetCR && k in s.store.clients
    ensures var s' := Apply(rules, s, ClientGo(k));
      s'.store == s.store && SameBesidesClients(s, s', k, CGetRealm(s.store.clients[k]))
  {
  }

  /** The realm resource is read, or found missing. */
  lemma ClientIsResolved(rules: Rules, s: State, k: Key, kc: ClientCR)
    requires CPC(s, k) == CGetRealm(kc) && kc.status.realm == ""
    ensures var s', m := Apply(rules, s, ClientGo(k)), RefKey(k, kc.spec);
      && s'.store == s.store
      && SameBesidesClients(s, s', k, if m in s.store.realms
           then Resolved(kc, EffName(s.store.realms[m].spec), s.store.realms[m].status.mark.Ready?) else Resolved(kc, "", false))
  {
  }

  /** Three steps of a worker: wake up, read the resource, resolve its realm. */
  lemma ClientResolves(rules: Rules, s: State, k: Key) returns (s': State)
    requires Reachable(rules, s) && k in s.store.clients && CPC(s, k).CIdle? && s.store.clients[k].status.realm == ""
    ensures Reachable(rules, s') && s'.store == s.store && s'.realmPCs == s.realmPCs
    ensures var kc := s.store.clients[k];
      var m := RefKey(k, kc.spec);
      CPC(s', k) == if m in s.store.realms then Resolved(kc, EffName(s.store.realms[m].spec), s.store.realms[m].status.mark.Ready?)
                    else Resolved(kc, "", false)
  {
    ClientWakes(rules, s, k);
    s' := Go(rules, s, ClientGo(k));
    ClientIsLoaded(rules, s', k);
    s' := Go(rules, s', ClientGo(k));
    ClientIsResolved(rules, s', k, s.store.clients[k]);
    s' := Go(rules, s', ClientGo(k));
  }

  lemma ClientIsMissed(rules: Rules, s: State, k: Key, kc: ClientCR, realm: string)
    requires CPC(s, k) == CFind(kc, realm) && realm in s.store.server.realms && s.store.server.realms[realm].clients == map[]
    requires WellFormed(s.store.server)
    ensures var s' := Apply(rules, s, ClientGo(k)); s'.store == s.store && SameBesidesClients(s, s', k, CPost(kc, realm))
  {
    ListFinds(s.store.server, realm, EffClientID(k, kc.spec), NOPICK);
  }

  lemma ClientIsPosted(rules: Rules, s: State, k: Key, kc: ClientCR, realm: string)
    requires CPC(s, k) == CPost(kc, realm) && realm in s.store.server.realms && s.store.server.realms[realm].clients == map[]
    ensures var s' := Apply(rules, s, ClientGo(k));
      && s'.store == s.store.(server := s'.store.server) && SameBesidesClients(s, s', k, CFindAgain(kc, realm))
      && s'.store.server == EnsuredClient(s.store.server, realm, Desired(k, kc.spec))
      && HasClient(s'.store.server, realm, EffClientID(k, kc.spec))
  {
  }

  lemma ClientIsFound(rules: Rules, s: State, k: Key, kc: ClientCR, realm: string)
    requires CPC(s, k) == CFindAgain(kc, realm) && HasClient(s.store.server, realm, EffClientID(k, kc.spec)) && WellFormed(s.store.server)
    ensures var s' := Apply(rules, s, ClientGo(k));
      && s'.store == s.store
      && SameBesidesClients(s, s', k, Ensured(kc, realm, s.store.server.realms[realm].clients[EffClientID(k, kc.spec)].id))
  {
    ListFinds(s.store.server, realm, EffClientID(k, kc.spec), NOPICK);
  }

  lemma ClientIsDrifted(rules: Rules, s: State, k: Key, kc: ClientCR, realm: string)
    requires CPC(s, k) == CFind(kc, realm) && HasClient(s.store.server, realm, EffClientID(k, kc.spec)) && WellFormed(s.store.server)
    requires !SameManaged(s.store.server.realms[realm].clients[EffClientID(k, kc.spec)], Desired(k, kc.spec))
    ensures var s' := Apply(rules, s, ClientGo(k));
      && s'.store == s.store
      && SameBesidesClients(s, s', k, CPut(kc, realm, s.store.server.realms[realm].clients[EffClientID(k, kc.spec)].id))
  {
    ListFinds(s.store.server, realm, EffClientID(k, kc.spec), NOPICK);
  }

  lemma ClientIsPut(rules: Rules, s: State, k: Key, kc: ClientCR, realm: string, id: nat)
    requires CPC(s, k) == CPut(kc, realm, id) && HasClient(s.store.server, realm, EffClientID(k, kc.spec))
    requires s.store.server.realms[realm].clients[EffClientID(k, kc.spec)].id == id
    ensures var s', c := Apply(rules, s, ClientGo(k)), EffClientID(k, kc.spec);
      && s'.store == s.store.(server := s'.store.server)
      && HasClient(s'.store.server, realm, c) && SameManaged(s'.store.server.realms[realm].clients[c], Desired(k, kc.spec))
  {
  }

  lemma SecretIsRead(rules: Rules, s: State, k: Key, kc: ClientCR, realm: string, id: nat)
    requires CPC(s, k) == CGetSecret(kc, realm, id) && HasClient(s.store.server, realm, EffClientID(k, kc.spec))
    requires s.store.server.realms[realm].clients[EffClientID(k, kc.spec)].id == id
    ensures var s' := Apply(rules, s, ClientGo(k));
      s'.store == s.store && SameBesidesClients(s, s', k, CImpersonate(kc, realm, Some(SecretOf(id))))
  {
  }

  lemma ClientActs(rules: Rules, s: State, k: Key, kc: ClientCR, realm: string, secret: Option<Secret>)
    requires CPC(s, k) == CImpersonate(kc, realm, secret)
    ensures var s' := Apply(rules, s, ClientGo(k));
      s'.store == s.store && SameBesidesClients(s, s', k, CPutSecret(kc, realm, secret))
  {
  }

  lemma SecretIsPut(rules: Rules, s: State, k: Key, kc: ClientCR, realm: string, secret: Option<Secret>)
    requires CPC(s, k) == CPutSecret(kc, realm, secret)
    ensures var s' := Apply(rules, s, ClientGo(k));
      s'.store == s.store.(secrets := s'.store.secrets) && SameBesidesClients(s, s', k, CMarkReady(kc, realm))
  {
  }

  lemma ClientIsMarked(rules: Rules, s: State, k: Key, kc: ClientCR, realm: string)
    requires CPC(s, k) == CMarkReady(kc, realm) && k in s.store.clients && s.store.clients[k] == kc && !kc.deleting
    ensures var s' := Apply(rules, s, ClientGo(k));
      && s'.store == PutClientCR(s.store, k, kc.(status := ReadyStatus(k, kc, realm)))
      && SameBesidesClients(s, s', k, CIdle)
  {
  }

  /** Two steps look for the client and create it. */
  lemma ClientIsCreated(rules: Rules, s: State, k: Key, kc: ClientCR, realm: string) returns (s': State)
    requires Reachable(rules, s) && CPC(s, k) == CFind(kc, realm)
    requires realm in s.store.server.realms && s.store.server.realms[realm].clients == map[] && WellFormed(s.store.server)
    ensures Reachable(rules, s') && CPC(s', k) == CFindAgain(kc, realm)
    ensures s'.store == s.store.(server := s'.store.server) && s'.realmPCs == s.realmPCs
    ensures s'.store.server.realms.Keys == s.store.server.realms.Keys && WellFormed(s'.store.server)
    ensures HasClient(s'.store.server, realm, EffClientID(k, kc.spec))
  {
    ClientIsMissed(rules, s, k, kc, realm);
    s' := Go(rules, s, ClientGo(k));
    ClientIsPosted(rules, s', k, kc, realm);
    EnsuredClientMeans(s'.store.server, realm, Desired(k, kc.spec));
    s' := Go(rules, s', ClientGo(k));
  }

  /** The client is looked up again, and its secret fetched unless it is public. */
  lemma ClientIsFetched(rules: Rules, s: State, k: Key, kc: ClientCR, realm: string) returns (s': State, secret: Option<Secret>)
    requires Reachable(rules, s) && CPC(s, k) == CFindAgain(kc, realm) && WellFormed(s.store.server)
    requires HasClient(s.store.server, realm, EffClientID(k, kc.spec))
    ensures Reachable(rules, s') && CPC(s', k) == CImpersonate(kc, realm, secret) && s'.realmPCs == s.realmPCs && s'.store == s.store
  {
    var id := s.store.server.realms[realm].clients[EffClientID(k, kc.spec)].id;
    ClientIsFound(rules, s, k, kc, realm);
    s' := Go(rules, s, ClientGo(k));
    secret := None;
    if !kc.spec.isPublic {
      SecretIsRead(rules, s', k, kc, realm, id);
      s' := Go(rules, s', ClientGo(k));
      secret := Some(SecretOf(id));
    }
  }

  /** The client resource k is Ready and pinned to the realm, and otherwise as it was. */
  predicate Pinned(s: State, s': State, k: Key, realm: string) {
    && k in s.store.clients && s'.store.clients.Keys == s.store.clients.Keys
    && s'.store.clients[k].status.realm == realm && s'.store.clients[k].status.mark == Ready(s'.store.clients[k].generation)
    && s'.store.clients[k].spec == s.store.clients[k].spec
    && s'.store.clients[k].deleting == s.store.clients[k].deleting && s'.store.clients[k].finalizers == s.store.clients[k].finalizers
    && s'.store.realms == s.store.realms && s'.store.server == s.store.server && s'.realmPCs == s.realmPCs && CPC(s', k).CIdle?
  }

  /** The secret is written, and the realm pinned. */
  lemma ClientIsPublished(rules: Rules, s: State, k: Key, kc: ClientCR, realm: string, secret: Option<Secret>) returns (s': State)
    requires Reachable(rules, s) && CPC(s, k) == CImpersonate(kc, realm, secret)
    requires k in s.store.clients && s.store.clients[k] == kc && !kc.deleting
    ensures Reachable(rules, s') && Pinned(s, s', k, realm)
  {
    ClientActs(rules, s, k, kc, realm, secret);
    s' := Go(rules, s, ClientGo(k));
    SecretIsPut(rules, s', k, kc, realm, secret);
    s' := Go(rules, s', ClientGo(k));
    PinMarks(rules, s', k, kc, realm);
    s' := Go(rules, s', ClientGo(k));
  }

  lemma PinMarks(rules: Rules, s: State, k: Key, kc: ClientCR, realm: string)
    requires CPC(s, k) == CMarkReady(kc, realm) && k in s.store.clients && s.store.clients[k] == kc && !kc.deleting
    ensures Pinned(s, Apply(rules, s, ClientGo(k)), k, realm)
  {
    ClientIsMarked(rules, s, k, kc, realm);
  }

  lemma ClientCrashes(rules: Rules, s: State, k: Key)
    ensures var s' := Apply(rules, s, ClientCrash(k)); s'.store == s.store && CPC(s', k).CIdle? && s'.realmPCs == s.realmPCs
  {
  }

  /** A realm, and an unpinned client resource that refers to it. */
  lemma RealmAndClient(rules: Rules, m: Key, spec: RealmSpec, k: Key, client: ClientSpec) returns (s: State)
    requires Named(spec) && RefKey(k, client) == m
    ensures Reachable(rules, s) && JustRealmAndClient(s, m, spec, k, client)
  {
    s := RealmFromNothing(rules, m, spec);
    ClientJoins(rules, s, m, spec, k, client);
    s := Go(rules, s, User(CreateClient(k, client, {FINALIZER})));
  }

  lemma ClientJoins(rules: Rules, s: State, m: Key, spec: RealmSpec, k: Key, client: ClientSpec)
    requires JustRealm(s, m, spec)
    ensures JustRealmAndClient(Apply(rules, s, User(CreateClient(k, client, {FINALIZER}))), m, spec, k, client)
  {
  }

  predicate JustRealmAndClient(s: State, m: Key, spec: RealmSpec, k: Key, client: ClientSpec) {
    && AllIdle(s.realmPCs)
    && s.store.realms.Keys == {m} && s.store.realms[m].spec == spec && s.store.realms[m].finalizers == {FINALIZER}
    && !s.store.realms[m].deleting && s.store.realms[m].status.mark == Ready(s.store.realms[m].generation)
    && s.store.clients.Keys == {k} && s.store.clients[k].spec == client && s.store.clients[k].finalizers == {FINALIZER}
    && s.store.clients[k].status == NEWCLIENT && !s.store.clients[k].deleting && s.clientPCs == map[]
    && s.store.server == Server(map[EffName(spec) := RealmRec(spec.displayName, spec.enabled, map[])], 1)
  }
}
