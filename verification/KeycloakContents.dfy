// What the two Keycloak reconcilers leave behind, field by field and in terms of
// the specification alone: under which names, with which settings, in which
// Secret, and what they report while they wait.
module KeycloakContents {
  import opened Kube
  import opened KeycloakServer
  import opened Machine
  import opened NoOrphan
  import opened Passes
  import opened Undisturbed

  // ---------- What a specification asks for ----------

  /** The realm is the one the specification names, or else the tenant's. */
  predicate RealmNamed(spec: RealmSpec, name: string) {
    (spec.realm != "" ==> name == spec.realm) && (spec.realm == "" ==> name == spec.tenantID)
  }

  /** The client id is the one given, or else the resource's name. */
  predicate ClientNamed(k: Key, spec: ClientSpec, c: string) {
    (spec.clientID != "" ==> c == spec.clientID) && (spec.clientID == "" ==> c == k.name)
  }

  /** The Secret lies in the tenant's namespace under the name given, or else a derived one. */
  predicate SecretNamed(k: Key, spec: ClientSpec, key: Key) {
    && key.namespace == spec.namespace
    && (spec.secretName != "" ==> key.name == spec.secretName)
    && (spec.secretName == "" ==> key.name == k.name + "-keycloak-client")
  }

  /** The pinned realm, or else the one the referenced resource names, or none. */
  predicate RealmKnown(st: Store, k: Key, r: string)
    requires k in st.clients
  {
    var kc := st.clients[k];
    var m := Key(k.namespace, kc.spec.realmRef);
    && (kc.status.realm != "" ==> r == kc.status.realm)
    && (kc.status.realm == "" && m in st.realms ==> RealmNamed(st.realms[m].spec, r))
    && (kc.status.realm == "" && m !in st.realms ==> r == "")
  }

  /** A client with every setting the specification gives. */
  predicate SetAs(rep: ClientRep, spec: ClientSpec) {
    && rep.publicClient == spec.isPublic
    && rep.serviceAccountsEnabled == spec.serviceAccounts
    && rep.redirectURIs == spec.redirectURIs
    && (rep.standardFlowEnabled <==> spec.redirectURIs != [])
  }

  /** The client of this resource is in realm r, under its own id, set as specified. */
  predicate StandsIn(server: Server, k: Key, spec: ClientSpec, r: string) {
    var c := if spec.clientID != "" then spec.clientID else k.name;
    && r in server.realms && c in server.realms[r].clients && server.realms[r].clients[c].clientID == c
    && SetAs(server.realms[r].clients[c], spec)
  }

  lemma GoodStands(server: Server, k: Key, spec: ClientSpec, r: string)
    requires WellFormed(server) && HasClient(server, r, EffClientID(k, spec))
    requires SameManaged(server.realms[r].clients[EffClientID(k, spec)], Desired(k, spec))
    ensures StandsIn(server, k, spec, r)
  {
    assert ClientsOK(server.realms[r].clients, server.nextID);
  }

  // ---------- Realms ----------

  /** The realm is there as specified, and the resource carries the finalizer and says so. */
  predicate RealmStands(st: Store, m: Key, name: string) {
    && m in st.realms && "platform.inari.io/finalizer" in st.realms[m].finalizers
    && name in st.server.realms
    && var cr, realm := st.realms[m], st.server.realms[name];
       && realm.displayName == cr.spec.displayName && realm.enabled == cr.spec.enabled
       && cr.status.realm == name && cr.status.observed == cr.generation && cr.status.mark == Ready(cr.generation)
  }

  /** Two passes or more over a live realm resource provide exactly that realm,
      with the clients it had; no other realm differs. */
  lemma {:induction false} RealmIsProvided(st: Store, m: Key, name: string, n: nat)
    requires m in st.realms && !st.realms[m].deleting && RealmNamed(st.realms[m].spec, name) && n >= 2
    ensures var end := RealmPasses(st, m, n);
      && RealmStands(end, m, name) && end.realms[m].spec == st.realms[m].spec
      && end.server.realms - {name} == st.server.realms - {name}
      && end.server.realms[name].clients == (if name in st.server.realms then st.server.realms[name].clients else map[])
      && end.clients == st.clients && end.secrets == st.secrets && end.realms - {m} == st.realms - {m}
  {
    RealmConverges(st, m, n);
  }

  /** A pass over a deleting realm resource removes exactly that realm, and the finalizer. */
  lemma RealmIsRemoved(st: Store, m: Key, name: string)
    requires m in st.realms && st.realms[m].deleting && "platform.inari.io/finalizer" in st.realms[m].finalizers
    requires RealmNamed(st.realms[m].spec, name)
    ensures var st' := RealmPass(st, m);
      && st'.server.realms == st.server.realms - {name} && st'.server.nextID == st.server.nextID
      && st'.clients == st.clients && st'.secrets == st.secrets && st'.realms - {m} == st.realms - {m}
      && (m in st'.realms <==> st.realms[m].finalizers != {"platform.inari.io/finalizer"})
      && (m in st'.realms ==> st'.realms[m].finalizers == st.realms[m].finalizers - {"platform.inari.io/finalizer"})
  {
    assert st.realms[m].finalizers - {FINALIZER} == {} <==> st.realms[m].finalizers == {FINALIZER};
  }

  // ---------- Clients ----------

  /** The client is in realm r as specified, and resource and Secret say so. */
  predicate ClientStands(st: Store, k: Key, r: string, c: string, key: Key) {
    && k in st.clients && "platform.inari.io/finalizer" in st.clients[k].finalizers
    && r in st.server.realms && c in st.server.realms[r].clients
    && var kc, rep := st.clients[k], st.server.realms[r].clients[c];
       && rep.clientID == c && SetAs(rep, kc.spec)
       && kc.status == ClientStatus(r, c, key.name, kc.generation, Ready(kc.generation))
       && SecretStands(st, kc.spec, r, c, key, rep.id)
  }

  /** The tenant's Secret names client and issuer, and has a confidential client's secret. */
  predicate SecretStands(st: Store, spec: ClientSpec, r: string, c: string, key: Key, id: nat) {
    && key in st.secrets && st.secrets[key].tenant == spec.tenantID
    && var data := st.secrets[key].data;
       && "client-id" in data && data["client-id"] == Text(c)
       && "issuer" in data && data["issuer"] == IssuerOf(r)
       && (!spec.isPublic ==> "client-secret" in data && data["client-secret"] == ClientSecret(SecretOf(id)))
  }

  lemma SettledStands(st: Store, k: Key, c: string, key: Key)
    requires ClientSettled(st, k) && ClientNamed(k, st.clients[k].spec, c) && SecretNamed(k, st.clients[k].spec, key)
    ensures ClientStands(st, k, st.clients[k].status.realm, c, key)
  {
    var kc := st.clients[k];
    var id := st.server.realms[kc.status.realm].clients[c].id;
    var data := SecretData(k, kc.spec, kc.status.realm, if kc.spec.isPublic then None else Some(SecretOf(id)));
    assert "client-id" in data && "issuer" in data && (!kc.spec.isPublic ==> "client-secret" in data);
  }

  /** Resources of both kinds that are there to stay, the client's referring to the realm's. */
  predicate LivePair(st: Store, m: Key, k: Key, name: string, c: string, key: Key) {
    && m in st.realms && !st.realms[m].deleting && RealmNamed(st.realms[m].spec, name) && name != ""
    && k in st.clients && !st.clients[k].deleting && m == Key(k.namespace, st.clients[k].spec.realmRef)
    && ClientNamed(k, st.clients[k].spec, c) && SecretNamed(k, st.clients[k].spec, key)
  }

  /** Provided where the client belongs: in the pinned realm if that exists, or
      unpinned in the one its resource refers to; or else the failure is reported. */
  predicate ProvidedIn(st: Store, end: Store, k: Key, name: string, c: string, key: Key)
    requires k in st.clients
  {
    var pin := st.clients[k].status.realm;
    && (pin == "" ==> ClientStands(end, k, name, c, key))
    && (pin != "" && (pin == name || pin in st.server.realms) ==> ClientStands(end, k, pin, c, key))
    && (pin != "" && pin != name && pin !in st.server.realms ==>
          k in end.clients && end.clients[k].status.mark == Failed(end.clients[k].generation))
  }

  lemma {:induction false} PassesProvide(st: Store, m: Key, k: Key, name: string, c: string, key: Key, n: nat)
    requires LivePair(st, m, k, name, c, key) && RealmSettled(st, m) && n >= 2
    ensures var end := ClientPasses(st, k, n);
      RealmSettled(end, m) && end.realms == st.realms && ProvidedIn(st, end, k, name, c, key)
  {
    var end := ClientPasses(st, k, n);
    ClientConverges(st, m, k, n);
    ClientPassesSpareOthers(st, k, n);
    if ClientSettled(end, k) { SettledStands(end, k, c, key); }
  }

  /** Two passes of each reconciler, or more, provide realm and client. */
  lemma {:induction false} ClientIsProvided(st: Store, m: Key, k: Key, name: string, c: string, key: Key, i: nat, n: nat)
    requires LivePair(st, m, k, name, c, key) && i >= 2 && n >= 2
    ensures var end := ClientPasses(RealmPasses(st, m, i), k, n);
      RealmStands(end, m, name) && ProvidedIn(st, end, k, name, c, key)
  {
    RealmConverges(st, m, i);
    PassesProvide(RealmPasses(st, m, i), m, k, name, c, key, n);
  }

  /** Everything but client c of realm r is the same on the two servers. */
  ghost predicate OnlyWithout(server: Server, server': Server, r: string, c: string) {
    && server'.nextID == server.nextID && server'.realms.Keys == server.realms.Keys
    && forall n | n in server.realms :: server'.realms[n] ==
         if n == r then server.realms[n].(clients := server.realms[n].clients - {c}) else server.realms[n]
  }

  /** A pass over a deleting client resource removes its client from the realm
      that is known, its Secret and its finalizer, and nothing else; if that realm
      is missing it does nothing and fails, if none is known it skips the client. */
  lemma ClientIsRemoved(st: Store, k: Key, r: string, c: string, key: Key)
    requires k in st.clients && st.clients[k].deleting && "platform.inari.io/finalizer" in st.clients[k].finalizers
    requires RealmKnown(st, k, r) && ClientNamed(k, st.clients[k].spec, c) && SecretNamed(k, st.clients[k].spec, key)
    ensures var st', kc := ClientPass(st, k), st.clients[k];
      && (r != "" && r !in st.server.realms ==> st' == st && PassResult(st, k) == Errored)
      && (r == "" || r in st.server.realms ==>
            && PassResult(st, k) == Finished
            && (if r == "" then st'.server == st.server else OnlyWithout(st.server, st'.server, r, c))
            && st'.secrets == st.secrets - {key} && st'.realms == st.realms && st'.clients - {k} == st.clients - {k}
            && (k in st'.clients <==> kc.finalizers != {"platform.inari.io/finalizer"})
            && (k in st'.clients ==> st'.clients[k].finalizers == kc.finalizers - {"platform.inari.io/finalizer"}))
  {
    var kc := st.clients[k];
    assert TeardownRealm(st, k) == r && EffClientID(k, kc.spec) == c && SecretKey(k, kc.spec) == key;
    assert kc.finalizers - {FINALIZER} == {} <==> kc.finalizers == {FINALIZER};
    if r in st.server.realms { DroppedIsWithout(st.server, r, c); }
  }

  lemma DroppedIsWithout(server: Server, r: string, c: string)
    requires r in server.realms
    ensures OnlyWithout(server, DroppedClient(server, r, c), r, c)
  {
    if c !in server.realms[r].clients { assert server.realms[r].clients - {c} == server.realms[r].clients; }
  }

  // ---------- Waiting ----------

  /** Only the mark of k differs. */
  predicate OnlyMarked(st: Store, st': Store, k: Key, mark: Mark) {
    && st'.server == st.server && st'.realms == st.realms && st'.secrets == st.secrets
    && k in st.clients && k in st'.clients && st'.clients - {k} == st.clients - {k}
    && st'.clients[k].(revision := 0) == st.clients[k].(revision := 0, status := st.clients[k].status.(mark := mark))
  }

  /** A live client whose realm is not there yet: without a realm resource it
      fails and comes back after 30 seconds, with one that is not Ready it waits
      and comes back after 15, and if the realm itself is missing it is an error. */
  lemma ClientWaits(st: Store, k: Key, r: string)
    requires k in st.clients && !st.clients[k].deleting && "platform.inari.io/finalizer" in st.clients[k].finalizers
    requires RealmKnown(st, k, r)
    ensures var st', kc, m := ClientPass(st, k), st.clients[k], Key(k.namespace, st.clients[k].spec.realmRef);
      var ready := kc.status.realm != "" || (m in st.realms && st.realms[m].status.mark.Ready?);
      && (r == "" ==> PassResult(st, k) == RequeueAfter(30) && OnlyMarked(st, st', k, Failed(kc.generation)))
      && (r != "" && !ready ==> PassResult(st, k) == RequeueAfter(15) && OnlyMarked(st, st', k, Reconciling(kc.generation)))
      && (r != "" && ready && r !in st.server.realms ==>
            PassResult(st, k) == Errored && OnlyMarked(st, st', k, Failed(kc.generation)))
      && (r != "" && ready && r in st.server.realms ==>
            && PassResult(st, k) == Finished && k in st'.clients
            && st'.clients[k].status.realm == r && st'.clients[k].status.mark == Ready(kc.generation))
  {
    assert TeardownRealm(st, k) == r && RefKey(k, st.clients[k].spec) == Key(k.namespace, st.clients[k].spec.realmRef);
  }

  /** Afterwards, a live realm resource with the finalizer has its realm. */
  ghost predicate RealmProvided(st: Store, st': Store, m: Key) {
    m in st.realms && !st.realms[m].deleting && "platform.inari.io/finalizer" in st.realms[m].finalizers ==>
      forall name | RealmNamed(st.realms[m].spec, name) :: RealmStands(st', m, name)
  }

  lemma RealmPassProvides(st: Store, m: Key)
    ensures RealmProvided(st, RealmPass(st, m), m)
  {
    if m in st.realms && !st.realms[m].deleting && FINALIZER in st.realms[m].finalizers { RealmPassSettles(st, m); }
  }

  /** The names that resource k asks for, and the realm that is known. */
  predicate Asks(st: Store, k: Key, r: string, c: string, key: Key)
    requires k in st.clients
  {
    RealmKnown(st, k, r) && ClientNamed(k, st.clients[k].spec, c) && SecretNamed(k, st.clients[k].spec, key)
  }

  /** Afterwards, a live client resource with the finalizer has its client in the realm that was known. */
  ghost predicate ClientProvided(st: Store, st': Store, k: Key) {
    k in st.clients && !st.clients[k].deleting && "platform.inari.io/finalizer" in st.clients[k].finalizers ==>
      forall r, c, key | Asks(st, k, r, c, key) :: ClientStands(st', k, r, c, key)
  }

  lemma FinishedPassProvides(st: Store, k: Key)
    requires PassResult(st, k).Finished?
    ensures ClientProvided(st, ClientPass(st, k), k)
  {
    if k in st.clients && !st.clients[k].deleting && FINALIZER in st.clients[k].finalizers {
      forall r, c, key | Asks(st, k, r, c, key) ensures ClientStands(ClientPass(st, k), k, r, c, key) {
        OnePassProvides(st, k, r, c, key);
      }
    }
  }

  lemma OnePassProvides(st: Store, k: Key, r: string, c: string, key: Key)
    requires k in st.clients && !st.clients[k].deleting && "platform.inari.io/finalizer" in st.clients[k].finalizers
    requires Asks(st, k, r, c, key) && PassResult(st, k).Finished?
    ensures ClientStands(ClientPass(st, k), k, r, c, key)
  {
    ClientWaits(st, k, r);
    assert TeardownRealm(st, k) == r && RefKey(k, st.clients[k].spec) == Key(k.namespace, st.clients[k].spec.realmRef);
    ProvisioningSettles(st, k, r);
    SettledStands(ClientPass(st, k), k, c, key);
  }

  // ---------- In the tenant's name ----------

  /** A worker comes to write or delete the tenant's Secret only from an answered
      call that takes on the specified service account. */
  lemma SecretsAreWrittenAsTenant(s: State, k: Key, fault: Fault, pick: Pick)
    requires var pc' := CPC(StepClient(s, k, fault, pick), k); pc'.CPutSecret? || pc'.CDelSecret?
    ensures var pc, pc' := CPC(s, k), CPC(StepClient(s, k, fault, pick), k);
      && HasKC(pc) && pc.kc == pc'.kc && ClientCall(k, pc) == Impersonate(pc'.kc.spec.serviceAccount)
      && (pc'.kc.spec.serviceAccount == "" || fault.Fine?)
  {
  }

  // ---------- Failures ----------

  /** If any call of the provisioning stretch fails on the way or on the way back,
      the worker's next call records the failure for the generation it read, and
      nothing else of the status. */
  lemma ClientFailuresAreReported(s: State, k: Key, fault: Fault, pick: Pick)
    requires var pc := CPC(s, k);
      pc.CFind? || pc.CPost? || pc.CFindAgain? || pc.CPut? || pc.CGetSecret? || pc.CPutSecret?
    requires !fault.Fine?
    ensures var kc, pc' := CPC(s, k).kc, CPC(StepClient(s, k, fault, pick), k);
      && !pc'.CIdle?
      && ClientCall(k, pc') == StatusClientCR(k, kc.(status := kc.status.(mark := Failed(kc.generation))))
  {
  }

  lemma RealmFailuresAreReported(s: State, m: Key, fault: Fault, pick: Pick)
    requires RPC(s, m).RGetRealm? || RPC(s, m).RPostRealm? || RPC(s, m).RPutRealm?
    requires !fault.Fine?
    ensures var cr, pc' := RPC(s, m).cr, RPC(StepRealm(s, m, fault, pick), m);
      && !pc'.RIdle?
      && RealmCall(m, pc') == StatusRealmCR(m, cr.(status := cr.status.(mark := Failed(cr.generation))))
  {
  }

  /** A teardown stops at the first call that fails; the resource stays as it is. */
  lemma TeardownStopsAtFailure(s: State, k: Key, fault: Fault, pick: Pick)
    requires var pc := CPC(s, k); pc.CDelFind? || pc.CDelClient? || pc.CDelSecret?
    requires !fault.Fine?
    ensures var s' := StepClient(s, k, fault, pick); CPC(s', k).CIdle? && s'.store.clients == s.store.clients
  {
  }

  /** So it does if the client has gone since it was looked up: the answer to the
      delete is a 404, and that is a failure. */
  lemma VanishedClientStopsTeardown(s: State, k: Key, pick: Pick)
    requires CPC(s, k).CDelClient?
    requires var pc := CPC(s, k);
      pc.realm in s.store.server.realms ==>
        forall c | c in s.store.server.realms[pc.realm].clients :: s.store.server.realms[pc.realm].clients[c].id != pc.id
    ensures var s' := StepClient(s, k, Fine, pick); s'.store == s.store && CPC(s', k).CIdle?
  {
  }
}
