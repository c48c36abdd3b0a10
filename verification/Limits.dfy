// Where the guarantees stop: runs that break them once an assumption is
// dropped, for any names.
module Limits {
  import opened Kube
  import opened KeycloakServer
  import opened Machine
  import opened ClientTruth
  import opened NoOrphan
  import opened Passes
  import opened Pinning
  import opened Readiness
  import opened Steps

  // ---------- Names edited in place ----------

  lemma JustRenamed(m: Key, spec: RealmSpec, renamed: RealmSpec) returns (s: State)
    requires Named(spec) && Named(renamed) && EffName(spec) != EffName(renamed)
    ensures Reachable(RENAMING, s)
    ensures
      && s.store.realms.Keys == {m} && s.store.realms[m].spec == renamed && s.store.realms[m].status.mark.Ready?
      && s.store.realms[m].status.mark.generation < s.store.realms[m].generation
      && Awaiting(s, m) && s.store.server.realms.Keys == {EffName(spec)}
      && s.store.clients == map[] && s.clientPCs == map[]
  {
    s := RealmFromNothing(RENAMING, m, spec);
    RealmIsRenamed(s, m, spec, renamed);
    s := Go(RENAMING, s, User(EditRealm(m, renamed)));
  }

  lemma RealmIsRenamed(s: State, m: Key, spec: RealmSpec, renamed: RealmSpec)
    requires JustRealm(s, m, spec) && Named(spec) && Named(renamed) && EffName(spec) != EffName(renamed)
    ensures var s' := Apply(RENAMING, s, User(EditRealm(m, renamed)));
      && s'.store.realms.Keys == {m} && s'.store.realms[m].status == s.store.realms[m].status
      && s'.store.realms[m].spec == renamed && s'.store.realms[m].generation == s.store.realms[m].generation + 1
      && Awaiting(s', m) && s'.store.server == s.store.server
      && s'.store.clients == map[] && s'.clientPCs == map[]
  {
  }

  /** Renaming a realm resource in place leaves the old realm in Keycloak with no
      resource that names it, and reconciling the renamed one does not help. */
  lemma RenamedRealmIsOrphaned(m: Key, spec: RealmSpec, renamed: RealmSpec) returns (s: State)
    requires Named(spec) && Named(renamed) && EffName(spec) != EffName(renamed)
    ensures Reachable(RENAMING, s) && s.store.realms.Keys == {m} && RealmSettled(s.store, m)
    ensures s.store.server.realms.Keys == {EffName(spec), EffName(renamed)} && !Covered(s.store)
  {
    s := JustRenamed(m, spec, renamed);
    RealmPassSettles(s.store, m);
    s := RealmIsCreated(RENAMING, s, m);
    assert EffName(spec) in s.store.server.realms;
  }

  /** The readiness gate looks at the condition, not at the generation it was
      stamped with: right after a rename, a client is sent into a realm that
      nobody has created. */
  lemma StaleReadyPassesTheGate(m: Key, spec: RealmSpec, renamed: RealmSpec, k: Key, client: ClientSpec) returns (s: State)
    requires Named(spec) && Named(renamed) && EffName(spec) != EffName(renamed) && RefKey(k, client) == m
    ensures Reachable(RENAMING, s)
    ensures CPC(s, k).CFind? && CPC(s, k).realm == EffName(renamed) && EffName(renamed) !in s.store.server.realms
  {
    s := JustRenamed(m, spec, renamed);
    s := Go(RENAMING, s, User(CreateClient(k, client, {FINALIZER})));
    s := ClientResolves(RENAMING, s, k);
  }

  // ---------- The readiness gate ----------

  /** Nor does it look whether the realm resource is being deleted: with names
      fixed and nothing stripped, a client is sent into a realm that its worker
      has already deleted. */
  lemma DeletingRealmPassesTheGate(rules: Rules, m: Key, spec: RealmSpec, k: Key, client: ClientSpec) returns (s: State)
    requires Named(spec) && RefKey(k, client) == m
    ensures Reachable(rules, s)
    ensures CPC(s, k).CFind? && CPC(s, k).realm == EffName(spec) && EffName(spec) !in s.store.server.realms
    ensures m in s.store.realms && s.store.realms[m].deleting && s.store.realms[m].spec == spec && s.store.realms[m].generation > 0
    ensures s.store.realms[m].status.mark == Ready(s.store.realms[m].generation - 1)
  {
    s := RealmAndClient(rules, m, spec, k, client);
    RealmIsMarkedDeleted(rules, s, m);
    s := Go(rules, s, User(DeleteRealmCR(m)));
    s := RealmIsDeleted(rules, s, m);
    s := ClientResolves(rules, s, k);
  }

  /** A guard on the deletion mark and on the generation of a Ready realm
      resource is safe if the realm exists whenever the guard lets it through. */
  ghost predicate Safe(deleting: bool, current: bool) {
    forall s, m | Reachable(RENAMING, s) && LetThrough(s, m, deleting, current) :: EffName(s.store.realms[m].spec) in s.store.server.realms
  }

  predicate LetThrough(s: State, m: Key, deleting: bool, current: bool) {
    && m in s.store.realms && s.store.realms[m].status.mark.Ready? && s.store.realms[m].deleting == deleting
    && (s.store.realms[m].status.mark.generation == s.store.realms[m].generation) == current
  }

  /** A guard on the generation alone is safe, whatever the deletion mark; and
      without it none is. */
  lemma SafeGuard(deleting: bool, current: bool)
    ensures Safe(deleting, current) <==> current
  {
    if current {
      forall s, n | Reachable(RENAMING, s) && LetThrough(s, n, deleting, current)
        ensures EffName(s.store.realms[n].spec) in s.store.server.realms {
        ReadyRealmsExist(RENAMING, s, n);
      }
    } else {
      var m := Key("n", "m");
      var s := JustRenamed(m, RealmSpec("a", "t", "", true), RealmSpec("b", "t", "", true));
      if deleting { s := Go(RENAMING, s, User(DeleteRealmCR(m))); }
      assert LetThrough(s, m, deleting, current);
    }
  }

  // ---------- Teardown after the realm ----------

  /** Provision and pin, delete the realm resource to the end, delete the client
      resource: with nothing out of the ordinary, its teardown is wedged. */
  lemma TeardownGetsWedged(m: Key, spec: RealmSpec, k: Key, client: ClientSpec) returns (s: State)
    requires Named(spec) && RefKey(k, client) == m
    ensures Reachable(STRICT, s) && Wedged(s, k) && s.store.clients[k].spec == client
  {
    s := PairFromNothing(STRICT, m, spec, k, client);
    s := RealmThenClientDeleted(s, m, k);
  }

  lemma ThenPinned(rules: Rules, s: State, k: Key, kc: ClientCR, realm: string) returns (s': State)
    requires Reachable(rules, s) && CPC(s, k) == CFind(kc, realm) && k in s.store.clients && s.store.clients[k] == kc && !kc.deleting
    requires realm in s.store.server.realms && s.store.server.realms[realm].clients == map[] && WellFormed(s.store.server)
    ensures Reachable(rules, s') && k in s'.store.clients && s'.store.clients[k].status.realm == realm && CPC(s', k).CIdle?
    ensures s'.store.clients[k].status.mark == Ready(s'.store.clients[k].generation)
    ensures s'.store.clients[k].spec == kc.spec && !s'.store.clients[k].deleting && s'.store.clients.Keys == s.store.clients.Keys
    ensures s'.store.clients[k].finalizers == kc.finalizers
    ensures s'.store.realms == s.store.realms && s'.realmPCs == s.realmPCs && s'.store.server.realms.Keys == s.store.server.realms.Keys
    ensures HasClient(s'.store.server, realm, EffClientID(k, kc.spec))
  {
    s' := ClientIsCreated(rules, s, k, kc, realm);
    var secret;
    s', secret := ClientIsFetched(rules, s', k, kc, realm);
    s' := ClientIsPublished(rules, s', k, kc, realm, secret);
  }

  /** A provisioned pair: realm and client resources, both Ready. */
  predicate Pair(s: State, m: Key, spec: RealmSpec, k: Key, client: ClientSpec) {
    && s.store.realms.Keys == {m} && s.store.realms[m].spec == spec && s.store.realms[m].finalizers == {FINALIZER}
    && !s.store.realms[m].deleting && s.store.realms[m].status.mark.Ready? && RPC(s, m).RIdle?
    && s.store.clients.Keys == {k} && SaysReady(s.store, k) && CPC(s, k).CIdle?
    && s.store.clients[k].spec == client && s.store.clients[k].status.realm == EffName(spec)
    && s.store.clients[k].finalizers == {FINALIZER} && !s.store.clients[k].deleting
    && s.store.server.realms.Keys == {EffName(spec)} && HasClient(s.store.server, EffName(spec), EffClientID(k, client))
  }

  lemma PairFromNothing(rules: Rules, m: Key, spec: RealmSpec, k: Key, client: ClientSpec) returns (s: State)
    requires Named(spec) && RefKey(k, client) == m
    ensures Reachable(rules, s) && Pair(s, m, spec, k, client)
  {
    s := RealmAndClient(rules, m, spec, k, client);
    var kc := s.store.clients[k];
    s := ClientResolves(rules, s, k);
    s := ThenPinned(rules, s, k, kc, EffName(spec));
  }

  lemma RealmThenClientDeleted(s: State, m: Key, k: Key) returns (s': State)
    requires Reachable(STRICT, s) && s.store.realms.Keys == {m} && s.store.realms[m].finalizers == {FINALIZER}
    requires !s.store.realms[m].deleting && RPC(s, m).RIdle? && EffName(s.store.realms[m].spec) in s.store.server.realms
    requires k in s.store.clients && RefKey(k, s.store.clients[k].spec) == m && s.store.clients[k].status.realm != ""
    requires !s.store.clients[k].deleting && FINALIZER in s.store.clients[k].finalizers && CPC(s, k).CIdle?
    ensures Reachable(STRICT, s') && Wedged(s', k) && s'.store.clients[k].spec == s.store.clients[k].spec
  {
    RealmIsMarkedDeleted(STRICT, s, m);
    s' := Go(STRICT, s, User(DeleteRealmCR(m)));
    s' := RealmGoes(STRICT, s', m);
    ClientIsMarkedDeleted(STRICT, s', k);
    s' := Go(STRICT, s', User(DeleteClientCR(k)));
  }

  // ---------- A realm that comes back ----------

  /** Deleting a realm resource to the end and creating it again, with the same
      specification, leaves a client that is Ready at its generation, in a realm
      that exists and is Ready too, without its client. */
  lemma RecreatedRealmHasLostItsClient(m: Key, spec: RealmSpec, k: Key, client: ClientSpec) returns (s: State)
    requires Named(spec) && RefKey(k, client) == m
    ensures Reachable(STRICT, s) && RealmSettled(s.store, m) && s.store.realms[m].spec == spec
    ensures SaysReady(s.store, k) && s.store.clients[k].spec == client && s.store.clients[k].status.realm == EffName(spec)
    ensures !HasClient(s.store.server, EffName(spec), EffClientID(k, client))
  {
    s := PairFromNothing(STRICT, m, spec, k, client);
    ReachableInv(STRICT, s);
    assert RealmOK(s, m);
    s := RealmIsRemoved(s, m);
    RealmReturns(s, m, spec);
    s := Go(STRICT, s, User(CreateRealm(m, spec, {FINALIZER})));
    RealmPassSettles(s.store, m);
    s := RealmIsCreated(STRICT, s, m);
  }

  lemma RealmIsRemoved(s: State, m: Key) returns (s': State)
    requires Reachable(STRICT, s) && s.store.realms.Keys == {m} && s.store.realms[m].finalizers == {FINALIZER}
    requires !s.store.realms[m].deleting && RPC(s, m).RIdle? && EffName(s.store.realms[m].spec) in s.store.server.realms
    ensures Reachable(STRICT, s') && s'.store.realms == map[] && RPC(s', m).RIdle? && s'.realmOwner == s.realmOwner
    ensures s'.store.clients == s.store.clients && EffName(s.store.realms[m].spec) !in s'.store.server.realms
  {
    RealmIsMarkedDeleted(STRICT, s, m);
    s' := Go(STRICT, s, User(DeleteRealmCR(m)));
    s' := RealmGoes(STRICT, s', m);
  }

  lemma RealmReturns(s: State, m: Key, spec: RealmSpec)
    requires Named(spec) && s.store.realms == map[] && RPC(s, m).RIdle? && Owns(s, m, EffName(spec))
    requires EffName(spec) !in s.store.server.realms
    ensures var s' := Apply(STRICT, s, User(CreateRealm(m, spec, {FINALIZER})));
      && Awaiting(s', m) && s'.store.realms[m].spec == spec && s'.store.clients == s.store.clients && s'.store.server == s.store.server
  {
  }

  // ---------- Two resources for one client ----------

  /** A client resource created for the client of another one, with other
      settings: once its worker has acted, the first resource is still Ready at
      its generation, and its client has the settings of the second. */
  lemma SharedClientIsOverwritten(m: Key, spec: RealmSpec, k: Key, client: ClientSpec, other: Key, wants: ClientSpec) returns (s: State)
    requires Named(spec) && RefKey(k, client) == m == RefKey(other, wants) && other != k
    requires EffClientID(other, wants) == EffClientID(k, client) && !SameManaged(Desired(other, wants), Desired(k, client))
    ensures Reachable(REUSING, s) && EffName(spec) in s.store.server.realms
    ensures SaysReady(s.store, k) && s.store.clients[k].spec == client && s.store.clients[k].status.realm == EffName(spec)
    ensures !Good(s.store.server, k, client, EffName(spec))
  {
    s := PairFromNothing(REUSING, m, spec, k, client);
    s := SecondJoins(s, m, spec, k, client, other, wants);
    var r, c, kc := EffName(spec), EffClientID(k, client), s.store.clients[other];
    s := ClientResolves(REUSING, s, other);
    var run :| s == Exec(REUSING, START, run);
    ServerStaysWellFormed(REUSING, run);
    if !SameManaged(s.store.server.realms[r].clients[c], Desired(other, wants)) {
      var id := s.store.server.realms[r].clients[c].id;
      ClientIsDrifted(REUSING, s, other, kc, r);
      s := Go(REUSING, s, ClientGo(other));
      ClientIsPut(REUSING, s, other, kc, r, id);
      s := Go(REUSING, s, ClientGo(other));
    }
  }

  lemma SecondJoins(s: State, m: Key, spec: RealmSpec, k: Key, client: ClientSpec, other: Key, wants: ClientSpec) returns (s': State)
    requires Reachable(REUSING, s) && Pair(s, m, spec, k, client) && other != k
    ensures Reachable(REUSING, s') && s'.store.server == s.store.server && s'.store.realms == s.store.realms
    ensures k in s'.store.clients && s'.store.clients[k] == s.store.clients[k]
    ensures other in s'.store.clients && CPC(s', other).CIdle? && s'.store.clients[other].spec == wants
    ensures s'.store.clients[other].finalizers == {FINALIZER} && s'.store.clients[other].status == NEWCLIENT && !s'.store.clients[other].deleting
  {
    ClientCrashes(REUSING, s, other);
    s' := Go(REUSING, s, ClientCrash(other));
    SecondIsCreated(s', k, other, wants);
    s' := Go(REUSING, s', User(CreateClient(other, wants, {FINALIZER})));
  }

  lemma SecondIsCreated(s: State, k: Key, other: Key, wants: ClientSpec)
    requires s.store.clients.Keys == {k} && other != k && CPC(s, other).CIdle?
    ensures var s' := Apply(REUSING, s, User(CreateClient(other, wants, {FINALIZER})));
      && s'.store.server == s.store.server && s'.store.realms == s.store.realms && CPC(s', other).CIdle?
      && k in s'.store.clients && s'.store.clients[k] == s.store.clients[k] && other in s'.store.clients
      && s'.store.clients[other] == ClientCR(s.store.revision + 1, 1, false, {FINALIZER}, wants, NEWCLIENT)
  {
  }

  // ---------- Clients whose names are edited in place ----------

  /** Editing the client id of a provisioned client in place leaves a client in
      Keycloak that no resource answers for. */
  lemma EditedClientIDOrphansClient(m: Key, spec: RealmSpec, k: Key, client: ClientSpec, edited: ClientSpec) returns (s: State)
    requires Named(spec) && RefKey(k, client) == m && EffClientID(k, edited) != EffClientID(k, client)
    ensures Reachable(REUSING, s) && s.store.clients.Keys == {k} && s.store.clients[k].spec == edited && !s.store.clients[k].deleting
    ensures HasClient(s.store.server, EffName(spec), EffClientID(k, client)) && !Covered(s.store)
  {
    s := PairFromNothing(REUSING, m, spec, k, client);
    ClientIsEdited(s, k, edited);
    s := Go(REUSING, s, User(EditClient(k, edited)));
    WrongID(s.store, k, EffName(spec), EffClientID(k, client));
  }

  lemma ClientIsEdited(s: State, k: Key, edited: ClientSpec)
    requires s.store.clients.Keys == {k} && !s.store.clients[k].deleting
    ensures var s' := Apply(REUSING, s, User(EditClient(k, edited)));
      && s'.store.clients.Keys == {k} && s'.store.clients[k].spec == edited && s'.store.clients[k].status == s.store.clients[k].status
      && !s'.store.clients[k].deleting && s'.store.realms == s.store.realms && s'.store.server == s.store.server
  {
  }

  lemma WrongID(st: Store, k: Key, r: string, c: string)
    requires HasClient(st.server, r, c) && st.clients.Keys == {k} && EffClientID(k, st.clients[k].spec) != c
    ensures !Covered(st)
  {
    assert forall n :: !Answers(st, n, r, c);
  }

  /** So does editing the realm reference after the client has been created, but
      before status.realm is written, to a resource that is not there. */
  lemma EditedRealmRefOrphansClient(m: Key, spec: RealmSpec, k: Key, client: ClientSpec, edited: ClientSpec) returns (s: State)
    requires Named(spec) && RefKey(k, client) == m != RefKey(k, edited)
    ensures Reachable(REUSING, s) && s.store.clients.Keys == {k} && s.store.clients[k].spec == edited && !s.store.clients[k].deleting
    ensures HasClient(s.store.server, EffName(spec), EffClientID(k, client)) && !Covered(s.store)
  {
    s := ClientFromNothing(REUSING, m, spec, k, client);
    ClientIsEdited(s, k, edited);
    s := Go(REUSING, s, User(EditClient(k, edited)));
    NobodyAnswers(s.store, k, EffName(spec), EffClientID(k, client));
  }

  // ---------- A realm name that changes hands too early ----------

  /** A new client's worker is about to create it. */
  predicate AboutToPost(s: State, k: Key, kc: ClientCR, realm: string) {
    && s.store.clients == map[k := kc] && !kc.deleting && kc.status.realm == "" && CPC(s, k) == CPost(kc, realm)
  }

  lemma ClientAboutToPost(m: Key, spec: RealmSpec, k: Key, client: ClientSpec) returns (s: State, kc: ClientCR)
    requires Named(spec) && RefKey(k, client) == m
    ensures Reachable(REUSING, s) && AboutToPost(s, k, kc, EffName(spec)) && kc.spec == client && OnlyRealmLeft(s, m, spec)
  {
    s := RealmAndClient(REUSING, m, spec, k, client);
    kc := s.store.clients[k];
    assert OnlyRealmLeft(s, m, spec) && s.store.clients == map[k := kc];
    s := ClientResolves(REUSING, s, k);
    assert CPC(s, k) == CFind(kc, EffName(spec));
    ClientIsMissed(REUSING, s, k, kc, EffName(spec));
    s := Go(REUSING, s, ClientGo(k));
  }

  predicate OnlyRealmLeft(s: State, m: Key, spec: RealmSpec) {
    && s.store.realms.Keys == {m} && s.store.realms[m].spec == spec && s.store.realms[m].finalizers == {FINALIZER}
    && !s.store.realms[m].deleting && AllIdle(s.realmPCs) && s.store.server.realms.Keys == {EffName(spec)}
  }

  /** A realm name taken over while a client still refers to the old owner: its
      worker, about to create the client, does so in the new owner's realm, where
      nothing answers for it. No specification is edited. */
  lemma HandoverOrphansClient(m: Key, spec: RealmSpec, k: Key, client: ClientSpec, other: Key) returns (s: State)
    requires Named(spec) && RefKey(k, client) == m != other
    ensures Reachable(REUSING, s) && s.store.realms.Keys == {other} && s.store.clients.Keys == {k}
    ensures s.store.realms[other].spec == spec && s.store.clients[k].spec == client && !s.store.clients[k].deleting
    ensures HasClient(s.store.server, EffName(spec), EffClientID(k, client)) && !Covered(s.store)
  {
    var kc;
    s, kc := ClientAboutToPost(m, spec, k, client);
    s := ThenRealmGone(s, m, spec, k, kc);
    s := ThenTakenOver(s, other, spec, k, kc);
    s := ThenPosted(s, k, kc, EffName(spec), other);
  }

  /** The worker creates the client where no resource answers for it. */
  lemma ThenPosted(s: State, k: Key, kc: ClientCR, realm: string, other: Key) returns (s': State)
    requires Reachable(REUSING, s) && AboutToPost(s, k, kc, realm)
    requires s.store.realms.Keys == {other} && RefKey(k, kc.spec) != other
    requires realm != "" && realm in s.store.server.realms && s.store.server.realms[realm].clients == map[]
    ensures Reachable(REUSING, s') && s'.store.realms == s.store.realms && s'.store.clients == s.store.clients
    ensures HasClient(s'.store.server, realm, EffClientID(k, kc.spec)) && !Covered(s'.store)
  {
    ClientIsPosted(REUSING, s, k, kc, realm);
    s' := Go(REUSING, s, ClientGo(k));
    NobodyAnswers(s'.store, k, realm, EffClientID(k, kc.spec));
  }

  lemma NobodyAnswers(st: Store, k: Key, r: string, c: string)
    requires r != "" && HasClient(st.server, r, c)
    requires st.clients.Keys == {k} && st.clients[k].status.realm == "" && RefKey(k, st.clients[k].spec) !in st.realms
    ensures !Covered(st)
  {
    assert TeardownRealm(st, k) == "";
  }

  /** The first resource goes, with its realm. */
  lemma ThenRealmGone(s: State, m: Key, spec: RealmSpec, k: Key, kc: ClientCR) returns (s': State)
    requires Reachable(REUSING, s) && OnlyRealmLeft(s, m, spec) && AboutToPost(s, k, kc, EffName(spec))
    ensures Reachable(REUSING, s') && s'.store.realms == map[] && s'.store.server.realms == map[] && AllIdle(s'.realmPCs)
    ensures AboutToPost(s', k, kc, EffName(spec))
  {
    RealmIsMarkedDeleted(REUSING, s, m);
    var marked := Go(REUSING, s, User(DeleteRealmCR(m)));
    s' := RealmGoes(REUSING, marked, m);
    StillIdle(marked, s', m);
  }

  /** Another one of the same name is provisioned. */
  lemma ThenTakenOver(s: State, other: Key, spec: RealmSpec, k: Key, kc: ClientCR) returns (s': State)
    requires Reachable(REUSING, s) && Named(spec) && AboutToPost(s, k, kc, EffName(spec))
    requires s.store.realms == map[] && s.store.server.realms == map[] && AllIdle(s.realmPCs)
    ensures Reachable(REUSING, s') && AboutToPost(s', k, kc, EffName(spec))
    ensures s'.store.realms.Keys == {other} && s'.store.realms[other].spec == spec
    ensures EffName(spec) in s'.store.server.realms && s'.store.server.realms[EffName(spec)].clients == map[]
  {
    TakenOver(s, other, spec);
    s' := Go(REUSING, s, User(CreateRealm(other, spec, {FINALIZER})));
    s' := RealmIsCreated(REUSING, s', other);
  }

  lemma TakenOver(s: State, other: Key, spec: RealmSpec)
    requires Named(spec) && s.store.realms == map[] && s.store.server.realms == map[] && AllIdle(s.realmPCs)
    ensures var s' := Apply(REUSING, s, User(CreateRealm(other, spec, {FINALIZER})));
      && Awaiting(s', other) && s'.store.realms.Keys == {other} && s'.store.realms[other].spec == spec
      && s'.store.server == s.store.server && s'.store.clients == s.store.clients && s'.clientPCs == s.clientPCs
  {
  }

  // ---------- Finalizers stripped ----------

  predicate JustPosted(s: State, m: Key, spec: RealmSpec, k: Key, client: ClientSpec) {
    && s.store.realms.Keys == {m} && s.store.realms[m].finalizers == {FINALIZER} && !s.store.realms[m].deleting
    && s.store.clients.Keys == {k} && CPC(s, k).CIdle?
    && s.store.clients[k].spec == client && s.store.clients[k].finalizers == {FINALIZER}
    && s.store.clients[k].status == NEWCLIENT && !s.store.clients[k].deleting
    && HasClient(s.store.server, EffName(spec), EffClientID(k, client))
  }

  lemma ClientFromNothing(rules: Rules, m: Key, spec: RealmSpec, k: Key, client: ClientSpec) returns (s: State)
    requires Named(spec) && RefKey(k, client) == m
    ensures Reachable(rules, s) && JustPosted(s, m, spec, k, client)
  {
    s := RealmAndClient(rules, m, spec, k, client);
    var kc := s.store.clients[k];
    s := ClientResolves(rules, s, k);
    s := ClientIsCreated(rules, s, k, kc, EffName(spec));
    ClientCrashes(rules, s, k);
    s := Go(rules, s, ClientCrash(k));
  }

  predicate Forgotten(st: Store, k: Key) {
    && k in st.clients && st.clients[k].deleting && st.clients[k].finalizers == {FINALIZER}
    && st.clients[k].status.realm == "" && RefKey(k, st.clients[k].spec) !in st.realms
  }

  lemma NothingToDelete(rules: Rules, s: State, k: Key, kc: ClientCR)
    requires CPC(s, k) == CDelImpersonate(kc, "")
    ensures var s' := Apply(rules, s, ClientGo(k)); s'.store == s.store && SameBesidesClients(s, s', k, CDelSecret(kc, ""))
  {
  }

  lemma SecretIsDeleted(rules: Rules, s: State, k: Key, kc: ClientCR)
    requires CPC(s, k) == CDelSecret(kc, "")
    ensures var s' := Apply(rules, s, ClientGo(k));
      s'.store == s.store.(secrets := s'.store.secrets) && SameBesidesClients(s, s', k, CDropFinalizer(kc, ""))
  {
  }

  lemma ResourceGoes(rules: Rules, s: State, k: Key, kc: ClientCR)
    requires CPC(s, k) == CDropFinalizer(kc, "") && Forgotten(s.store, k) && s.store.clients[k] == kc
    ensures var st' := Apply(rules, s, ClientGo(k)).store;
      st'.clients == s.store.clients - {k} && st'.realms == s.store.realms && st'.server == s.store.server
  {
    assert {FINALIZER} - {FINALIZER} == {};
  }

  /** Six steps tear down a client resource that knows no realm. */
  lemma UnknownRealmTeardown(rules: Rules, s: State, k: Key) returns (s': State)
    requires Reachable(rules, s) && Forgotten(s.store, k) && CPC(s, k).CIdle?
    ensures Reachable(rules, s')
    ensures s'.store.clients == s.store.clients - {k} && s'.store.realms == s.store.realms && s'.store.server == s.store.server
  {
    var kc := s.store.clients[k];
    s' := ClientResolves(rules, s, k);
    NothingToDelete(rules, s', k, kc);
    s' := Go(rules, s', ClientGo(k));
    SecretIsDeleted(rules, s', k, kc);
    s' := Go(rules, s', ClientGo(k));
    ResourceGoes(rules, s', k, kc);
    s' := Go(rules, s', ClientGo(k));
  }

  predicate SameBesidesStoredRealms(s: State, s': State) {
    && s'.clientPCs == s.clientPCs && s'.store.clients == s.store.clients && s'.store.server == s.store.server
  }

  lemma FinalizerStripped(s: State, m: Key)
    requires s.store.realms.Keys == {m} && s.store.realms[m].finalizers == {FINALIZER} && !s.store.realms[m].deleting
    ensures var s' := Apply(STRIPPING, s, User(FinalizersRealm(m, {})));
      s'.store.realms.Keys == {m} && s'.store.realms[m].finalizers == {} && !s'.store.realms[m].deleting && SameBesidesStoredRealms(s, s')
  {
  }

  lemma RealmGone(s: State, m: Key)
    requires s.store.realms.Keys == {m} && s.store.realms[m].finalizers == {} && !s.store.realms[m].deleting
    ensures var s' := Apply(STRIPPING, s, User(DeleteRealmCR(m)));
      s'.store.realms == map[] && SameBesidesStoredRealms(s, s')
  {
  }

  lemma ClientForgotten(s: State, k: Key)
    requires s.store.realms == map[] && s.store.clients.Keys == {k} && !s.store.clients[k].deleting
    requires s.store.clients[k].finalizers == {FINALIZER} && s.store.clients[k].status.realm == ""
    ensures var s' := Apply(STRIPPING, s, User(DeleteClientCR(k)));
      && s'.store.realms == map[] && s'.store.clients.Keys == {k} && Forgotten(s'.store, k)
      && s'.store.server == s.store.server && s'.clientPCs == s.clientPCs
      && s'.store.clients[k].spec == s.store.clients[k].spec
  {
  }

  /** The realm's finalizer stripped, both resources deleted. */
  lemma ThenAbandoned(s: State, m: Key, spec: RealmSpec, k: Key, client: ClientSpec) returns (s': State)
    requires Reachable(STRIPPING, s) && JustPosted(s, m, spec, k, client) && RefKey(k, client) == m
    ensures Reachable(STRIPPING, s') && s'.store.realms == map[] && s'.store.clients.Keys == {k}
    ensures Forgotten(s'.store, k) && CPC(s', k).CIdle? && s'.store.server == s.store.server
  {
    FinalizerStripped(s, m);
    s' := Go(STRIPPING, s, User(FinalizersRealm(m, {})));
    RealmGone(s', m);
    s' := Go(STRIPPING, s', User(DeleteRealmCR(m)));
    ClientForgotten(s', k);
    s' := Go(STRIPPING, s', User(DeleteClientCR(k)));
  }

  /** With the realm's finalizer stripped, a client whose status was never
      written is forgotten: its resource goes, the client stays in Keycloak. */
  lemma StrippedRealmOrphansUnpinnedClient(m: Key, spec: RealmSpec, k: Key, client: ClientSpec) returns (s: State)
    requires Named(spec) && RefKey(k, client) == m
    ensures Reachable(STRIPPING, s) && s.store.realms == map[] && s.store.clients == map[]
    ensures HasClient(s.store.server, EffName(spec), EffClientID(k, client)) && !Covered(s.store)
  {
    s := ClientFromNothing(STRIPPING, m, spec, k, client);
    s := ThenAbandoned(s, m, spec, k, client);
    s := UnknownRealmTeardown(STRIPPING, s, k);
    assert EffName(spec) in s.store.server.realms;
  }
}
