// One undisturbed reconcile as a single step on the store, and what it means:
// when a teardown completes, when the resources converge, and that a settled
// resource is left exactly as it is.
module Passes {
  import opened Kube
  import opened KeycloakServer
  import opened Machine
  import opened NoOrphan

  /** The server with the realm's managed fields as wanted. */
  function EnsuredRealm(server: Server, rep: RealmRep): Server {
    var clients := if rep.realm in server.realms then server.realms[rep.realm].clients else map[];
    server.(realms := server.realms[rep.realm := RealmRec(rep.displayName, rep.enabled, clients)])
  }

  /** The server with the client's managed fields as wanted; an existing client keeps its id. */
  function EnsuredClient(server: Server, realm: string, rep: ClientRep): Server
    requires realm in server.realms
  {
    var clients := server.realms[realm].clients;
    if rep.clientID in clients then
      SetClients(server, realm, clients[rep.clientID := rep.(id := clients[rep.clientID].id)])
    else
      SetClients(server, realm, clients[rep.clientID := rep.(id := server.nextID)]).(nextID := server.nextID + 1)
  }

  function DroppedClient(server: Server, realm: string, clientID: string): Server {
    if HasClient(server, realm, clientID) then SetClients(server, realm, server.realms[realm].clients - {clientID})
    else server
  }

  /** The realm deleted from the server and the finalizer dropped. */
  function ReleasedRealm(st: Store, m: Key): Store
    requires m in st.realms
  {
    var cr := st.realms[m];
    PutRealmCR(st.(server := st.server.(realms := st.server.realms - {EffName(cr.spec)})), m,
               cr.(finalizers := cr.finalizers - {FINALIZER}))
  }

  function RealmPass(st: Store, m: Key): Store {
    if m !in st.realms then st
    else
      var cr := st.realms[m];
      if cr.deleting then
        if FINALIZER !in cr.finalizers then st else ReleasedRealm(st, m)
      else if FINALIZER !in cr.finalizers then
        PutRealmCR(st, m, cr.(finalizers := cr.finalizers + {FINALIZER}))
      else
        PutRealmCR(st.(server := EnsuredRealm(st.server, RealmRepOf(cr.spec))), m,
                   cr.(status := RealmStatus(EffName(cr.spec), cr.generation, Ready(cr.generation))))
  }

  function Marked(st: Store, k: Key, mark: Mark): Store
    requires k in st.clients
  {
    PutClientCR(st, k, st.clients[k].(status := st.clients[k].status.(mark := mark)))
  }

  function Released(st: Store, k: Key): Store
    requires k in st.clients
  {
    PutClientCR(st, k, st.clients[k].(finalizers := st.clients[k].finalizers - {FINALIZER}))
  }

  function Provisioned(st: Store, k: Key, realm: string): Store
    requires k in st.clients && realm in st.server.realms
  {
    var kc := st.clients[k];
    var server := EnsuredClient(st.server, realm, Desired(k, kc.spec));
    var secret := if kc.spec.isPublic then None
                  else Some(SecretOf(server.realms[realm].clients[EffClientID(k, kc.spec)].id));
    var key := SecretKey(k, kc.spec);
    var was := if key in st.secrets then st.secrets[key].data else map[];
    PutClientCR(
      st.(server := server,
          secrets := st.secrets[key := TenantSecret(kc.spec.tenantID, was + SecretData(k, kc.spec, realm, secret))]),
      k, kc.(status := ReadyStatus(k, kc, realm)))
  }

  predicate RealmReady(st: Store, m: Key) {
    m in st.realms && st.realms[m].status.mark.Ready?
  }

  /** The teardown of a deleting client resource aimed at this realm. */
  function TeardownPass(st: Store, k: Key, realm: string): Store
    requires k in st.clients
  {
    var kc := st.clients[k];
    if FINALIZER !in kc.finalizers || (realm != "" && realm !in st.server.realms) then st
    else Released(st.(server := if realm == "" then st.server else DroppedClient(st.server, realm, EffClientID(k, kc.spec)),
                      secrets := st.secrets - {SecretKey(k, kc.spec)}), k)
  }

  /** Provisioning behind the readiness gate. */
  function ProvisionPass(st: Store, k: Key, realm: string, ready: bool): Store
    requires k in st.clients
  {
    var kc := st.clients[k];
    if realm == "" then Marked(st, k, Failed(kc.generation))
    else if kc.status.realm == "" && !ready then Marked(st, k, Reconciling(kc.generation))
    else if realm !in st.server.realms then Marked(st, k, Failed(kc.generation))
    else Provisioned(st, k, realm)
  }

  function ClientPass(st: Store, k: Key): Store {
    if k !in st.clients then st
    else
      var kc := st.clients[k];
      if kc.deleting then TeardownPass(st, k, TeardownRealm(st, k))
      else if FINALIZER !in kc.finalizers then
        PutClientCR(st, k, kc.(finalizers := kc.finalizers + {FINALIZER}))
      else ProvisionPass(st, k, TeardownRealm(st, k), RealmReady(st, RefKey(k, kc.spec)))
  }

  // ---------- What ensuring means ----------

  lemma EnsuredKeepsWellFormed(server: Server, realm: string, rep: ClientRep)
    requires WellFormed(server) && realm in server.realms
    ensures WellFormed(EnsuredClient(server, realm, rep))
  {
    var after := EnsuredClient(server, realm, rep);
    var was, now := server.realms[realm].clients, after.realms[realm].clients;
    assert ClientsOK(was, server.nextID);
    if rep.clientID in was {
      assert now == Replaced(was, was[rep.clientID].id, rep);
      ReplaceKeepsOK(was, server.nextID, was[rep.clientID].id, rep);
    } else {
      AddKeepsOK(was, server.nextID, rep);
    }
    forall r | r in after.realms ensures ClientsOK(after.realms[r].clients, after.nextID) {
      if r != realm { assert ClientsOK(server.realms[r].clients, server.nextID); }
    }
  }

  lemma EnsuringTwice(server: Server, realm: string, rep: ClientRep)
    requires realm in server.realms
    ensures EnsuredClient(EnsuredClient(server, realm, rep), realm, rep) == EnsuredClient(server, realm, rep)
  {
    var after := EnsuredClient(server, realm, rep);
    var now := after.realms[realm].clients;
    assert now[rep.clientID := now[rep.clientID]] == now;
    assert after.realms[realm := after.realms[realm]] == after.realms;
  }

  /** Exactly one client has the wanted id and fields, keeps its identifier if
      it had one, and nothing else on the server differs; ensuring again changes nothing. */
  lemma EnsuredClientMeans(server: Server, realm: string, rep: ClientRep)
    requires WellFormed(server) && realm in server.realms
    ensures var after := EnsuredClient(server, realm, rep);
      && WellFormed(after) && EnsuredClient(after, realm, rep) == after
      && HasClient(after, realm, rep.clientID) && SameManaged(after.realms[realm].clients[rep.clientID], rep)
      && SameID(server, after, realm, rep.clientID)
      && (forall r, c | r != realm || c != rep.clientID ::
            HasClient(after, r, c) == HasClient(server, r, c) &&
            (HasClient(server, r, c) ==> after.realms[r].clients[c] == server.realms[r].clients[c]))
      && after.realms.Keys == server.realms.Keys
      && (forall r | r in after.realms ::
            after.realms[r].displayName == server.realms[r].displayName && after.realms[r].enabled == server.realms[r].enabled)
  {
    EnsuredKeepsWellFormed(server, realm, rep);
    EnsuringTwice(server, realm, rep);
  }

  /** The realm has the wanted fields and keeps its clients, no other realm
      differs, and ensuring again changes nothing. */
  lemma EnsuredRealmMeans(server: Server, rep: RealmRep)
    ensures var after := EnsuredRealm(server, rep);
      && after.nextID == server.nextID && EnsuredRealm(after, rep) == after
      && after.realms.Keys == server.realms.Keys + {rep.realm}
      && after.realms[rep.realm].displayName == rep.displayName && after.realms[rep.realm].enabled == rep.enabled
      && after.realms[rep.realm].clients == (if rep.realm in server.realms then server.realms[rep.realm].clients else map[])
      && after.realms - {rep.realm} == server.realms - {rep.realm}
  {
    var after := EnsuredRealm(server, rep);
    assert after.realms[rep.realm := after.realms[rep.realm]] == after.realms;
  }

  // ---------- Teardown ----------

  /** On the two servers, everything but client c of realm r is the same. */
  ghost predicate SameBut(server: Server, server': Server, r: string, c: string) {
    && server'.nextID == server.nextID && server'.realms.Keys == server.realms.Keys
    && forall n | n in server.realms ::
         && server'.realms[n].displayName == server.realms[n].displayName && server'.realms[n].enabled == server.realms[n].enabled
         && (if n == r then server'.realms[n].clients - {c} == server.realms[n].clients - {c}
             else server'.realms[n].clients == server.realms[n].clients)
  }

  /** A teardown pass releases the resource exactly when no realm is known or
      the known one exists; then its client and its secret are gone and nothing
      else is. Otherwise the pass changes nothing at all. */
  lemma TeardownExactly(st: Store, k: Key)
    requires HasFinalizer(st, k) && st.clients[k].deleting
    ensures var st', kc, realm := ClientPass(st, k), st.clients[k], TeardownRealm(st, k);
      var c := EffClientID(k, kc.spec);
      && (!HasFinalizer(st', k) <==> realm == "" || realm in st.server.realms)
      && (HasFinalizer(st', k) ==> st' == st)
      && (!HasFinalizer(st', k) ==>
            && (k !in st'.clients <==> kc.finalizers == {FINALIZER})
            && (realm != "" ==> !HasClient(st'.server, realm, c))
            && st'.secrets == st.secrets - {SecretKey(k, kc.spec)}
            && SameBut(st.server, st'.server, realm, c)
            && st'.realms == st.realms && st'.clients - {k} == st.clients - {k}
            && (k in st'.clients ==> st'.clients[k] == kc.(finalizers := kc.finalizers - {FINALIZER}, revision := st'.revision)))
  {
    var kc := st.clients[k];
    assert kc.finalizers - {FINALIZER} == {} <==> kc.finalizers == {FINALIZER};
  }

  /** Once status.realm is set, a teardown does not look at the realm resource. */
  lemma PinnedTeardownIgnoresRealms(st: Store, k: Key, realms: map<Key, RealmCR>)
    requires k in st.clients && st.clients[k].deleting && st.clients[k].status.realm != ""
    ensures ClientPass(st.(realms := realms), k) == ClientPass(st, k).(realms := realms)
  {
  }

  // ---------- Convergence ----------

  predicate Live(st: Store, m: Key, k: Key) {
    && m in st.realms && !st.realms[m].deleting && EffName(st.realms[m].spec) != ""
    && k in st.clients && !st.clients[k].deleting
    && RefKey(k, st.clients[k].spec) == m
  }

  predicate RealmSettled(st: Store, m: Key) {
    && m in st.realms && !st.realms[m].deleting && FINALIZER in st.realms[m].finalizers
    && var cr := st.realms[m];
       var name := EffName(cr.spec);
       && cr.status == RealmStatus(name, cr.generation, Ready(cr.generation))
       && name in st.server.realms
       && st.server.realms[name].displayName == cr.spec.displayName && st.server.realms[name].enabled == cr.spec.enabled
  }

  /** The client is provisioned as its specification asks, and its resource and secret say so. */
  predicate ClientSettled(st: Store, k: Key) {
    && k in st.clients && !st.clients[k].deleting && FINALIZER in st.clients[k].finalizers
    && var kc := st.clients[k];
       var realm, c, key := kc.status.realm, EffClientID(k, kc.spec), SecretKey(k, kc.spec);
       && realm != "" && kc.status == ReadyStatus(k, kc, realm)
       && HasClient(st.server, realm, c)
       && st.server.realms[realm].clients[c].clientID == c
       && SameManaged(st.server.realms[realm].clients[c], Desired(k, kc.spec))
       && key in st.secrets && st.secrets[key].tenant == kc.spec.tenantID
       && var data := SecretData(k, kc.spec, realm,
                        if kc.spec.isPublic then None else Some(SecretOf(st.server.realms[realm].clients[c].id)));
          forall f | f in data :: f in st.secrets[key].data && st.secrets[key].data[f] == data[f]
  }

  /** A reconcile of a settled resource leaves both stores exactly as they are. */
  lemma SettledRealmStays(st: Store, m: Key)
    requires RealmSettled(st, m)
    ensures RealmPass(st, m) == st
  {
    assert EnsuredRealm(st.server, RealmRepOf(st.realms[m].spec)).realms == st.server.realms;
  }

  lemma SettledClientStays(st: Store, k: Key)
    requires ClientSettled(st, k)
    ensures ClientPass(st, k) == st
  {
    var kc := st.clients[k];
    var realm, c, key := kc.status.realm, EffClientID(k, kc.spec), SecretKey(k, kc.spec);
    var clients := st.server.realms[realm].clients;
    assert clients[c := clients[c]] == clients;
    assert st.server.realms[realm := st.server.realms[realm]] == st.server.realms;
    assert EnsuredClient(st.server, realm, Desired(k, kc.spec)) == st.server;
    var data := SecretData(k, kc.spec, realm, if kc.spec.isPublic then None else Some(SecretOf(clients[c].id)));
    assert st.secrets[key].data + data == st.secrets[key].data;
    assert st.secrets[key := st.secrets[key]] == st.secrets;
  }

  /** Only the resource m, apart from its spec, and its realm's own fields differ. */
  ghost predicate OnlyRealmSide(st: Store, st': Store, m: Key)
    requires m in st.realms
  {
    var name := EffName(st.realms[m].spec);
    && st'.clients == st.clients && st'.secrets == st.secrets
    && st'.realms.Keys == st.realms.Keys && st'.realms - {m} == st.realms - {m} && st'.realms[m].spec == st.realms[m].spec
    && st'.server.nextID == st.server.nextID && st'.server.realms.Keys == st.server.realms.Keys + {name}
    && st'.server.realms - {name} == st.server.realms - {name}
    && st'.server.realms[name].clients == (if name in st.server.realms then st.server.realms[name].clients else map[])
  }

  lemma RealmPassSettles(st: Store, m: Key)
    requires m in st.realms && !st.realms[m].deleting && FINALIZER in st.realms[m].finalizers
    ensures RealmSettled(RealmPass(st, m), m) && OnlyRealmSide(st, RealmPass(st, m), m)
  {
    EnsuredRealmMeans(st.server, RealmRepOf(st.realms[m].spec));
  }

  function RealmPasses(st: Store, m: Key, n: nat): Store {
    if n == 0 then st else RealmPass(RealmPasses(st, m, n - 1), m)
  }

  function ClientPasses(st: Store, k: Key, n: nat): Store {
    if n == 0 then st else ClientPass(ClientPasses(st, k, n - 1), k)
  }

  /** Two passes or more settle a live realm resource and leave the clients'
      side and the other realms alone. */
  lemma {:induction false} RealmConverges(st: Store, m: Key, n: nat)
    requires m in st.realms && !st.realms[m].deleting && n >= 2
    ensures RealmSettled(RealmPasses(st, m, n), m) && OnlyRealmSide(st, RealmPasses(st, m, n), m)
  {
    if n > 2 {
      RealmConverges(st, m, n - 1);
      SettledRealmStays(RealmPasses(st, m, n - 1), m);
    } else {
      var st1 := RealmPass(st, m);
      assert RealmPasses(st, m, 1) == RealmPass(RealmPasses(st, m, 0), m) == st1;
      if FINALIZER in st.realms[m].finalizers {
        RealmPassSettles(st, m);
        SettledRealmStays(st1, m);
      } else {
        RealmPassSettles(st1, m);
      }
    }
  }

  lemma ProvisioningSettles(st: Store, k: Key, realm: string)
    requires HasFinalizer(st, k) && !st.clients[k].deleting && realm != "" && realm in st.server.realms
    ensures ClientSettled(Provisioned(st, k, realm), k)
  {
  }

  /** Only clients inside realms, the secrets and the resource k differ. */
  ghost predicate OnlyClientSide(st: Store, st': Store, k: Key) {
    && st'.realms == st.realms && st'.server.realms.Keys == st.server.realms.Keys
    && (forall r | r in st.server.realms :: st'.server.realms[r].(clients := map[]) == st.server.realms[r].(clients := map[]))
    && k in st.clients && k in st'.clients
    && st'.clients[k].spec == st.clients[k].spec && st'.clients[k].deleting == st.clients[k].deleting
  }

  lemma EnsuredTouches(server: Server, realm: string, rep: ClientRep, r: string)
    requires realm in server.realms && r in server.realms
    ensures var after := EnsuredClient(server, realm, rep);
      r in after.realms && after.realms[r].(clients := map[]) == server.realms[r].(clients := map[])
  {
  }

  lemma ProvisionedTouches(st: Store, k: Key, realm: string)
    requires HasFinalizer(st, k) && !st.clients[k].deleting && realm in st.server.realms
    ensures OnlyClientSide(st, Provisioned(st, k, realm), k) && HasFinalizer(Provisioned(st, k, realm), k)
  {
    var st', rep := Provisioned(st, k, realm), Desired(k, st.clients[k].spec);
    assert st'.server == EnsuredClient(st.server, realm, rep);
    forall r | r in st.server.realms ensures
      r in st'.server.realms && st'.server.realms[r].(clients := map[]) == st.server.realms[r].(clients := map[]) {
      EnsuredTouches(st.server, realm, rep, r);
    }
  }

  lemma MarkedTouches(st: Store, k: Key, mark: Mark)
    requires HasFinalizer(st, k) && !st.clients[k].deleting
    ensures OnlyClientSide(st, Marked(st, k, mark), k) && HasFinalizer(Marked(st, k, mark), k)
  {
  }

  lemma ProvisionTouches(st: Store, k: Key, realm: string, ready: bool)
    requires HasFinalizer(st, k) && !st.clients[k].deleting
    ensures OnlyClientSide(st, ProvisionPass(st, k, realm, ready), k) && HasFinalizer(ProvisionPass(st, k, realm, ready), k)
  {
    MarkedTouches(st, k, Failed(st.clients[k].generation));
    MarkedTouches(st, k, Reconciling(st.clients[k].generation));
    if realm in st.server.realms { ProvisionedTouches(st, k, realm); }
  }

  lemma ClientPassTouches(st: Store, k: Key)
    requires k in st.clients && !st.clients[k].deleting
    ensures OnlyClientSide(st, ClientPass(st, k), k) && HasFinalizer(ClientPass(st, k), k)
  {
    if HasFinalizer(st, k) {
      ProvisionTouches(st, k, TeardownRealm(st, k), RealmReady(st, RefKey(k, st.clients[k].spec)));
    }
  }

  /** A pass over a live client resource leaves the realm side alone. */
  lemma ClientPassFrame(st: Store, m: Key, k: Key)
    requires Live(st, m, k)
    ensures var st' := ClientPass(st, k);
      && Live(st', m, k) && st'.realms == st.realms && st'.clients[k].spec == st.clients[k].spec
      && st'.server.realms.Keys == st.server.realms.Keys
      && (RealmSettled(st, m) ==> RealmSettled(st', m))
      && HasFinalizer(st', k)
  {
    ClientPassTouches(st, k);
    var name := EffName(st.realms[m].spec);
    if name in st.server.realms {
      var was, now := st.server.realms[name], ClientPass(st, k).server.realms[name];
      assert now.(clients := map[]) == was.(clients := map[]);
    }
  }

  predicate ReportsFailure(st: Store, k: Key) {
    k in st.clients && st.clients[k].status.mark == Failed(st.clients[k].generation)
  }

  /** A pass past the finalizer settles the client if its realm exists, and reports a failure if not. */
  lemma PassOutcome(st: Store, m: Key, k: Key)
    requires Live(st, m, k) && RealmSettled(st, m) && HasFinalizer(st, k)
    ensures var st', realm := ClientPass(st, k), TeardownRealm(st, k);
      && TeardownRealm(st', k) == realm
      && if realm in st.server.realms then ClientSettled(st', k) else ReportsFailure(st', k) && !ClientSettled(st', k)
  {
    ClientPassFrame(st, m, k);
    var realm := TeardownRealm(st, k);
    if realm in st.server.realms { ProvisioningSettles(st, k, realm); }
  }

  lemma {:induction false} ClientConverges(st: Store, m: Key, k: Key, n: nat)
    requires Live(st, m, k) && RealmSettled(st, m) && n >= 2
    ensures var end := ClientPasses(st, k, n);
      && Live(end, m, k) && RealmSettled(end, m) && HasFinalizer(end, k)
      && end.server.realms.Keys == st.server.realms.Keys && TeardownRealm(end, k) == TeardownRealm(st, k)
      && if TeardownRealm(st, k) in st.server.realms then ClientSettled(end, k) else ReportsFailure(end, k) && !ClientSettled(end, k)
  {
    var before := ClientPasses(st, k, n - 1);
    if n > 2 {
      ClientConverges(st, m, k, n - 1);
    } else {
      assert before == ClientPass(ClientPasses(st, k, 0), k) == ClientPass(st, k);
      ClientPassFrame(st, m, k);
    }
    ClientPassFrame(before, m, k);
    PassOutcome(before, m, k);
  }

  lemma {:induction false} RestingPassesStay(st: Store, k: Key, n: nat, later: nat)
    requires n <= later && ClientPass(ClientPasses(st, k, n), k) == ClientPasses(st, k, n)
    ensures ClientPasses(st, k, later) == ClientPasses(st, k, n)
  {
    if n < later {
      RestingPassesStay(st, k, n, later - 1);
    }
  }

  /** Two undisturbed passes of each reconciler, or more, bring a live pair to
      the settled state, where every later pass changes nothing - exactly when
      the client is not pinned to some other realm that does not exist.
      Otherwise it goes on reporting a failure. */
  lemma {:induction false} Converges(st: Store, m: Key, k: Key, i: nat, n: nat, later: nat)
    requires Live(st, m, k) && 2 <= i && 2 <= n <= later
    ensures var end, pin := ClientPasses(RealmPasses(st, m, i), k, n), st.clients[k].status.realm;
      && RealmSettled(end, m)
      && (pin in {"", EffName(st.realms[m].spec)} || pin in st.server.realms <==> ClientSettled(end, k))
      && (ClientSettled(end, k) ==> ClientPasses(RealmPasses(st, m, i), k, later) == end)
      && (!ClientSettled(end, k) ==> ReportsFailure(end, k))
  {
    RealmConverges(st, m, i);
    var mid := RealmPasses(st, m, i);
    ClientConverges(mid, m, k, n);
    if ClientSettled(ClientPasses(mid, k, n), k) {
      SettledClientStays(ClientPasses(mid, k, n), k);
      RestingPassesStay(mid, k, n, later);
    }
  }

  // ---------- The tenant's secret ----------

  /** A pass that provisions a public client neither writes nor removes the key
      "client-secret": it is in the Secret exactly if it was there before. */
  lemma PublicPassLeavesSecretKey(st: Store, k: Key)
    requires HasFinalizer(st, k) && !st.clients[k].deleting && st.clients[k].spec.isPublic
    requires ClientSettled(ClientPass(st, k), k)
    ensures var key, st' := SecretKey(k, st.clients[k].spec), ClientPass(st, k);
      && key in st'.secrets
      && ("client-secret" in st'.secrets[key].data <==> key in st.secrets && "client-secret" in st.secrets[key].data)
      && ("client-secret" in st'.secrets[key].data ==>
            st'.secrets[key].data["client-secret"] == st.secrets[key].data["client-secret"])
  {
    var kc, realm := st.clients[k], TeardownRealm(st, k);
    if realm != "" && realm in st.server.realms && (kc.status.realm != "" || RealmReady(st, RefKey(k, kc.spec))) {
      assert ClientPass(st, k) == Provisioned(st, k, realm);
    }
  }

  /** So a settled confidential client that is switched to public settles again
      with the secret of its confidential days still in the tenant's Secret. */
  lemma SwitchToPublicKeepsSecret(st: Store, k: Key)
    requires ClientSettled(st, k) && !st.clients[k].spec.isPublic
    ensures var kc := st.clients[k];
      var edited := PutClientCR(st, k, EditedClient(kc, kc.spec.(isPublic := true)));
      var st', key := ClientPass(edited, k), SecretKey(k, kc.spec);
      && ClientSettled(st', k) && st'.clients[k].spec.isPublic
      && key in st'.secrets && "client-secret" in st'.secrets[key].data
      && st'.secrets[key].data["client-secret"] == st.secrets[key].data["client-secret"]
  {
    var kc := st.clients[k];
    var edited := PutClientCR(st, k, EditedClient(kc, kc.spec.(isPublic := true)));
    ProvisioningSettles(edited, k, kc.status.realm);
    PublicPassLeavesSecretKey(edited, k);
    var data := SecretData(k, kc.spec, kc.status.realm,
                  Some(SecretOf(st.server.realms[kc.status.realm].clients[EffClientID(k, kc.spec)].id)));
    assert "client-secret" in data;
  }

  // ---------- What an edit leaves behind ----------

  /** Clients with another id, Secrets under another key and realm resources are the same in both stores. */
  ghost predicate SameOthers(st: Store, st': Store, key: Key, c: string) {
    && (forall r, d | d != c :: HasClient(st'.server, r, d) <==> HasClient(st.server, r, d))
    && (forall r, d | d != c && HasClient(st.server, r, d) :: st'.server.realms[r].clients[d] == st.server.realms[r].clients[d])
    && st'.secrets - {key} == st.secrets - {key} && st'.server.realms.Keys == st.server.realms.Keys && st'.realms == st.realms
  }

  /** The resource, while it is there, asks for the same and keeps its pin. */
  predicate SameAsked(st: Store, st': Store, k: Key) {
    k in st'.clients ==>
      && k in st.clients && st'.clients[k].spec == st.clients[k].spec && st'.clients[k].deleting == st.clients[k].deleting
      && (st.clients[k].status.realm != "" ==> st'.clients[k].status.realm == st.clients[k].status.realm)
  }

  /** Nothing but what the resource k asks for has changed. */
  ghost predicate OnlyAsked(st: Store, st': Store, k: Key)
    requires k in st.clients
  {
    SameOthers(st, st', SecretKey(k, st.clients[k].spec), EffClientID(k, st.clients[k].spec)) && SameAsked(st, st', k)
  }

  lemma OnlyAskedOn(st: Store, mid: Store, end: Store, k: Key)
    requires k in st.clients && k in mid.clients && OnlyAsked(st, mid, k) && OnlyAsked(mid, end, k)
    ensures OnlyAsked(st, end, k)
  {
  }

  lemma EnsuredSparesOthers(server: Server, realm: string, rep: ClientRep)
    requires realm in server.realms
    ensures var after := EnsuredClient(server, realm, rep);
      && after.realms.Keys == server.realms.Keys
      && (forall r, d | d != rep.clientID :: HasClient(after, r, d) <==> HasClient(server, r, d))
      && (forall r, d | d != rep.clientID && HasClient(server, r, d) :: after.realms[r].clients[d] == server.realms[r].clients[d])
  {
  }

  lemma ProvisionedSparesOthers(st: Store, k: Key, realm: string)
    requires HasFinalizer(st, k) && !st.clients[k].deleting && realm in st.server.realms
    requires st.clients[k].status.realm in {"", realm}
    ensures OnlyAsked(st, Provisioned(st, k, realm), k)
  {
    EnsuredSparesOthers(st.server, realm, Desired(k, st.clients[k].spec));
  }

  lemma TeardownSparesOthers(st: Store, k: Key, realm: string)
    requires k in st.clients
    ensures OnlyAsked(st, TeardownPass(st, k, realm), k)
  {
  }

  /** A pass touches no client with any other id, and no other Secret. */
  lemma ClientPassSparesOthers(st: Store, k: Key)
    requires k in st.clients
    ensures OnlyAsked(st, ClientPass(st, k), k)
  {
    var kc, realm := st.clients[k], TeardownRealm(st, k);
    if kc.deleting {
      TeardownSparesOthers(st, k, realm);
    } else if FINALIZER in kc.finalizers && realm in st.server.realms {
      ProvisionedSparesOthers(st, k, realm);
    }
  }

  lemma {:induction false} ClientPassesSpareOthers(st: Store, k: Key, n: nat)
    requires k in st.clients
    ensures OnlyAsked(st, ClientPasses(st, k, n), k)
  {
    if n > 0 {
      var before := ClientPasses(st, k, n - 1);
      ClientPassesSpareOthers(st, k, n - 1);
      if k in before.clients {
        ClientPassSparesOthers(before, k);
        OnlyAskedOn(st, before, ClientPass(before, k), k);
      }
    }
  }

  lemma {:induction false} LiveClientStays(st: Store, k: Key, n: nat)
    requires HasFinalizer(st, k) && !st.clients[k].deleting
    ensures HasFinalizer(ClientPasses(st, k, n), k) && !ClientPasses(st, k, n).clients[k].deleting
  {
    if n > 0 {
      LiveClientStays(st, k, n - 1);
      ClientPassTouches(ClientPasses(st, k, n - 1), k);
    }
  }

  /** One pass or more over a deleting client that is pinned to a realm that
      exists: its client and its Secret are gone, and its finalizer. */
  lemma {:induction false} PassesTearDown(st: Store, k: Key, n: nat)
    requires HasFinalizer(st, k) && st.clients[k].deleting && st.clients[k].status.realm in st.server.realms
    requires st.clients[k].status.realm != "" && n >= 1
    ensures var end, kc := ClientPasses(st, k, n), st.clients[k];
      && !HasFinalizer(end, k) && (k in end.clients ==> end.clients[k].deleting)
      && !HasClient(end.server, kc.status.realm, EffClientID(k, kc.spec)) && SecretKey(k, kc.spec) !in end.secrets
  {
    if n > 1 {
      PassesTearDown(st, k, n - 1);
    } else {
      TeardownExactly(st, k);
      assert ClientPasses(st, k, 1) == ClientPass(ClientPasses(st, k, 0), k);
    }
  }

  function EditedStore(st: Store, k: Key, spec: ClientSpec): Store
    requires k in st.clients
  {
    PutClientCR(st, k, EditedClient(st.clients[k], spec))
  }

  function DeletedStore(st: Store, k: Key): Store
    requires k in st.clients
  {
    PutClientCR(st, k, DeletedClient(st.clients[k]))
  }

  /** A settled client is edited, reconciled any number of times, deleted, and
      reconciled again: the client it had is still in Keycloak if and only if the
      edit gave it another id, and the Secret is still there if and only if the
      edit moved it. What is left behind is exactly as it was. */
  lemma {:induction false} EditedNamesStayBehind(st: Store, k: Key, spec: ClientSpec, n: nat, j: nat)
    requires ClientSettled(st, k) && j >= 1
    ensures k in ClientPasses(EditedStore(st, k, spec), k, n).clients
    ensures var r, c, key := st.clients[k].status.realm, EffClientID(k, st.clients[k].spec), SecretKey(k, st.clients[k].spec);
      var end := ClientPasses(DeletedStore(ClientPasses(EditedStore(st, k, spec), k, n), k), k, j);
      && !HasFinalizer(end, k)
      && (HasClient(end.server, r, c) <==> EffClientID(k, spec) != c)
      && (HasClient(end.server, r, c) ==> end.server.realms[r].clients[c] == st.server.realms[r].clients[c])
      && (key in end.secrets <==> SecretKey(k, spec) != key)
      && (key in end.secrets ==> end.secrets[key] == st.secrets[key])
  {
    var r, c, key := st.clients[k].status.realm, EffClientID(k, st.clients[k].spec), SecretKey(k, st.clients[k].spec);
    var edited := EditedStore(st, k, spec);
    ClientPassesSpareOthers(edited, k, n);
    LiveClientStays(edited, k, n);
    var worked := ClientPasses(edited, k, n);
    var deleted := DeletedStore(worked, k);
    ClientPassesSpareOthers(deleted, k, j);
    PassesTearDown(deleted, k, j);
    var end := ClientPasses(deleted, k, j);
    SameOthersChain(st, worked, end, SecretKey(k, spec), EffClientID(k, spec), r, c, key);
  }

  lemma SameOthersChain(st: Store, mid: Store, end: Store, moved: Key, d: string, r: string, c: string, key: Key)
    requires SameOthers(st, mid, moved, d) && SameOthers(mid, end, moved, d)
    ensures c != d && HasClient(st.server, r, c) ==> HasClient(end.server, r, c) && end.server.realms[r].clients[c] == st.server.realms[r].clients[c]
    ensures key != moved && key in st.secrets ==> key in end.secrets && end.secrets[key] == st.secrets[key]
  {
    if key != moved && key in st.secrets {
      assert key in st.secrets - {moved} && key in mid.secrets - {moved} && key in end.secrets - {moved};
      assert (end.secrets - {moved})[key] == (st.secrets - {moved})[key];
    }
  }
}
