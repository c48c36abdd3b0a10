// Safety over every run: no Keycloak realm or client outlives its resource.
module NoOrphan {
  import opened Kube
  import opened KeycloakServer
  import opened Machine

  /** The realm worker holds an object it read with the finalizer on it. */
  predicate RealmBusy(pc: RealmPC) {
    !pc.RIdle? && !pc.RGetCR? && !pc.RAddFinalizer?
  }

  predicate HasKC(pc: ClientPC) {
    !pc.CIdle? && !pc.CGetCR?
  }

  /** The client worker has resolved a realm name and past the finalizer check. */
  predicate HasRealm(pc: ClientPC) {
    HasKC(pc) && !pc.CGetRealm? && !pc.CAddFinalizer? && !pc.CMark?
  }

  predicate Cleaned(pc: ClientPC) {
    pc.CDelImpersonate? || pc.CDelSecret? || pc.CDropFinalizer?
  }

  predicate Releasing(pc: ClientPC) {
    pc.CDelFind? || pc.CDelClient? || Cleaned(pc)
  }

  ghost predicate Owns(s: State, m: Key, name: string) {
    name != "" && name in s.realmOwner && s.realmOwner[name] == m
  }

  // ---------- What holds even when names are edited and realm finalizers stripped ----------

  ghost predicate RealmOK(s: State, m: Key) {
    m in s.store.realms ==>
      && s.store.realms[m].revision <= s.store.revision
      && Owns(s, m, EffName(s.store.realms[m].spec))
  }

  ghost predicate ClientOK(s: State, k: Key) {
    k in s.store.clients ==>
      var kc := s.store.clients[k];
      && kc.revision <= s.store.revision
      && TargetOf(k, kc.spec) in s.clientOwner && s.clientOwner[TargetOf(k, kc.spec)] == k
      && (kc.status.realm != "" ==> Owns(s, RefKey(k, kc.spec), kc.status.realm))
  }

  ghost predicate RealmWorkerOK(s: State, m: Key) {
    var pc := RPC(s, m);
    !pc.RIdle? && !pc.RGetCR? ==>
      && pc.cr.revision <= s.store.revision
      && (m in s.store.realms && s.store.realms[m].revision == pc.cr.revision ==> s.store.realms[m] == pc.cr)
      && EffName(pc.cr.spec) != ""
      && (FINALIZER in pc.cr.finalizers <==> !pc.RAddFinalizer?)
  }

  /** What the worker may rely on about the object it read. */
  ghost predicate SnapshotOK(s: State, k: Key, kc: ClientCR) {
    && kc.revision <= s.store.revision
    && (k in s.store.clients && s.store.clients[k].revision == kc.revision ==> s.store.clients[k] == kc)
    && (FINALIZER in kc.finalizers ==>
          && k in s.store.clients && FINALIZER in s.store.clients[k].finalizers
          && RefKey(k, s.store.clients[k].spec) == RefKey(k, kc.spec)
          && TargetOf(k, kc.spec) in s.clientOwner && s.clientOwner[TargetOf(k, kc.spec)] == k
          && s.store.clients[k].status.realm == kc.status.realm)
  }

  /** What it may rely on about the realm name it resolved. */
  ghost predicate LocalsOK(s: State, k: Key, pc: ClientPC)
    requires HasRealm(pc)
  {
    var c := EffClientID(k, pc.kc.spec);
    && pc.kc.status.realm in {"", pc.realm}
    && (pc.realm != "" ==> Owns(s, RefKey(k, pc.kc.spec), pc.realm))
    && (!Cleaned(pc) ==> pc.realm != "")
    && (Cleaned(pc) ==> !HasClient(s.store.server, pc.realm, c))
    && (pc.CDelClient? && HasClient(s.store.server, pc.realm, c) ==>
          s.store.server.realms[pc.realm].clients[c].id == pc.id)
  }

  ghost predicate ClientWorkerOK(s: State, k: Key) {
    var pc := CPC(s, k);
    HasKC(pc) ==>
      && SnapshotOK(s, k, pc.kc)
      && (!pc.CGetRealm? ==> (FINALIZER in pc.kc.finalizers <==> !pc.CAddFinalizer?))
      && (HasRealm(pc) ==> LocalsOK(s, k, pc))
  }

  ghost predicate Common(s: State) {
    && WellFormed(s.store.server)
    && "" !in s.store.server.realms
    && (forall m :: RealmOK(s, m))
    && (forall k :: ClientOK(s, k))
    && (forall m :: RealmWorkerOK(s, m))
    && (forall k :: ClientWorkerOK(s, k))
  }

  // ---------- What holds when nobody strips a finalizer ----------

  /** A Keycloak realm belongs to a live realm CR that names it and carries the finalizer. */
  ghost predicate RealmHeld(s: State, r: string) {
    r in s.store.server.realms ==>
      && r in s.realmOwner && s.realmOwner[r] in s.store.realms
      && FINALIZER in s.store.realms[s.realmOwner[r]].finalizers
      && EffName(s.store.realms[s.realmOwner[r]].spec) == r
  }

  ghost predicate RealmWorkerHolds(s: State, m: Key) {
    var pc := RPC(s, m);
    RealmBusy(pc) ==>
      && m in s.store.realms && FINALIZER in s.store.realms[m].finalizers
      && EffName(s.store.realms[m].spec) == EffName(pc.cr.spec)
      && (pc.RDropFinalizer? ==> EffName(pc.cr.spec) !in s.store.server.realms)
  }

  ghost predicate EntryHeld(s: State, r: string, c: string) {
    HasClient(s.store.server, r, c) ==>
      && r in s.realmOwner && Target(s.realmOwner[r], c) in s.clientOwner
      && var t := Target(s.realmOwner[r], c);
      var k := s.clientOwner[t];
      && k in s.store.clients && FINALIZER in s.store.clients[k].finalizers
      && TargetOf(k, s.store.clients[k].spec) == t
      && s.store.clients[k].status.realm in {"", r}
      && (HasRealm(CPC(s, k)) ==> CPC(s, k).realm == r && !Cleaned(CPC(s, k)))
  }

  /** The object the worker read still names the same client. */
  ghost predicate ClientWorkerHolds(s: State, k: Key) {
    HasKC(CPC(s, k)) && FINALIZER in CPC(s, k).kc.finalizers ==>
      k in s.store.clients && TargetOf(k, s.store.clients[k].spec) == TargetOf(k, CPC(s, k).kc.spec)
  }

  ghost predicate Held(s: State) {
    && (forall r :: RealmHeld(s, r))
    && (forall m :: RealmWorkerHolds(s, m))
    && (forall k :: ClientWorkerHolds(s, k))
    && (forall r, c :: EntryHeld(s, r, c))
  }

  /** Names that are taken stay taken, and nobody strips a client's finalizer. */
  predicate Tidy(rules: Rules) {
    !rules.naming.Free? && !rules.stripClients
  }

  /** No name is edited, and nobody strips a realm's finalizer. */
  predicate Keeping(rules: Rules) {
    rules.naming.Fixed? && !rules.stripRealms
  }

  ghost predicate Inv(rules: Rules, s: State) {
    Common(s) && (Keeping(rules) ==> Held(s))
  }

  lemma StartInv(rules: Rules)
    ensures Inv(rules, START)
  {
  }

  // ---------- Frames: what one actor's step can touch ----------

  /** Apart from client c of realm r, clients have only disappeared, and none has a new id. */
  ghost predicate NoNewClients(was: Server, now: Server, r: string, c: string) {
    forall r', c' | HasClient(now, r', c') && (r' != r || c' != c) ::
      HasClient(was, r', c') && now.realms[r'].clients[c'].id == was.realms[r'].clients[c'].id
  }

  ghost predicate ServerOK(server: Server) {
    WellFormed(server) && "" !in server.realms
  }

  /** An actor working on the realm CR m leaves the rest alone. */
  ghost predicate OnlyRealm(s: State, s': State, m: Key) {
    && s'.store.revision >= s.store.revision
    && s'.store.clients == s.store.clients && s'.clientPCs == s.clientPCs && s'.clientOwner == s.clientOwner
    && (forall name | name in s.realmOwner ::
          && name in s'.realmOwner
          && (s'.realmOwner[name] == s.realmOwner[name] || (s'.realmOwner[name] == m && Vacated(s.store, s.realmOwner[name]))))
    && ServerOK(s'.store.server)
    && NoNewClients(s.store.server, s'.store.server, "", "")
    && (forall n | n != m :: RPC(s', n) == RPC(s, n))
    && (forall n | n != m :: n in s'.store.realms <==> n in s.store.realms)
    && (forall n | n != m && n in s.store.realms :: s'.store.realms[n] == s.store.realms[n])
  }

  /** An actor working on the client CR k leaves the rest alone, but for client c of realm r. */
  ghost predicate OnlyClient(s: State, s': State, k: Key, r: string, c: string) {
    && s'.store.revision >= s.store.revision
    && s'.store.realms == s.store.realms && s'.realmPCs == s.realmPCs && s'.realmOwner == s.realmOwner
    && (forall t | t in s.clientOwner ::
          && t in s'.clientOwner
          && (s'.clientOwner[t] == s.clientOwner[t] || (s'.clientOwner[t] == k && s.clientOwner[t] !in s.store.clients)))
    && ServerOK(s'.store.server) && s'.store.server.realms.Keys == s.store.server.realms.Keys
    && NoNewClients(s.store.server, s'.store.server, r, c)
    && (forall n | n != k :: CPC(s', n) == CPC(s, n))
    && (forall n | n != k :: n in s'.store.clients <==> n in s.store.clients)
    && (forall n | n != k && n in s.store.clients :: s'.store.clients[n] == s.store.clients[n])
  }

  lemma OnlyRealmKeepsCommon(s: State, s': State, m: Key)
    requires Common(s) && OnlyRealm(s, s', m)
    requires RealmOK(s', m) && RealmWorkerOK(s', m)
    ensures Common(s')
  {
    forall n ensures RealmOK(s', n) { assert RealmOK(s, n); }
    forall k ensures ClientOK(s', k) { assert ClientOK(s, k); }
    forall n ensures RealmWorkerOK(s', n) { assert RealmWorkerOK(s, n); }
    forall k ensures ClientWorkerOK(s', k) { assert ClientWorkerOK(s, k); }
  }

  lemma OnlyRealmKeepsHeld(s: State, s': State, m: Key)
    requires Common(s) && Held(s) && OnlyRealm(s, s', m)
    requires RealmWorkerHolds(s', m)
    requires forall r | r in s'.store.server.realms :: RealmHeld(s', r)
    requires forall r | r in s'.store.server.realms && r !in s.store.server.realms :: Owns(s', m, r)
    ensures Held(s')
  {
    forall n ensures RealmWorkerHolds(s', n) {
      assert RealmWorkerHolds(s, n) && RealmWorkerOK(s, n) && RealmOK(s, n);
    }
    forall k ensures ClientWorkerHolds(s', k) { assert ClientWorkerHolds(s, k); }
    forall r, c ensures EntryHeld(s', r, c) {
      assert "" !in s'.store.server.realms;
      assert EntryHeld(s, r, c) && RealmHeld(s, r);
    }
  }

  lemma OnlyClientKeepsCommon(s: State, s': State, k: Key, r0: string, c0: string)
    requires Common(s) && OnlyClient(s, s', k, r0, c0)
    requires ClientOK(s', k) && ClientWorkerOK(s', k)
    requires HasClient(s'.store.server, r0, c0) && !HasClient(s.store.server, r0, c0) ==> Fresh(s', k, r0, c0)
    requires SameID(s.store.server, s'.store.server, r0, c0)
    ensures Common(s')
  {
    forall m ensures RealmOK(s', m) { assert RealmOK(s, m); }
    forall n ensures ClientOK(s', n) { assert ClientOK(s, n); }
    forall m ensures RealmWorkerOK(s', m) { assert RealmWorkerOK(s, m); }
    forall n ensures ClientWorkerOK(s', n) {
      assert ClientWorkerOK(s, n);
      if n != k && HasRealm(CPC(s, n)) { assert ClientOK(s, n); }
    }
  }

  /** Client c of realm r is one that k, and nobody else, targets. */
  ghost predicate Fresh(s: State, k: Key, r: string, c: string) {
    r in s.realmOwner && Target(s.realmOwner[r], c) in s.clientOwner && s.clientOwner[Target(s.realmOwner[r], c)] == k
  }

  ghost predicate SameID(was: Server, now: Server, r: string, c: string) {
    HasClient(was, r, c) && HasClient(now, r, c) ==> now.realms[r].clients[c].id == was.realms[r].clients[c].id
  }

  lemma OnlyClientKeepsHeld(s: State, s': State, k: Key, r0: string, c0: string)
    requires Common(s) && Held(s) && OnlyClient(s, s', k, r0, c0)
    requires ClientWorkerHolds(s', k)
    requires HasClient(s'.store.server, r0, c0) && !HasClient(s.store.server, r0, c0) ==> EntryHeld(s', r0, c0)
    requires forall r, c | HasClient(s'.store.server, r, c) && Fresh(s', k, r, c) :: EntryHeld(s', r, c)
    ensures Held(s')
  {
    forall r ensures RealmHeld(s', r) { assert RealmHeld(s, r); }
    forall m ensures RealmWorkerHolds(s', m) { assert RealmWorkerHolds(s, m); }
    forall n ensures ClientWorkerHolds(s', n) { assert ClientWorkerHolds(s, n); }
    forall r, c ensures EntryHeld(s', r, c) { assert EntryHeld(s, r, c); }
  }

  // ---------- Users ----------

  predicate ActsOnRealm(u: UserAct) {
    u.CreateRealm? || u.EditRealm? || u.FinalizersRealm? || u.DeleteRealmCR?
  }

  lemma UserRealmFrame(rules: Rules, s: State, u: UserAct)
    requires !rules.naming.Free? && Allowed(rules, s, u) && ActsOnRealm(u) && Common(s)
    ensures OnlyRealm(s, UserStep(s, u), u.key)
  {
    assert RealmOK(s, u.key);
  }

  lemma UserRealmLocal(rules: Rules, s: State, u: UserAct)
    requires !rules.naming.Free? && Allowed(rules, s, u) && ActsOnRealm(u)
    requires RealmOK(s, u.key) && RealmWorkerOK(s, u.key)
    ensures RealmOK(UserStep(s, u), u.key) && RealmWorkerOK(UserStep(s, u), u.key)
  {
  }

  lemma UserClientFrame(rules: Rules, s: State, u: UserAct)
    requires !rules.naming.Free? && Allowed(rules, s, u) && !ActsOnRealm(u) && Common(s)
    ensures OnlyClient(s, UserStep(s, u), u.key, "", "")
  {
    assert ClientOK(s, u.key);
  }

  lemma UserClientLocal(rules: Rules, s: State, u: UserAct)
    requires Tidy(rules) && Allowed(rules, s, u) && !ActsOnRealm(u)
    requires ClientOK(s, u.key) && ClientWorkerOK(s, u.key)
    ensures ClientOK(UserStep(s, u), u.key) && ClientWorkerOK(UserStep(s, u), u.key)
  {
  }

  lemma UserKeepsCommon(rules: Rules, s: State, u: UserAct)
    requires Tidy(rules) && Allowed(rules, s, u)
    requires Common(s)
    ensures Common(UserStep(s, u))
  {
    var s' := UserStep(s, u);
    if ActsOnRealm(u) {
      UserRealmFrame(rules, s, u);
      UserRealmLocal(rules, s, u);
      OnlyRealmKeepsCommon(s, s', u.key);
    } else {
      UserClientFrame(rules, s, u);
      UserClientLocal(rules, s, u);
      OnlyClientKeepsCommon(s, s', u.key, "", "");
    }
  }

  lemma UserKeepsHeld(s: State, u: UserAct)
    requires Allowed(STRICT, s, u)
    requires Common(s) && Held(s)
    ensures Held(UserStep(s, u))
  {
    var s' := UserStep(s, u);
    if ActsOnRealm(u) {
      UserRealmFrame(STRICT, s, u);
      UserRealmHeld(s, u);
      OnlyRealmKeepsHeld(s, s', u.key);
    } else {
      UserClientFrame(STRICT, s, u);
      UserClientHeld(s, u);
      assert ClientWorkerOK(s, u.key);
      UserClientCopy(s, u);
      OnlyClientKeepsHeld(s, s', u.key, "", "");
    }
  }

  lemma UserRealmHeld(s: State, u: UserAct)
    requires Allowed(STRICT, s, u) && ActsOnRealm(u)
    requires Common(s) && Held(s)
    ensures RealmWorkerHolds(UserStep(s, u), u.key)
    ensures forall r | r in UserStep(s, u).store.server.realms :: RealmHeld(UserStep(s, u), r)
  {
    var s' := UserStep(s, u);
    assert RealmOK(s, u.key) && RealmWorkerHolds(s, u.key);
    forall r | r in s'.store.server.realms ensures RealmHeld(s', r) { UserKeepsRealmHeld(s, u, r); }
  }

  lemma UserKeepsRealmHeld(s: State, u: UserAct, r: string)
    requires Allowed(STRICT, s, u) && ActsOnRealm(u) && RealmOK(s, u.key)
    requires r in s.store.server.realms && RealmHeld(s, r)
    ensures RealmHeld(UserStep(s, u), r)
  {
  }

  lemma UserClientHeld(s: State, u: UserAct)
    requires Allowed(STRICT, s, u) && !ActsOnRealm(u)
    requires Common(s) && Held(s)
    ensures forall r, c | HasClient(UserStep(s, u).store.server, r, c) && Fresh(UserStep(s, u), u.key, r, c) ::
              EntryHeld(UserStep(s, u), r, c)
  {
    var s' := UserStep(s, u);
    assert ClientOK(s, u.key);
    forall r, c | HasClient(s'.store.server, r, c) && Fresh(s', u.key, r, c) ensures EntryHeld(s', r, c) {
      assert EntryHeld(s, r, c);
    }
  }

  lemma UserClientCopy(s: State, u: UserAct)
    requires Allowed(STRICT, s, u) && !ActsOnRealm(u)
    requires ClientWorkerOK(s, u.key) && ClientWorkerHolds(s, u.key)
    ensures ClientWorkerHolds(UserStep(s, u), u.key)
  {
  }

  // ---------- Realm workers ----------

  /** Requests about a realm itself never touch the clients of a surviving realm. */
  lemma RealmRequestFrame(server: Server, req: Request, pick: Pick)
    requires ServerOK(server) && (req.GetRealm? || req.PutRealm? || req.PostRealm? || req.DeleteRealm?)
    requires req.PostRealm? ==> req.realmRep.realm != ""
    ensures var server' := Handle(server, req, pick).0;
      && ServerOK(server') && NoNewClients(server, server', "", "")
      && server'.realms.Keys == (if req.PostRealm? then server.realms.Keys + {req.realmRep.realm}
                                 else if req.DeleteRealm? then server.realms.Keys - {req.realm}
                                 else server.realms.Keys)
  {
    HandleKeepsWellFormed(server, req, pick);
  }

  predicate RealmCallsAdmin(pc: RealmPC) {
    pc.RDeleteRealm? || pc.RGetRealm? || pc.RPutRealm? || pc.RPostRealm?
  }

  /** A request about a realm changes the server alone, and the worker goes on with the same object. */
  lemma RealmAdminEffect(s: State, m: Key, fault: Fault, pick: Pick)
    requires RealmCallsAdmin(RPC(s, m))
    ensures var s', pc := StepRealm(s, m, fault, pick), RPC(s, m);
      var req, pc' := RealmCall(m, pc).request, RPC(s', m);
      && s' == s.(store := s.store.(server := s'.store.server), realmPCs := s.realmPCs[m := pc'])
      && (s'.store.server == s.store.server || s'.store.server == Handle(s.store.server, req, pick).0)
      && (pc'.RIdle? || (!pc'.RGetCR? && !pc'.RAddFinalizer? && pc'.cr == pc.cr))
      && (req.PostRealm? ==> req.realmRep.realm == EffName(pc.cr.spec))
  {
  }

  lemma RealmAdminStep(s: State, m: Key, fault: Fault, pick: Pick)
    requires Common(s) && RealmCallsAdmin(RPC(s, m))
    ensures var s' := StepRealm(s, m, fault, pick);
      OnlyRealm(s, s', m) && RealmOK(s', m) && RealmWorkerOK(s', m)
  {
    assert RealmOK(s, m) && RealmWorkerOK(s, m);
    RealmAdminEffect(s, m, fault, pick);
    RealmRequestFrame(s.store.server, RealmCall(m, RPC(s, m)).request, pick);
  }

  predicate RealmWrites(pc: RealmPC) {
    pc.RAddFinalizer? || pc.RDropFinalizer? || pc.RMark?
  }

  /** A write either has no effect or meets the object exactly as it was read. */
  lemma RealmWriteEffect(s: State, m: Key, fault: Fault, pick: Pick)
    requires RealmWrites(RPC(s, m)) && RealmWorkerOK(s, m)
    ensures var s', pc := StepRealm(s, m, fault, pick), RPC(s, m);
      && s' == s.(store := s'.store, realmPCs := s.realmPCs[m := RIdle])
      && (s'.store == s.store ||
          (m in s.store.realms && s.store.realms[m] == pc.cr &&
           s'.store == PutRealmCR(s.store, m, RealmCall(m, pc).realm)))
  {
  }

  lemma RealmApiFrame(s: State, m: Key, fault: Fault, pick: Pick)
    requires Common(s) && !RealmCallsAdmin(RPC(s, m))
    ensures OnlyRealm(s, StepRealm(s, m, fault, pick), m)
  {
    assert RealmWorkerOK(s, m);
    if RealmWrites(RPC(s, m)) {
      RealmWriteEffect(s, m, fault, pick);
    } else {
      RealmReadEffect(s, m, fault, pick);
    }
  }

  lemma RealmReadEffect(s: State, m: Key, fault: Fault, pick: Pick)
    requires !RealmWrites(RPC(s, m)) && !RealmCallsAdmin(RPC(s, m))
    ensures var s' := StepRealm(s, m, fault, pick);
      s' == s.(realmPCs := s.realmPCs[m := RPC(s', m)])
  {
  }

  lemma RealmApiLocal(s: State, m: Key, fault: Fault, pick: Pick)
    requires RealmOK(s, m) && RealmWorkerOK(s, m) && !RealmCallsAdmin(RPC(s, m))
    ensures RealmOK(StepRealm(s, m, fault, pick), m) && RealmWorkerOK(StepRealm(s, m, fault, pick), m)
  {
    if RealmWrites(RPC(s, m)) {
      RealmWriteEffect(s, m, fault, pick);
    }
  }

  lemma RealmAdminHeld(s: State, m: Key, fault: Fault, pick: Pick)
    requires Common(s) && Held(s) && RealmCallsAdmin(RPC(s, m))
    ensures var s' := StepRealm(s, m, fault, pick);
      && RealmWorkerHolds(s', m)
      && (forall r | r in s'.store.server.realms :: RealmHeld(s', r))
      && (forall r | r in s'.store.server.realms && r !in s.store.server.realms :: Owns(s', m, r))
  {
    var s' := StepRealm(s, m, fault, pick);
    assert RealmWorkerOK(s, m) && RealmWorkerHolds(s, m) && RealmOK(s, m);
    RealmAdminEffect(s, m, fault, pick);
    RealmRequestFrame(s.store.server, RealmCall(m, RPC(s, m)).request, pick);
    RealmDropsAfterDelete(s, m, fault, pick);
    forall r | r in s'.store.server.realms ensures RealmHeld(s', r) { assert RealmHeld(s, r); }
  }

  /** The worker goes on to drop the finalizer only once the realm is gone. */
  lemma RealmDropsAfterDelete(s: State, m: Key, fault: Fault, pick: Pick)
    requires RealmCallsAdmin(RPC(s, m))
    ensures var s' := StepRealm(s, m, fault, pick);
      RPC(s', m).RDropFinalizer? ==> EffName(RPC(s', m).cr.spec) !in s'.store.server.realms
  {
  }

  lemma RealmApiHeld(s: State, m: Key, fault: Fault, pick: Pick)
    requires Common(s) && Held(s) && !RealmCallsAdmin(RPC(s, m))
    ensures var s' := StepRealm(s, m, fault, pick);
      && RealmWorkerHolds(s', m) && s'.store.server == s.store.server
      && forall r | r in s'.store.server.realms :: RealmHeld(s', r)
  {
    if RealmWrites(RPC(s, m)) { RealmWriteHeld(s, m, fault, pick); } else { RealmReadHeld(s, m, fault, pick); }
  }

  lemma RealmWriteHeld(s: State, m: Key, fault: Fault, pick: Pick)
    requires Common(s) && Held(s) && RealmWrites(RPC(s, m))
    ensures var s' := StepRealm(s, m, fault, pick);
      && RPC(s', m).RIdle? && s'.store.server == s.store.server
      && forall r | r in s'.store.server.realms :: RealmHeld(s', r)
  {
    var s' := StepRealm(s, m, fault, pick);
    assert RealmWorkerOK(s, m) && RealmWorkerHolds(s, m) && RealmOK(s, m);
    RealmWriteEffect(s, m, fault, pick);
    forall r | r in s'.store.server.realms ensures RealmHeld(s', r) { assert RealmHeld(s, r); }
  }

  lemma RealmReadHeld(s: State, m: Key, fault: Fault, pick: Pick)
    requires Common(s) && Held(s) && !RealmWrites(RPC(s, m)) && !RealmCallsAdmin(RPC(s, m))
    ensures var s' := StepRealm(s, m, fault, pick);
      && RealmWorkerHolds(s', m) && s'.store.server == s.store.server
      && forall r | r in s'.store.server.realms :: RealmHeld(s', r)
  {
    var s' := StepRealm(s, m, fault, pick);
    RealmReadEffect(s, m, fault, pick);
    forall r | r in s'.store.server.realms ensures RealmHeld(s', r) { assert RealmHeld(s, r); }
  }

  lemma RealmStepKeeps(rules: Rules, s: State, m: Key, fault: Fault, pick: Pick)
    requires Inv(rules, s)
    ensures Inv(rules, StepRealm(s, m, fault, pick))
  {
    var s' := StepRealm(s, m, fault, pick);
    assert RealmOK(s, m) && RealmWorkerOK(s, m);
    if RealmCallsAdmin(RPC(s, m)) {
      RealmAdminStep(s, m, fault, pick);
      if Keeping(rules) { RealmAdminHeld(s, m, fault, pick); }
    } else {
      RealmApiFrame(s, m, fault, pick);
      RealmApiLocal(s, m, fault, pick);
      if Keeping(rules) { RealmApiHeld(s, m, fault, pick); }
    }
    OnlyRealmKeepsCommon(s, s', m);
    if Keeping(rules) { OnlyRealmKeepsHeld(s, s', m); }
  }

  // ---------- Client workers ----------

  predicate ClientCallsAdmin(pc: ClientPC) {
    HasRealm(pc) && (pc.CDelFind? || pc.CDelClient? || pc.CFind? || pc.CPost? || pc.CFindAgain? || pc.CPut? || pc.CGetSecret?)
  }

  predicate ClientWrites(pc: ClientPC) {
    pc.CAddFinalizer? || pc.CDropFinalizer? || pc.CMarkReady? || pc.CMark?
  }

  predicate AboutClients(req: Request) {
    req.ListClients? || req.PostClient? || req.PutClient? || req.DeleteClient? || req.GetSecret?
  }

  /** Requests about the clients of a realm add at most the posted one and give nobody a new id. */
  lemma ClientRequestFrame(server: Server, req: Request, pick: Pick, c: string)
    requires ServerOK(server) && AboutClients(req)
    requires req.PostClient? ==> req.rep.clientID == c
    ensures var server' := Handle(server, req, pick).0;
      && ServerOK(server') && server'.realms.Keys == server.realms.Keys
      && NoNewClients(server, server', req.realm, c) && SameID(server, server', req.realm, c)
      && (HasClient(server', req.realm, c) && !HasClient(server, req.realm, c) ==> req.PostClient?)
  {
    HandleKeepsWellFormed(server, req, pick);
    if req.realm in server.realms {
      if req.PostClient? { PostFrame(server, req, pick); } else { NoPostFrame(server, req, pick); }
    }
  }

  lemma PostFrame(server: Server, req: Request, pick: Pick)
    requires req.PostClient? && req.realm in server.realms
    ensures var server', c := Handle(server, req, pick).0, req.rep.clientID;
      server'.realms.Keys == server.realms.Keys && NoNewClients(server, server', req.realm, c) && SameID(server, server', req.realm, c)
  {
  }

  lemma NoPostFrame(server: Server, req: Request, pick: Pick)
    requires AboutClients(req) && !req.PostClient? && req.realm in server.realms
    ensures var server' := Handle(server, req, pick).0;
      && server'.realms.Keys == server.realms.Keys
      && forall r, c | HasClient(server', r, c) ::
           HasClient(server, r, c) && server'.realms[r].clients[c].id == server.realms[r].clients[c].id
  {
  }

  lemma DeleteRemoves(server: Server, r: string, id: nat, pick: Pick, c: string)
    ensures var (server', reply) := Handle(server, DeleteClient(r, id), pick);
      && reply.status in {204, 404}
      && (reply.status == 204 && HasClient(server', r, c) ==> server'.realms[r].clients[c].id != id)
  {
  }

  lemma ListFinds(server: Server, r: string, c: string, pick: Pick)
    requires WellFormed(server)
    ensures var reply := Handle(server, ListClients(r, c), pick).1;
      if r in server.realms then
        && reply.status == 200 && reply.body.Listing?
        && FirstExact(reply.body.clients, c) ==
           if HasClient(server, r, c) then Some(server.realms[r].clients[c]) else None
      else reply.status == 404
  {
    if r in server.realms {
      assert ClientsOK(server.realms[r].clients, server.nextID);
      ListingIsExact(server.realms[r].clients, c, pick);
    }
  }

  /** Which requests the client worker sends: always into its own realm, for its own client id. */
  lemma AdminRequests(k: Key, pc: ClientPC)
    requires ClientCallsAdmin(pc)
    ensures ClientCall(k, pc).Admin?
    ensures var req := ClientCall(k, pc).request;
      && AboutClients(req) && req.realm == pc.realm
      && (req.PostClient? ==> req.rep.clientID == EffClientID(k, pc.kc.spec))
  {
  }

  /** An admin call changes the server alone, and the worker goes on with the same locals. */
  lemma AdminEffect(s: State, k: Key, fault: Fault, pick: Pick)
    requires ClientCallsAdmin(CPC(s, k))
    ensures var s', pc := StepClient(s, k, fault, pick), CPC(s, k);
      var req, pc' := ClientCall(k, pc).request, CPC(s', k);
      && s' == s.(store := s.store.(server := s'.store.server), clientPCs := s.clientPCs[k := pc'])
      && (s'.store.server == s.store.server || s'.store.server == Handle(s.store.server, req, pick).0)
      && (pc'.CIdle? || (HasKC(pc') && pc'.kc == pc.kc && !pc'.CGetRealm? && !pc'.CAddFinalizer?))
      && (HasRealm(pc') ==> pc'.realm == pc.realm && (Releasing(pc) <==> Releasing(pc')))
  {
    var pc := CPC(s, k);
    AdminRequests(k, pc);
    PerformAdmin(s.store, ClientCall(k, pc).request, fault, pick);
    AdminResumes(k, pc, Perform(s.store, ClientCall(k, pc), fault, pick).1);
  }

  lemma PerformAdmin(st: Store, req: Request, fault: Fault, pick: Pick)
    ensures var st' := Perform(st, Admin(req), fault, pick).0;
      st' == st.(server := st'.server) && (st'.server == st.server || st'.server == Handle(st.server, req, pick).0)
  {
  }

  lemma AdminResumes(k: Key, pc: ClientPC, answer: Answer)
    requires ClientCallsAdmin(pc)
    ensures var pc' := ClientResume(k, pc, answer);
      && (pc'.CIdle? || (HasKC(pc') && pc'.kc == pc.kc && !pc'.CGetRealm? && !pc'.CAddFinalizer?))
      && (HasRealm(pc') ==> pc'.realm == pc.realm && (Releasing(pc) <==> Releasing(pc')))
  {
  }

  lemma ClientAdminFrame(s: State, k: Key, fault: Fault, pick: Pick)
    requires Common(s) && ClientCallsAdmin(CPC(s, k))
    ensures var s', pc := StepClient(s, k, fault, pick), CPC(s, k);
      var r, c := pc.realm, EffClientID(k, pc.kc.spec);
      && OnlyClient(s, s', k, r, c)
      && SameID(s.store.server, s'.store.server, r, c)
      && Fresh(s', k, r, c)
  {
    var pc := CPC(s, k);
    assert ClientWorkerOK(s, k) && ClientOK(s, k);
    AdminRequests(k, pc);
    AdminEffect(s, k, fault, pick);
    ClientServerFrame(s.store.server, StepClient(s, k, fault, pick).store.server, ClientCall(k, pc).request, pick,
                      EffClientID(k, pc.kc.spec));
  }

  lemma ClientServerFrame(server: Server, server': Server, req: Request, pick: Pick, c: string)
    requires ServerOK(server) && AboutClients(req) && (req.PostClient? ==> req.rep.clientID == c)
    requires server' in {server, Handle(server, req, pick).0}
    ensures ServerOK(server') && server'.realms.Keys == server.realms.Keys
    ensures NoNewClients(server, server', req.realm, c) && SameID(server, server', req.realm, c)
  {
    ClientRequestFrame(server, req, pick, c);
  }

  /** After a clean listing or a successful delete, the client is gone; otherwise its id is known. */
  lemma ReleaseProgress(s: State, k: Key, fault: Fault, pick: Pick)
    requires ServerOK(s.store.server)
    requires CPC(s, k).CDelFind? || CPC(s, k).CDelClient?
    requires HasRealm(CPC(s, k)) && LocalsOK(s, k, CPC(s, k))
    ensures var s', pc := StepClient(s, k, fault, pick), CPC(s, k);
      var r, c, pc' := pc.realm, EffClientID(k, pc.kc.spec), CPC(s', k);
      && (Cleaned(pc') ==> !HasClient(s'.store.server, r, c))
      && (pc'.CDelClient? && HasClient(s'.store.server, r, c) ==> s'.store.server.realms[r].clients[c].id == pc'.id)
  {
    if CPC(s, k).CDelFind? { LookupProgress(s, k, fault, pick); } else { DeleteProgress(s, k, fault, pick); }
  }

  lemma LookupProgress(s: State, k: Key, fault: Fault, pick: Pick)
    requires ServerOK(s.store.server) && CPC(s, k).CDelFind?
    ensures var s', pc := StepClient(s, k, fault, pick), CPC(s, k);
      var r, c, pc' := pc.realm, EffClientID(k, pc.kc.spec), CPC(s', k);
      && s'.store.server == s.store.server
      && (Cleaned(pc') ==> !HasClient(s'.store.server, r, c))
      && (pc'.CDelClient? ==> HasClient(s'.store.server, r, c) && s'.store.server.realms[r].clients[c].id == pc'.id)
  {
    var pc := CPC(s, k);
    ListFinds(s.store.server, pc.realm, EffClientID(k, pc.kc.spec), pick);
  }

  lemma DeleteProgress(s: State, k: Key, fault: Fault, pick: Pick)
    requires ServerOK(s.store.server) && CPC(s, k).CDelClient? && LocalsOK(s, k, CPC(s, k))
    ensures var s', pc := StepClient(s, k, fault, pick), CPC(s, k);
      var pc' := CPC(s', k);
      !pc'.CDelClient? && (Cleaned(pc') ==> !HasClient(s'.store.server, pc.realm, EffClientID(k, pc.kc.spec)))
  {
    var pc := CPC(s, k);
    DeleteClears(s.store.server, pc.realm, pc.id, pick, EffClientID(k, pc.kc.spec));
  }

  /** Deleting by the client's identifier leaves no such client, whether the answer is 204 or 404. */
  lemma DeleteClears(server: Server, r: string, id: nat, pick: Pick, c: string)
    requires ServerOK(server) && (HasClient(server, r, c) ==> server.realms[r].clients[c].id == id)
    ensures !HasClient(Handle(server, DeleteClient(r, id), pick).0, r, c)
  {
    ClientRequestFrame(server, DeleteClient(r, id), pick, c);
    DeleteRemoves(server, r, id, pick, c);
  }

  lemma ClientAdminLocal(s: State, k: Key, fault: Fault, pick: Pick)
    requires Common(s) && ClientCallsAdmin(CPC(s, k))
    ensures ClientOK(StepClient(s, k, fault, pick), k) && ClientWorkerOK(StepClient(s, k, fault, pick), k)
  {
    assert ClientWorkerOK(s, k) && ClientOK(s, k);
    AdminEffect(s, k, fault, pick);
    if Releasing(CPC(s, k)) {
      ReleaseProgress(s, k, fault, pick);
    }
  }

  lemma ClientWriteEffect(s: State, k: Key, fault: Fault, pick: Pick)
    requires ClientWrites(CPC(s, k)) && ClientWorkerOK(s, k)
    ensures var s', pc := StepClient(s, k, fault, pick), CPC(s, k);
      && s' == s.(store := s'.store, clientPCs := s.clientPCs[k := CIdle])
      && (s'.store == s.store ||
          (k in s.store.clients && s.store.clients[k] == pc.kc &&
           s'.store == PutClientCR(s.store, k, ClientCall(k, pc).client)))
  {
  }

  /** The remaining calls change at most the tenant secrets. */
  lemma ClientOtherEffect(s: State, k: Key, fault: Fault, pick: Pick)
    requires !ClientWrites(CPC(s, k)) && !ClientCallsAdmin(CPC(s, k))
    ensures var s', pc := StepClient(s, k, fault, pick), CPC(s, k);
      var pc' := CPC(s', k);
      && s' == s.(store := s.store.(secrets := s'.store.secrets), clientPCs := s.clientPCs[k := pc'])
      && (HasRealm(pc) ==> pc'.CIdle? || (HasKC(pc') && pc'.kc == pc.kc && !pc'.CGetRealm? && !pc'.CAddFinalizer?))
      && (HasRealm(pc) && HasRealm(pc') ==> pc'.realm == pc.realm && (Cleaned(pc') <==> Cleaned(pc)) && !pc'.CDelClient?)
      && (pc.CIdle? ==> pc'.CGetCR?)
      && (pc.CGetCR? ==> pc'.CIdle? || (pc'.CGetRealm? && k in s.store.clients && pc'.kc == s.store.clients[k]))
  {
    var pc := CPC(s, k);
    if HasRealm(pc) { ClientSecretEffect(s, k, fault, pick); }
  }

  /** Calls with the realm resolved that neither reach Keycloak nor write the object. */
  lemma ClientSecretEffect(s: State, k: Key, fault: Fault, pick: Pick)
    requires HasRealm(CPC(s, k)) && !ClientWrites(CPC(s, k)) && !ClientCallsAdmin(CPC(s, k))
    ensures var s', pc := StepClient(s, k, fault, pick), CPC(s, k);
      var pc' := CPC(s', k);
      && s' == s.(store := s.store.(secrets := s'.store.secrets), clientPCs := s.clientPCs[k := pc'])
      && (pc'.CIdle? || (HasKC(pc') && pc'.kc == pc.kc && !pc'.CGetRealm? && !pc'.CAddFinalizer?))
      && (HasRealm(pc') ==> pc'.realm == pc.realm && (Cleaned(pc') <==> Cleaned(pc)) && !pc'.CDelClient?)
  {
  }

  lemma ClientApiFrame(s: State, k: Key, fault: Fault, pick: Pick)
    requires Common(s) && !ClientCallsAdmin(CPC(s, k))
    ensures var s' := StepClient(s, k, fault, pick);
      OnlyClient(s, s', k, "", "") && s'.store.server == s.store.server && s'.clientOwner == s.clientOwner
  {
    assert ClientWorkerOK(s, k);
    if ClientWrites(CPC(s, k)) {
      ClientWriteEffect(s, k, fault, pick);
    } else {
      ClientOtherEffect(s, k, fault, pick);
    }
  }

  lemma ClientWriteLocal(s: State, k: Key, fault: Fault, pick: Pick)
    requires Common(s) && ClientWrites(CPC(s, k))
    ensures ClientOK(StepClient(s, k, fault, pick), k) && ClientWorkerOK(StepClient(s, k, fault, pick), k)
  {
    assert ClientWorkerOK(s, k) && ClientOK(s, k);
    ClientWriteEffect(s, k, fault, pick);
  }

  lemma ResolveLocal(s: State, k: Key, fault: Fault, pick: Pick)
    requires Common(s) && CPC(s, k).CGetRealm?
    ensures ClientWorkerOK(StepClient(s, k, fault, pick), k)
  {
    assert ClientWorkerOK(s, k) && ClientOK(s, k);
    assert RealmOK(s, RefKey(k, CPC(s, k).kc.spec));
  }

  lemma ClientOtherLocal(s: State, k: Key, fault: Fault, pick: Pick)
    requires Common(s) && !ClientWrites(CPC(s, k)) && !ClientCallsAdmin(CPC(s, k))
    ensures ClientOK(StepClient(s, k, fault, pick), k) && ClientWorkerOK(StepClient(s, k, fault, pick), k)
  {
    assert ClientWorkerOK(s, k) && ClientOK(s, k);
    ClientOtherEffect(s, k, fault, pick);
    if CPC(s, k).CGetRealm? {
      ResolveLocal(s, k, fault, pick);
    }
  }

  lemma ClientAdminHeld(s: State, k: Key, fault: Fault, pick: Pick)
    requires Common(s) && Held(s) && ClientCallsAdmin(CPC(s, k))
    ensures var s' := StepClient(s, k, fault, pick);
      forall r, c | HasClient(s'.store.server, r, c) && Fresh(s', k, r, c) :: EntryHeld(s', r, c)
    ensures ClientWorkerHolds(StepClient(s, k, fault, pick), k)
  {
    assert ClientWorkerHolds(s, k);
    var s' := StepClient(s, k, fault, pick);
    assert ClientWorkerOK(s, k);
    AdminEffect(s, k, fault, pick);
    ClientAdminFrame(s, k, fault, pick);
    if Releasing(CPC(s, k)) {
      ReleaseProgress(s, k, fault, pick);
    }
    forall r, c | HasClient(s'.store.server, r, c) && Fresh(s', k, r, c) ensures EntryHeld(s', r, c) {
      assert EntryHeld(s, r, c);
    }
  }

  lemma ClientWriteHeld(s: State, k: Key, fault: Fault, pick: Pick)
    requires Common(s) && Held(s) && ClientWrites(CPC(s, k))
    ensures var s' := StepClient(s, k, fault, pick);
      forall r, c | HasClient(s'.store.server, r, c) && Fresh(s', k, r, c) :: EntryHeld(s', r, c)
    ensures ClientWorkerHolds(StepClient(s, k, fault, pick), k)
  {
    assert ClientWorkerHolds(s, k);
    var s' := StepClient(s, k, fault, pick);
    assert ClientWorkerOK(s, k);
    ClientWriteEffect(s, k, fault, pick);
    forall r, c | HasClient(s'.store.server, r, c) && Fresh(s', k, r, c) ensures EntryHeld(s', r, c) {
      assert EntryHeld(s, r, c);
    }
  }

  /** The realm name a worker resolves is where its client, if any, already lives. */
  lemma ResolveHeld(s: State, k: Key, fault: Fault, pick: Pick, r: string, c: string)
    requires Common(s) && Held(s) && CPC(s, k).CGetRealm?
    requires HasClient(s.store.server, r, c) && Fresh(s, k, r, c)
    ensures EntryHeld(StepClient(s, k, fault, pick), r, c)
  {
    assert ClientWorkerOK(s, k) && EntryHeld(s, r, c) && RealmHeld(s, r);
  }

  lemma ClientOtherHeld(s: State, k: Key, fault: Fault, pick: Pick)
    requires Common(s) && Held(s) && !ClientWrites(CPC(s, k)) && !ClientCallsAdmin(CPC(s, k))
    ensures var s' := StepClient(s, k, fault, pick);
      forall r, c | HasClient(s'.store.server, r, c) && Fresh(s', k, r, c) :: EntryHeld(s', r, c)
    ensures ClientWorkerHolds(StepClient(s, k, fault, pick), k)
  {
    assert ClientWorkerHolds(s, k);
    var s' := StepClient(s, k, fault, pick);
    assert ClientWorkerOK(s, k);
    ClientOtherEffect(s, k, fault, pick);
    forall r, c | HasClient(s'.store.server, r, c) && Fresh(s', k, r, c) ensures EntryHeld(s', r, c) {
      assert EntryHeld(s, r, c);
      if CPC(s, k).CGetRealm? {
        ResolveHeld(s, k, fault, pick, r, c);
      }
    }
  }

  lemma ClientStepKeeps(rules: Rules, s: State, k: Key, fault: Fault, pick: Pick)
    requires Inv(rules, s)
    ensures Inv(rules, StepClient(s, k, fault, pick))
  {
    var s', pc := StepClient(s, k, fault, pick), CPC(s, k);
    if ClientCallsAdmin(pc) {
      ClientAdminFrame(s, k, fault, pick);
      ClientAdminLocal(s, k, fault, pick);
      OnlyClientKeepsCommon(s, s', k, pc.realm, EffClientID(k, pc.kc.spec));
      if Keeping(rules) {
        ClientAdminHeld(s, k, fault, pick);
        OnlyClientKeepsHeld(s, s', k, pc.realm, EffClientID(k, pc.kc.spec));
      }
    } else {
      ClientApiFrame(s, k, fault, pick);
      if ClientWrites(pc) { ClientWriteLocal(s, k, fault, pick); } else { ClientOtherLocal(s, k, fault, pick); }
      OnlyClientKeepsCommon(s, s', k, "", "");
      if Keeping(rules) {
        if ClientWrites(pc) { ClientWriteHeld(s, k, fault, pick); } else { ClientOtherHeld(s, k, fault, pick); }
        OnlyClientKeepsHeld(s, s', k, "", "");
      }
    }
  }

  // ---------- Runs ----------

  lemma RealmCrashKeeps(rules: Rules, s: State, m: Key)
    requires Inv(rules, s)
    ensures Inv(rules, s.(realmPCs := s.realmPCs[m := RIdle]))
  {
    var s' := s.(realmPCs := s.realmPCs[m := RIdle]);
    assert RealmOK(s, m);
    OnlyRealmKeepsCommon(s, s', m);
    if Keeping(rules) {
      forall n | n in s.store.server.realms ensures RealmHeld(s', n) { assert RealmHeld(s, n); }
      OnlyRealmKeepsHeld(s, s', m);
    }
  }

  lemma ClientCrashKeeps(rules: Rules, s: State, k: Key)
    requires Inv(rules, s)
    ensures Inv(rules, s.(clientPCs := s.clientPCs[k := CIdle]))
  {
    var s' := s.(clientPCs := s.clientPCs[k := CIdle]);
    assert ClientOK(s, k);
    OnlyClientKeepsCommon(s, s', k, "", "");
    if Keeping(rules) {
      forall r, c | HasClient(s.store.server, r, c) ensures EntryHeld(s', r, c) { assert EntryHeld(s, r, c); }
      OnlyClientKeepsHeld(s, s', k, "", "");
    }
  }

  lemma HistoryKeeps(rules: Rules, s: State, names: set<string>)
    requires Inv(rules, s)
    ensures Inv(rules, s.(readyNames := names))
  {
    var h := s.(readyNames := names);
    assert RealmOK(s, Key("", "")) && RealmWorkerOK(s, Key("", "")) && RealmWorkerHolds(h, Key("", "")) == RealmWorkerHolds(s, Key("", ""));
    OnlyRealmKeepsCommon(s, h, Key("", ""));
    if Keeping(rules) {
      forall n | n in s.store.server.realms ensures RealmHeld(h, n) { assert RealmHeld(s, n); }
      OnlyRealmKeepsHeld(s, h, Key("", ""));
    }
  }

  lemma ActionKeeps(rules: Rules, s: State, a: Action)
    requires Tidy(rules) && Inv(rules, s)
    ensures Inv(rules, Apply(rules, s, a))
  {
    match a {
      case RealmStep(m, fault, pick) =>
        RealmStepKeeps(rules, s, m, fault, pick);
        HistoryKeeps(rules, StepRealm(s, m, fault, pick), Apply(rules, s, a).readyNames);
      case ClientStep(k, fault, pick) =>
        ClientStepKeeps(rules, s, k, fault, pick);
        HistoryKeeps(rules, StepClient(s, k, fault, pick), Apply(rules, s, a).readyNames);
      case RealmCrash(m) =>
        RealmCrashKeeps(rules, s, m);
        HistoryKeeps(rules, s.(realmPCs := s.realmPCs[m := RIdle]), Apply(rules, s, a).readyNames);
      case ClientCrash(k) =>
        ClientCrashKeeps(rules, s, k);
        HistoryKeeps(rules, s.(clientPCs := s.clientPCs[k := CIdle]), Apply(rules, s, a).readyNames);
      case User(u) =>
        if Allowed(rules, s, u) {
          UserKeepsCommon(rules, s, u);
          if Keeping(rules) { UserKeepsHeld(s, u); }
          HistoryKeeps(rules, UserStep(s, u), Apply(rules, s, a).readyNames);
        } else {
          HistoryKeeps(rules, s, Apply(rules, s, a).readyNames);
        }
    }
  }

  lemma {:induction false} RunKeeps(rules: Rules, run: seq<Action>)
    requires Tidy(rules)
    ensures Inv(rules, Exec(rules, START, run))
  {
    if run == [] {
      StartInv(rules);
    } else {
      var last := |run| - 1;
      RunKeeps(rules, run[..last]);
      ActionKeeps(rules, Exec(rules, START, run[..last]), run[last]);
    }
  }

  // ---------- The theorems ----------

  /** The realm a teardown of k starting now would aim at; "" when none is known. */
  function TeardownRealm(st: Store, k: Key): string
    requires k in st.clients
  {
    var kc := st.clients[k];
    var ref := RefKey(k, kc.spec);
    if kc.status.realm != "" then kc.status.realm
    else if ref in st.realms then EffName(st.realms[ref].spec)
    else ""
  }

  /** k carries the finalizer, and tearing it down now would aim at exactly this client. */
  predicate Answers(st: Store, k: Key, r: string, c: string) {
    && k in st.clients && FINALIZER in st.clients[k].finalizers
    && EffClientID(k, st.clients[k].spec) == c
    && TeardownRealm(st, k) == r
  }

  /** Each Keycloak realm has a KeycloakRealm with the finalizer, and each client
      a KeycloakClient with the finalizer whose teardown would find it. */
  ghost predicate Covered(st: Store) {
    && (forall r | r in st.server.realms :: exists m ::
          m in st.realms && FINALIZER in st.realms[m].finalizers && EffName(st.realms[m].spec) == r)
    && (forall r, c | HasClient(st.server, r, c) :: exists k :: Answers(st, k, r, c))
  }

  lemma ReachableInv(rules: Rules, s: State)
    requires Tidy(rules) && Reachable(rules, s)
    ensures Inv(rules, s)
  {
    var run :| s == Exec(rules, START, run);
    RunKeeps(rules, run);
  }

  /** Nothing in Keycloak is orphaned, in any reachable state. */
  lemma {:induction false} NoOrphans(s: State)
    requires Reachable(STRICT, s)
    ensures Covered(s.store)
  {
    ReachableInv(STRICT, s);
    forall r | r in s.store.server.realms ensures exists m ::
      m in s.store.realms && FINALIZER in s.store.realms[m].finalizers && EffName(s.store.realms[m].spec) == r {
      assert RealmHeld(s, r);
    }
    forall r, c | HasClient(s.store.server, r, c) ensures exists k :: Answers(s.store, k, r, c) {
      assert EntryHeld(s, r, c) && RealmHeld(s, r);
      assert Answers(s.store, s.clientOwner[Target(s.realmOwner[r], c)], r, c);
    }
  }

  predicate HasFinalizer(st: Store, k: Key) {
    k in st.clients && FINALIZER in st.clients[k].finalizers
  }

  /** The resource is released by a worker that holds its current copy, and the
      client is gone from the realm that worker resolved: the pinned one, if any. */
  ghost predicate CleanRelease(s: State, s': State, k: Key) {
    var pc := CPC(s, k);
    && pc.CDropFinalizer? && k in s.store.clients && s.store.clients[k] == pc.kc
    && pc.kc.status.realm in {"", pc.realm}
    && !HasClient(s'.store.server, pc.realm, EffClientID(k, pc.kc.spec))
  }

  lemma ReleaseIsClean(s: State, k: Key, fault: Fault, pick: Pick)
    requires Common(s) && HasFinalizer(s.store, k) && !HasFinalizer(StepClient(s, k, fault, pick).store, k)
    ensures CleanRelease(s, StepClient(s, k, fault, pick), k)
  {
    assert ClientWorkerOK(s, k);
    if ClientWrites(CPC(s, k)) {
      OnlyDropReleases(s, k, fault, pick);
    } else {
      OnlyWritesTouchClients(s, k, fault, pick);
    }
  }

  /** Of the writes, only the one after a clean teardown gives up the finalizer. */
  lemma OnlyDropReleases(s: State, k: Key, fault: Fault, pick: Pick)
    requires ClientWorkerOK(s, k) && ClientWrites(CPC(s, k))
    requires HasFinalizer(s.store, k) && !HasFinalizer(StepClient(s, k, fault, pick).store, k)
    ensures CPC(s, k).CDropFinalizer? && s.store.clients[k] == CPC(s, k).kc
    ensures StepClient(s, k, fault, pick).store.server == s.store.server
  {
    ClientWriteEffect(s, k, fault, pick);
  }

  lemma OnlyWritesTouchClients(s: State, k: Key, fault: Fault, pick: Pick)
    requires !ClientWrites(CPC(s, k))
    ensures StepClient(s, k, fault, pick).store.clients == s.store.clients
  {
    if ClientCallsAdmin(CPC(s, k)) {
      AdminEffect(s, k, fault, pick);
    } else {
      ClientOtherEffect(s, k, fault, pick);
    }
  }

  /** A client worker's step leaves every other client resource alone. */
  lemma StepTouchesOwn(s: State, k: Key, fault: Fault, pick: Pick, other: Key)
    requires other != k
    ensures var st' := StepClient(s, k, fault, pick).store;
      && (other in st'.clients <==> other in s.store.clients)
      && (other in s.store.clients ==> st'.clients[other] == s.store.clients[other])
  {
    if !ClientWrites(CPC(s, k)) { OnlyWritesTouchClients(s, k, fault, pick); }
  }

  lemma RealmStepLeavesClients(s: State, m: Key, fault: Fault, pick: Pick)
    ensures var s' := StepRealm(s, m, fault, pick);
      s'.store.clients == s.store.clients && s'.clientPCs == s.clientPCs && s'.store.revision >= s.store.revision
      && s'.readyNames == s.readyNames
  {
    if !RPC(s, m).RIdle? { RealmSideCalls(s.store, RealmCall(m, RPC(s, m)), fault, pick); }
  }

  lemma RealmSideCalls(st: Store, call: Call, fault: Fault, pick: Pick)
    requires call.GetRealmCR? || call.UpdateRealmCR? || call.StatusRealmCR? || call.Admin?
    ensures var st' := Perform(st, call, fault, pick).0; st'.clients == st.clients && st'.revision >= st.revision
  {
  }

  /** Nobody but its worker, and users who strip it, take a client resource's finalizer away. */
  lemma OthersKeepFinalizer(rules: Rules, s: State, a: Action, k: Key)
    requires !rules.stripClients && HasFinalizer(s.store, k) && !(a.ClientStep? && a.key == k)
    ensures HasFinalizer(Apply(rules, s, a).store, k)
  {
    match a {
      case ClientStep(j, fault, pick) => StepTouchesOwn(s, j, fault, pick, k);
      case RealmStep(m, fault, pick) => RealmStepLeavesClients(s, m, fault, pick);
      case User(u) => if Allowed(rules, s, u) { UserKeepsFinalizer(rules, s, u, k); }
      case _ =>
    }
  }

  lemma UserKeepsFinalizer(rules: Rules, s: State, u: UserAct, k: Key)
    requires !rules.stripClients && HasFinalizer(s.store, k) && Allowed(rules, s, u)
    ensures HasFinalizer(UserStep(s, u).store, k)
  {
  }

  /** Even when realm finalizers are stripped and realms and clients renamed, a
      client resource gives up its finalizer only once its client is gone from
      the realm its teardown resolved, which for a pinned resource is the pinned
      realm. */
  lemma {:induction false} ClientGoesFirst(rules: Rules, s: State, a: Action, s': State, k: Key)
    requires Tidy(rules) && Reachable(rules, s) && s' == Apply(rules, s, a)
    requires HasFinalizer(s.store, k) && !HasFinalizer(s'.store, k)
    ensures CleanRelease(s, s', k)
  {
    ReachableInv(rules, s);
    if a.ClientStep? && a.key == k {
      ReleaseIsClean(s, k, a.fault, a.pick);
    } else {
      OthersKeepFinalizer(rules, s, a, k);
    }
  }
}
