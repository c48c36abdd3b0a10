// What a Ready realm resource is worth: as long as the condition is stamped with
// its generation, it is not being deleted and its realm exists. The readiness
// gate does not check the generation, so this is exactly where it can be wrong.
module Readiness {
  import opened Kube
  import opened KeycloakServer
  import opened Machine
  import opened NoOrphan

  /** Realm names have one owner at a time, and realm finalizers stay. */
  predicate Orderly(rules: Rules) {
    !rules.naming.Free? && !rules.stripRealms
  }

  /** Ready at its generation; with names fixed, Ready and not being deleted is enough. */
  predicate Current(rules: Rules, cr: RealmCR) {
    cr.status.mark == Ready(cr.generation) || (rules.naming.Fixed? && cr.status.mark.Ready? && !cr.deleting)
  }

  predicate Taken(s: State, m: Key, name: string) {
    name in s.realmOwner && s.realmOwner[name] == m
  }

  ghost predicate ResourceSound(rules: Rules, s: State, m: Key) {
    m in s.store.realms ==>
      var cr := s.store.realms[m];
      && cr.revision <= s.store.revision && Taken(s, m, EffName(cr.spec))
      && (cr.status.mark.Ready? ==> cr.status.mark.generation <= cr.generation)
      && (cr.status.mark == Ready(cr.generation) ==> !cr.deleting)
      && (Current(rules, cr) ==> EffName(cr.spec) in s.store.server.realms)
  }

  ghost predicate WorkerSound(s: State, m: Key) {
    var pc := RPC(s, m);
    !pc.RIdle? && !pc.RGetCR? ==>
      && pc.cr.revision <= s.store.revision
      && (m in s.store.realms && s.store.realms[m].revision == pc.cr.revision ==> s.store.realms[m] == pc.cr)
      && (RealmBusy(pc) ==>
            && m in s.store.realms && FINALIZER in s.store.realms[m].finalizers && Taken(s, m, EffName(pc.cr.spec))
            && (pc.cr.deleting ==> s.store.realms[m].deleting))
      && (pc.RDeleteRealm? ==> pc.cr.deleting)
      && (RealmBusy(pc) && !pc.RDeleteRealm? && !pc.RDropFinalizer? ==> !pc.cr.deleting)
      && (pc.RMark? && pc.ok ==> EffName(pc.cr.spec) in s.store.server.realms)
  }

  ghost predicate Sound(rules: Rules, s: State) {
    (forall m :: ResourceSound(rules, s, m)) && (forall m :: WorkerSound(s, m))
  }

  /** An actor working on the realm resource m: names pass to m only when their
      owner is gone, and only m's own realms disappear. */
  ghost predicate Touches(s: State, s': State, m: Key) {
    && s'.store.revision >= s.store.revision
    && (forall name | name in s.realmOwner ::
          && name in s'.realmOwner
          && (s'.realmOwner[name] == s.realmOwner[name] || (s'.realmOwner[name] == m && s.realmOwner[name] !in s.store.realms)))
    && (forall r | r in s.store.server.realms && r !in s'.store.server.realms :: Taken(s, m, r))
    && (forall n | n != m :: RPC(s', n) == RPC(s, n))
    && (forall n | n != m :: n in s'.store.realms <==> n in s.store.realms)
    && (forall n | n != m && n in s.store.realms :: s'.store.realms[n] == s.store.realms[n])
  }

  lemma TouchingKeepsSound(rules: Rules, s: State, s': State, m: Key)
    requires Sound(rules, s) && Touches(s, s', m) && ResourceSound(rules, s', m) && WorkerSound(s', m)
    ensures Sound(rules, s')
  {
    forall n ensures ResourceSound(rules, s', n) { assert ResourceSound(rules, s, n); }
    forall n ensures WorkerSound(s', n) { assert WorkerSound(s, n); }
  }

  /** Steps that leave the realm side as it is. */
  lemma ElsewhereKeepsSound(rules: Rules, s: State, s': State)
    requires Sound(rules, s)
    requires s'.store.realms == s.store.realms && s'.realmPCs == s.realmPCs && s'.realmOwner == s.realmOwner
    requires s'.store.revision >= s.store.revision && s'.store.server.realms.Keys == s.store.server.realms.Keys
    ensures Sound(rules, s')
  {
    forall n ensures ResourceSound(rules, s', n) { assert ResourceSound(rules, s, n); }
    forall n ensures WorkerSound(s', n) { assert WorkerSound(s, n); }
  }

  // ---------- Realm workers ----------

  lemma AdminKeepsSound(rules: Rules, s: State, m: Key, fault: Fault, pick: Pick)
    requires Sound(rules, s) && RealmCallsAdmin(RPC(s, m))
    ensures Sound(rules, StepRealm(s, m, fault, pick))
  {
    var s' := StepRealm(s, m, fault, pick);
    assert ResourceSound(rules, s, m) && WorkerSound(s, m);
    RealmAdminEffect(s, m, fault, pick);
    RealmRequestKeys(s.store.server, RealmCall(m, RPC(s, m)).request, pick);
    RealmAnswers(s, m, fault, pick);
    TouchingKeepsSound(rules, s, s', m);
  }

  /** A request about a realm adds or removes at most that realm. */
  lemma RealmRequestKeys(server: Server, req: Request, pick: Pick)
    requires req.GetRealm? || req.PutRealm? || req.PostRealm? || req.DeleteRealm?
    ensures Handle(server, req, pick).0.realms.Keys ==
            if req.PostRealm? then server.realms.Keys + {req.realmRep.realm}
            else if req.DeleteRealm? then server.realms.Keys - {req.realm}
            else server.realms.Keys
  {
  }

  /** The worker records success only of a realm that is there. */
  lemma RealmAnswers(s: State, m: Key, fault: Fault, pick: Pick)
    requires RealmCallsAdmin(RPC(s, m))
    ensures var s' := StepRealm(s, m, fault, pick);
      && (RPC(s', m).RMark? && RPC(s', m).ok ==> EffName(RPC(s', m).cr.spec) in s'.store.server.realms)
      && !RPC(s', m).RDeleteRealm?
  {
  }

  lemma WriteKeepsSound(rules: Rules, s: State, m: Key, fault: Fault, pick: Pick)
    requires Sound(rules, s) && RealmWrites(RPC(s, m))
    ensures Sound(rules, StepRealm(s, m, fault, pick))
  {
    assert ResourceSound(rules, s, m) && WorkerSound(s, m);
    RealmUpdateEffect(s, m, fault, pick);
    TouchingKeepsSound(rules, s, StepRealm(s, m, fault, pick), m);
  }

  /** A write either has no effect or meets the object exactly as it was read. */
  lemma RealmUpdateEffect(s: State, m: Key, fault: Fault, pick: Pick)
    requires RealmWrites(RPC(s, m)) && WorkerSound(s, m)
    ensures var s', pc := StepRealm(s, m, fault, pick), RPC(s, m);
      && s' == s.(store := s'.store, realmPCs := s.realmPCs[m := RIdle])
      && (s'.store == s.store ||
          (m in s.store.realms && s.store.realms[m] == pc.cr &&
           s'.store == PutRealmCR(s.store, m, RealmCall(m, pc).realm)))
  {
  }

  lemma ReadKeepsSound(rules: Rules, s: State, m: Key, fault: Fault, pick: Pick)
    requires Sound(rules, s) && !RealmWrites(RPC(s, m)) && !RealmCallsAdmin(RPC(s, m))
    ensures Sound(rules, StepRealm(s, m, fault, pick))
  {
    assert ResourceSound(rules, s, m) && WorkerSound(s, m);
    RealmReadEffect(s, m, fault, pick);
    TouchingKeepsSound(rules, s, StepRealm(s, m, fault, pick), m);
  }

  // ---------- Everybody else ----------

  /** Client workers add and remove no realm. */
  lemma ClientLeavesRealms(s: State, k: Key, fault: Fault, pick: Pick)
    ensures var s' := StepClient(s, k, fault, pick);
      && s'.store.realms == s.store.realms && s'.realmPCs == s.realmPCs && s'.realmOwner == s.realmOwner
      && s'.store.revision >= s.store.revision && s'.store.server.realms.Keys == s.store.server.realms.Keys
  {
    var pc := CPC(s, k);
    if ClientCallsAdmin(pc) {
      AdminRequests(k, pc);
      AdminEffect(s, k, fault, pick);
      var req := ClientCall(k, pc).request;
      if req.realm in s.store.server.realms {
        if req.PostClient? { PostFrame(s.store.server, req, pick); } else { NoPostFrame(s.store.server, req, pick); }
      }
    } else if ClientWrites(pc) {
      ClientWriteLeavesRealms(s, k, fault, pick);
    } else {
      ClientOtherEffect(s, k, fault, pick);
    }
  }

  lemma ClientWriteLeavesRealms(s: State, k: Key, fault: Fault, pick: Pick)
    requires ClientWrites(CPC(s, k))
    ensures var s' := StepClient(s, k, fault, pick);
      && s'.store.realms == s.store.realms && s'.realmPCs == s.realmPCs && s'.realmOwner == s.realmOwner
      && s'.store.revision >= s.store.revision && s'.store.server == s.store.server
  {
    var call := ClientCall(k, CPC(s, k));
    assert call.UpdateClientCR? || call.StatusClientCR?;
    ClientWriteOnStore(s.store, call, fault, pick);
  }

  lemma ClientWriteOnStore(st: Store, call: Call, fault: Fault, pick: Pick)
    requires call.UpdateClientCR? || call.StatusClientCR?
    ensures var st' := Perform(st, call, fault, pick).0;
      st'.realms == st.realms && st'.revision >= st.revision && st'.server == st.server
  {
  }

  lemma UserKeepsSound(rules: Rules, s: State, u: UserAct)
    requires Orderly(rules) && Allowed(rules, s, u) && Sound(rules, s)
    ensures Sound(rules, UserStep(s, u))
  {
    var s' := UserStep(s, u);
    if ActsOnRealm(u) {
      assert ResourceSound(rules, s, u.key) && WorkerSound(s, u.key);
      UserTouches(rules, s, u);
      UserLocal(rules, s, u);
      TouchingKeepsSound(rules, s, s', u.key);
    } else {
      ElsewhereKeepsSound(rules, s, s');
    }
  }

  lemma UserTouches(rules: Rules, s: State, u: UserAct)
    requires Orderly(rules) && Allowed(rules, s, u) && ActsOnRealm(u) && ResourceSound(rules, s, u.key)
    ensures Touches(s, UserStep(s, u), u.key)
  {
  }

  lemma UserLocal(rules: Rules, s: State, u: UserAct)
    requires Orderly(rules) && Allowed(rules, s, u) && ActsOnRealm(u)
    requires ResourceSound(rules, s, u.key) && WorkerSound(s, u.key)
    ensures ResourceSound(rules, UserStep(s, u), u.key) && WorkerSound(UserStep(s, u), u.key)
  {
  }

  lemma CrashKeepsSound(rules: Rules, s: State, m: Key)
    requires Sound(rules, s)
    ensures Sound(rules, s.(realmPCs := s.realmPCs[m := RIdle]))
  {
    assert ResourceSound(rules, s, m);
    TouchingKeepsSound(rules, s, s.(realmPCs := s.realmPCs[m := RIdle]), m);
  }

  lemma ActionKeepsSound(rules: Rules, s: State, a: Action)
    requires Orderly(rules) && Sound(rules, s)
    ensures Sound(rules, Apply(rules, s, a))
  {
    var s' := Apply(rules, s, a);
    match a {
      case RealmStep(m, fault, pick) =>
        if RealmCallsAdmin(RPC(s, m)) { AdminKeepsSound(rules, s, m, fault, pick); }
        else if RealmWrites(RPC(s, m)) { WriteKeepsSound(rules, s, m, fault, pick); }
        else { ReadKeepsSound(rules, s, m, fault, pick); }
        ElsewhereKeepsSound(rules, StepRealm(s, m, fault, pick), s');
      case ClientStep(k, fault, pick) =>
        ClientLeavesRealms(s, k, fault, pick);
        ElsewhereKeepsSound(rules, s, s');
      case RealmCrash(m) =>
        CrashKeepsSound(rules, s, m);
        ElsewhereKeepsSound(rules, s.(realmPCs := s.realmPCs[m := RIdle]), s');
      case ClientCrash(_) => ElsewhereKeepsSound(rules, s, s');
      case User(u) =>
        if Allowed(rules, s, u) {
          UserKeepsSound(rules, s, u);
          ElsewhereKeepsSound(rules, UserStep(s, u), s');
        } else {
          ElsewhereKeepsSound(rules, s, s');
        }
    }
  }

  lemma {:induction false} RunKeepsSound(rules: Rules, run: seq<Action>)
    requires Orderly(rules)
    ensures Sound(rules, Exec(rules, START, run))
  {
    if run != [] {
      var last := |run| - 1;
      RunKeepsSound(rules, run[..last]);
      ActionKeepsSound(rules, Exec(rules, START, run[..last]), run[last]);
    }
  }

  // ---------- The theorems ----------

  /** In every reachable state, a realm resource that is Ready at its generation
      is not being deleted, and its realm exists; with names fixed, so does that
      of any Ready one that is not being deleted. */
  lemma {:induction false} ReadyRealmsExist(rules: Rules, s: State, m: Key)
    requires Orderly(rules) && Reachable(rules, s)
    requires m in s.store.realms && Current(rules, s.store.realms[m])
    ensures var spec, realms := s.store.realms[m].spec, s.store.server.realms;
      !s.store.realms[m].deleting && (if spec.realm != "" then spec.realm in realms else spec.tenantID in realms)
  {
    var run :| s == Exec(rules, START, run);
    RunKeepsSound(rules, run);
    assert ResourceSound(rules, s, m);
  }

  /** So an unpinned client is sent into a realm that exists whenever the realm
      resource read at the gate is current. */
  lemma {:induction false} GateIsSafe(rules: Rules, s: State, k: Key, fault: Fault, pick: Pick)
    requires Orderly(rules) && Reachable(rules, s) && CPC(s, k).CGetRealm? && CPC(s, k).kc.status.realm == ""
    requires CPC(StepClient(s, k, fault, pick), k).CFind?
    ensures var m := RefKey(k, CPC(s, k).kc.spec);
      && m in s.store.realms && CPC(StepClient(s, k, fault, pick), k).realm == EffName(s.store.realms[m].spec)
      && (Current(rules, s.store.realms[m]) ==>
            CPC(StepClient(s, k, fault, pick), k).realm in s.store.server.realms)
  {
    var m := RefKey(k, CPC(s, k).kc.spec);
    assert m in s.store.realms;
    if Current(rules, s.store.realms[m]) { ReadyRealmsExist(rules, s, m); }
  }
}
