// Which realm a client is provisioned into, whatever users edit or strip: the
// pinned one, or the name of a realm resource read as Ready in the same run.
// And what a pin means for a teardown whose realm is gone.
module Pinning {
  import opened Kube
  import opened KeycloakServer
  import opened Machine
  import opened NoOrphan

  /** The worker is provisioning its client into the realm it resolved. */
  predicate Provisioning(pc: ClientPC) {
    HasRealm(pc) && !Releasing(pc)
  }

  ghost predicate PinOK(s: State, k: Key) {
    k in s.store.clients ==>
      && s.store.clients[k].revision <= s.store.revision
      && (s.store.clients[k].status.realm != "" ==> s.store.clients[k].status.realm in s.readyNames)
  }

  ghost predicate PinWorkerOK(s: State, k: Key) {
    var pc := CPC(s, k);
    HasKC(pc) ==>
      && pc.kc.revision <= s.store.revision
      && (k in s.store.clients && s.store.clients[k].revision == pc.kc.revision ==> s.store.clients[k] == pc.kc)
      && (pc.kc.status.realm != "" ==> pc.kc.status.realm in s.readyNames)
      && (k in s.store.clients && s.store.clients[k].status.realm != "" ==> pc.kc.status.realm == s.store.clients[k].status.realm)
      && (HasRealm(pc) ==> pc.kc.status.realm in {"", pc.realm})
      && (Provisioning(pc) ==> pc.realm in s.readyNames && pc.realm != "")
  }

  ghost predicate PinInv(s: State) {
    && ReadyNow(s.store) <= s.readyNames
    && (forall k :: PinOK(s, k))
    && (forall k :: PinWorkerOK(s, k))
  }

  /** Steps that do not touch the client side keep everything about pins. */
  lemma OtherStepsKeepPins(s: State, s': State)
    requires PinInv(s)
    requires s'.store.clients == s.store.clients && s'.clientPCs == s.clientPCs && s'.store.revision >= s.store.revision
    requires s.readyNames <= s'.readyNames && ReadyNow(s'.store) <= s'.readyNames
    ensures PinInv(s')
  {
    forall k ensures PinOK(s', k) { assert PinOK(s, k); }
    forall k ensures PinWorkerOK(s', k) { assert PinWorkerOK(s, k); }
  }

  /** So do steps of one client's worker or users, given that client itself is in order. */
  lemma OneClientKeepsPins(s: State, s': State, k: Key)
    requires PinInv(s) && PinOK(s', k) && PinWorkerOK(s', k)
    requires s'.store.realms == s.store.realms && s'.store.revision >= s.store.revision && s'.readyNames == s.readyNames
    requires forall n | n != k :: CPC(s', n) == CPC(s, n) && (n in s'.store.clients <==> n in s.store.clients)
    requires forall n | n != k && n in s.store.clients :: s'.store.clients[n] == s.store.clients[n]
    ensures PinInv(s')
  {
    forall n ensures PinOK(s', n) { assert PinOK(s, n); }
    forall n ensures PinWorkerOK(s', n) { assert PinWorkerOK(s, n); }
  }

  // ---------- Client workers ----------

  /** The worker's write meets the object as it was read, or has no effect. */
  lemma PinWriteEffect(s: State, k: Key, fault: Fault, pick: Pick)
    requires ClientWrites(CPC(s, k)) && PinWorkerOK(s, k)
    ensures var s', pc := StepClient(s, k, fault, pick), CPC(s, k);
      && s' == s.(store := s'.store, clientPCs := s.clientPCs[k := CIdle])
      && (s'.store == s.store ||
          (k in s.store.clients && s.store.clients[k] == pc.kc &&
           s'.store == PutClientCR(s.store, k, ClientCall(k, pc).client)))
  {
  }

  lemma AdminKeepsPins(s: State, k: Key, fault: Fault, pick: Pick)
    requires PinInv(s) && ClientCallsAdmin(CPC(s, k))
    ensures PinInv(StepClient(s, k, fault, pick))
  {
    assert PinOK(s, k) && PinWorkerOK(s, k);
    AdminEffect(s, k, fault, pick);
    OneClientKeepsPins(s, StepClient(s, k, fault, pick), k);
  }

  lemma WriteKeepsPins(s: State, k: Key, fault: Fault, pick: Pick)
    requires PinInv(s) && ClientWrites(CPC(s, k))
    ensures PinInv(StepClient(s, k, fault, pick))
  {
    assert PinOK(s, k) && PinWorkerOK(s, k);
    PinWriteEffect(s, k, fault, pick);
    OneClientKeepsPins(s, StepClient(s, k, fault, pick), k);
  }

  /** The readiness gate: provisioning starts only into the pinned realm, or,
      unpinned, into the name of a realm resource that exists and is Ready now. */
  lemma ReadinessGate(s: State, k: Key, fault: Fault, pick: Pick)
    requires !Provisioning(CPC(s, k)) && Provisioning(CPC(StepClient(s, k, fault, pick), k))
    ensures var pc, pc' := CPC(s, k), CPC(StepClient(s, k, fault, pick), k);
      && pc.CGetRealm? && pc'.CFind? && pc'.kc == pc.kc
      && (pc.kc.status.realm != "" ==> pc'.realm == pc.kc.status.realm)
      && (pc.kc.status.realm == "" ==>
            var m := RefKey(k, pc.kc.spec);
            m in s.store.realms && s.store.realms[m].status.mark.Ready? && pc'.realm == EffName(s.store.realms[m].spec))
  {
    var pc := CPC(s, k);
    if ClientCallsAdmin(pc) { AdminEffect(s, k, fault, pick); }
    else if !ClientWrites(pc) { ClientOtherEffect(s, k, fault, pick); }
  }

  lemma OtherKeepsPins(s: State, k: Key, fault: Fault, pick: Pick)
    requires PinInv(s) && !ClientWrites(CPC(s, k)) && !ClientCallsAdmin(CPC(s, k))
    ensures PinInv(StepClient(s, k, fault, pick))
  {
    assert PinOK(s, k) && PinWorkerOK(s, k);
    ClientOtherEffect(s, k, fault, pick);
    var s' := StepClient(s, k, fault, pick);
    if CPC(s, k).CGetRealm? && Provisioning(CPC(s', k)) {
      ReadinessGate(s, k, fault, pick);
    }
    OneClientKeepsPins(s, s', k);
  }

  // ---------- Everybody else ----------

  lemma UserKeepsPins(s: State, u: UserAct)
    requires PinInv(s) && Allowed(FREE, s, u) && !ActsOnRealm(u)
    ensures PinInv(UserStep(s, u))
  {
    assert PinOK(s, u.key) && PinWorkerOK(s, u.key);
    OneClientKeepsPins(s, UserStep(s, u), u.key);
  }

  lemma UserLeavesClients(s: State, u: UserAct)
    requires Allowed(FREE, s, u) && ActsOnRealm(u)
    ensures var s' := UserStep(s, u);
      s'.store.clients == s.store.clients && s'.clientPCs == s.clientPCs && s'.store.revision >= s.store.revision
      && s'.readyNames == s.readyNames
  {
  }

  lemma ClientStepKeepsPins(s: State, k: Key, fault: Fault, pick: Pick)
    requires PinInv(s)
    ensures PinInv(StepClient(s, k, fault, pick))
  {
    if ClientCallsAdmin(CPC(s, k)) {
      AdminKeepsPins(s, k, fault, pick);
    } else if ClientWrites(CPC(s, k)) {
      WriteKeepsPins(s, k, fault, pick);
    } else {
      OtherKeepsPins(s, k, fault, pick);
    }
  }

  lemma ClientCrashKeepsPins(s: State, k: Key)
    requires PinInv(s)
    ensures PinInv(s.(clientPCs := s.clientPCs[k := CIdle]))
  {
    assert PinOK(s, k);
    OneClientKeepsPins(s, s.(clientPCs := s.clientPCs[k := CIdle]), k);
  }

  lemma UserActKeepsPins(rules: Rules, s: State, u: UserAct)
    requires PinInv(s) && Allowed(rules, s, u)
    ensures PinInv(Apply(rules, s, User(u)))
  {
    if ActsOnRealm(u) {
      UserLeavesClients(s, u);
      OtherStepsKeepPins(s, Apply(rules, s, User(u)));
    } else {
      UserKeepsPins(s, u);
      OtherStepsKeepPins(UserStep(s, u), Apply(rules, s, User(u)));
    }
  }

  lemma ActionKeepsPins(rules: Rules, s: State, a: Action)
    requires PinInv(s)
    ensures PinInv(Apply(rules, s, a))
  {
    var s' := Apply(rules, s, a);
    match a {
      case RealmStep(m, fault, pick) =>
        RealmStepLeavesClients(s, m, fault, pick);
        OtherStepsKeepPins(s, s');
      case ClientStep(k, fault, pick) =>
        ClientStepKeepsPins(s, k, fault, pick);
        OtherStepsKeepPins(StepClient(s, k, fault, pick), s');
      case RealmCrash(_) => OtherStepsKeepPins(s, s');
      case ClientCrash(k) =>
        ClientCrashKeepsPins(s, k);
        OtherStepsKeepPins(s.(clientPCs := s.clientPCs[k := CIdle]), s');
      case User(u) =>
        if Allowed(rules, s, u) {
          UserActKeepsPins(rules, s, u);
        } else {
          OtherStepsKeepPins(s, s');
        }
    }
  }

  lemma {:induction false} RunKeepsPins(rules: Rules, run: seq<Action>)
    ensures PinInv(Exec(rules, START, run))
  {
    if run != [] {
      var last := |run| - 1;
      RunKeepsPins(rules, run[..last]);
      ActionKeepsPins(rules, Exec(rules, START, run[..last]), run[last]);
    }
  }

  // ---------- The theorems ----------

  /** The realm in which the worker's next call creates or changes a client, if it is such a call. */
  function ProvisionsInto(k: Key, pc: ClientPC): Option<string> {
    if pc.CIdle? || !ClientCall(k, pc).Admin? then None
    else
      match ClientCall(k, pc).request
      case PostClient(realm, _) => Some(realm)
      case PutClient(realm, _, _) => Some(realm)
      case _ => None
  }

  /** Whatever users do, a client is only ever created, changed or pinned in a
      realm whose name some realm resource carried while it was Ready. */
  lemma {:induction false} OnlyReadyRealms(rules: Rules, s: State, k: Key)
    requires Reachable(rules, s)
    ensures
      && (ProvisionsInto(k, CPC(s, k)).Some? ==> ProvisionsInto(k, CPC(s, k)).value in s.readyNames)
      && (k in s.store.clients && s.store.clients[k].status.realm != "" ==> s.store.clients[k].status.realm in s.readyNames)
  {
    var run :| s == Exec(rules, START, run);
    RunKeepsPins(rules, run);
    assert PinOK(s, k) && PinWorkerOK(s, k);
    ProvisionsOnlyThere(k, CPC(s, k));
  }

  lemma ProvisionsOnlyThere(k: Key, pc: ClientPC)
    ensures ProvisionsInto(k, pc).Some? ==> Provisioning(pc) && ProvisionsInto(k, pc).value == pc.realm
  {
  }

  /** Names enter that history only by being the effective name of a Ready resource. */
  lemma {:induction false} ReadyNamesWereReady(rules: Rules, run: seq<Action>, name: string)
    requires name in Exec(rules, START, run).readyNames
    ensures exists i | 0 <= i <= |run| :: name in ReadyNow(Exec(rules, START, run[..i]).store)
  {
    if run != [] {
      var last := |run| - 1;
      if name in Exec(rules, START, run[..last]).readyNames {
        ReadyNamesWereReady(rules, run[..last], name);
        var i :| 0 <= i <= last && name in ReadyNow(Exec(rules, START, run[..last][..i]).store);
        assert run[..last][..i] == run[..i];
      } else {
        assert run[..|run|] == run;
      }
    }
  }

  lemma StepKeepsPin(s: State, k: Key, j: Key, fault: Fault, pick: Pick)
    requires PinInv(s) && k in s.store.clients && s.store.clients[k].status.realm != ""
    ensures var st' := StepClient(s, j, fault, pick).store;
      k in st'.clients ==>
        && st'.clients[k].status.realm == s.store.clients[k].status.realm
        && st'.clients[k].deleting == s.store.clients[k].deleting
  {
    assert PinWorkerOK(s, j);
    if ClientWrites(CPC(s, j)) { PinWriteEffect(s, j, fault, pick); } else { OnlyWritesTouchClients(s, j, fault, pick); }
  }

  lemma UserKeepsStatus(s: State, u: UserAct, k: Key)
    requires Allowed(FREE, s, u) && k in s.store.clients
    ensures var st' := UserStep(s, u).store;
      k in st'.clients ==>
        && st'.clients[k].status == s.store.clients[k].status
        && (s.store.clients[k].deleting ==> st'.clients[k].deleting)
  {
  }

  lemma ActionKeepsPin(rules: Rules, s: State, a: Action, k: Key)
    requires PinInv(s) && k in s.store.clients && s.store.clients[k].status.realm != ""
    ensures var st' := Apply(rules, s, a).store;
      k in st'.clients ==>
        && st'.clients[k].status.realm == s.store.clients[k].status.realm
        && (s.store.clients[k].deleting ==> st'.clients[k].deleting)
  {
    match a {
      case ClientStep(j, fault, pick) => StepKeepsPin(s, k, j, fault, pick);
      case RealmStep(m, fault, pick) => RealmStepLeavesClients(s, m, fault, pick);
      case User(u) => if Allowed(rules, s, u) { UserKeepsStatus(s, u, k); }
      case _ =>
    }
  }

  lemma {:induction false} PinRun(rules: Rules, s: State, more: seq<Action>, k: Key)
    requires PinInv(s) && k in s.store.clients && s.store.clients[k].status.realm != ""
    requires forall i | 0 <= i <= |more| :: k in Exec(rules, s, more[..i]).store.clients
    ensures var s' := Exec(rules, s, more);
      PinInv(s') && k in s'.store.clients && s'.store.clients[k].status.realm == s.store.clients[k].status.realm
  {
    if more != [] {
      var last := |more| - 1;
      assert forall i | 0 <= i <= last :: more[..last][..i] == more[..i];
      PinRun(rules, s, more[..last], k);
      assert more[..|more|] == more;
      ActionKeepsPins(rules, Exec(rules, s, more[..last]), more[last]);
      ActionKeepsPin(rules, Exec(rules, s, more[..last]), more[last], k);
    }
  }

  /** Once set, status.realm never changes for as long as the resource exists,
      whatever happens in the meantime. */
  lemma {:induction false} PinIsForGood(rules: Rules, s: State, more: seq<Action>, k: Key)
    requires Reachable(rules, s) && k in s.store.clients && s.store.clients[k].status.realm != ""
    requires forall i | 0 <= i <= |more| :: k in Exec(rules, s, more[..i]).store.clients
    ensures var st := Exec(rules, s, more).store;
      k in st.clients && st.clients[k].status.realm == s.store.clients[k].status.realm
  {
    var run :| s == Exec(rules, START, run);
    RunKeepsPins(rules, run);
    PinRun(rules, s, more, k);
  }

  // ---------- A teardown whose realm is gone ----------

  /** A client resource pinned to realm r, with a worker that has not cleaned up yet. */
  ghost predicate Stuck(s: State, k: Key, r: string) {
    && PinInv(s) && HasFinalizer(s.store, k)
    && r != "" && s.store.clients[k].status.realm == r && !Cleaned(CPC(s, k))
  }

  /** A call about the clients of a missing realm changes nothing and finds nothing. */
  lemma MissingRealm(st: Store, req: Request, fault: Fault, pick: Pick)
    requires AboutClients(req) && req.realm !in st.server.realms
    ensures Perform(st, Admin(req), fault, pick) in {(st, Missing), (st, Refused)}
  {
  }

  lemma StuckLookup(s: State, k: Key, fault: Fault, pick: Pick)
    requires (CPC(s, k).CDelFind? || CPC(s, k).CDelClient?) && CPC(s, k).realm !in s.store.server.realms
    ensures CPC(StepClient(s, k, fault, pick), k).CIdle?
  {
    var pc := CPC(s, k);
    AdminRequests(k, pc);
    MissingRealm(s.store, ClientCall(k, pc).request, fault, pick);
  }

  /** Before the realm is resolved nothing is cleaned up yet. */
  lemma StuckReading(s: State, k: Key, r: string, fault: Fault, pick: Pick)
    requires Stuck(s, k, r) && !HasRealm(CPC(s, k))
    ensures !Cleaned(CPC(StepClient(s, k, fault, pick), k))
  {
    assert PinWorkerOK(s, k);
  }

  /** With the realm missing, the worker does not get past the lookup. */
  lemma StuckWorker(s: State, k: Key, r: string, fault: Fault, pick: Pick)
    requires Stuck(s, k, r) && r !in s.store.server.realms
    ensures !Cleaned(CPC(StepClient(s, k, fault, pick), k))
  {
    assert PinWorkerOK(s, k);
    var pc := CPC(s, k);
    if !HasRealm(pc) {
      StuckReading(s, k, r, fault, pick);
    } else if pc.CDelFind? || pc.CDelClient? {
      StuckLookup(s, k, fault, pick);
    } else if ClientCallsAdmin(pc) {
      AdminEffect(s, k, fault, pick);
    } else if !ClientWrites(pc) {
      ClientSecretEffect(s, k, fault, pick);
    }
  }

  /** Only a worker that has cleaned up gives the finalizer back. */
  lemma StuckKeepsFinalizer(s: State, k: Key, r: string, fault: Fault, pick: Pick)
    requires Stuck(s, k, r)
    ensures HasFinalizer(StepClient(s, k, fault, pick).store, k)
  {
    assert PinWorkerOK(s, k);
    if ClientWrites(CPC(s, k)) { PinWriteEffect(s, k, fault, pick); } else { OnlyWritesTouchClients(s, k, fault, pick); }
  }

  lemma OthersMoveNotTheWorker(rules: Rules, s: State, a: Action, k: Key)
    requires !(a.ClientStep? && a.key == k)
    ensures CPC(Apply(rules, s, a), k) in {CPC(s, k), CIdle}
  {
    match a {
      case RealmStep(m, fault, pick) => RealmStepLeavesClients(s, m, fault, pick);
      case User(u) =>
        if Allowed(rules, s, u) && ActsOnRealm(u) { UserLeavesClients(s, u); }
        else if Allowed(rules, s, u) { UserMovesNoClient(s, u); }
      case _ =>
    }
  }

  lemma UserMovesNoClient(s: State, u: UserAct)
    requires Allowed(FREE, s, u) && !ActsOnRealm(u)
    ensures UserStep(s, u).clientPCs == s.clientPCs
  {
  }

  lemma StuckStep(rules: Rules, s: State, a: Action, k: Key, r: string)
    requires !rules.stripClients && Stuck(s, k, r) && r !in s.store.server.realms
    ensures Stuck(Apply(rules, s, a), k, r)
  {
    ActionKeepsPins(rules, s, a);
    ActionKeepsPin(rules, s, a, k);
    if a.ClientStep? && a.key == k {
      StuckKeepsFinalizer(s, k, r, a.fault, a.pick);
      StuckWorker(s, k, r, a.fault, a.pick);
    } else {
      OthersKeepFinalizer(rules, s, a, k);
      OthersMoveNotTheWorker(rules, s, a, k);
    }
  }

  lemma StuckRun(rules: Rules, s: State, more: seq<Action>, k: Key, r: string)
    requires !rules.stripClients && Stuck(s, k, r)
    requires forall i | 0 <= i < |more| :: r !in Exec(rules, s, more[..i]).store.server.realms
    ensures Stuck(Exec(rules, s, more), k, r)
  {
    var cur := s;
    for i := 0 to |more|
      invariant cur == Exec(rules, s, more[..i]) && Stuck(cur, k, r)
    {
      ExecNext(rules, s, more, i);
      StuckStep(rules, cur, more[i], k, r);
      cur := Apply(rules, cur, more[i]);
    }
    assert more[..|more|] == more;
  }

  /** Whatever users edit, and even if realm finalizers are stripped: as long as
      the realm a client resource is pinned to is missing in Keycloak, no number
      of reconciles gives the finalizer back. The worker may be anywhere, unless
      it has cleaned up already. */
  lemma {:induction false} MissingRealmKeepsFinalizer(rules: Rules, s: State, more: seq<Action>, k: Key)
    requires !rules.stripClients && Reachable(rules, s) && HasFinalizer(s.store, k)
    requires s.store.clients[k].status.realm != "" && !Cleaned(CPC(s, k))
    requires forall i | 0 <= i < |more| :: s.store.clients[k].status.realm !in Exec(rules, s, more[..i]).store.server.realms
    ensures HasFinalizer(Exec(rules, s, more).store, k)
  {
    var run :| s == Exec(rules, START, run);
    RunKeepsPins(rules, run);
    StuckRun(rules, s, more, k, s.store.clients[k].status.realm);
  }

  // ---------- A realm that goes with its resource ----------

  /** With names fixed, a client resource refers to the same realm resource for good. */
  lemma ActionKeepsRef(s: State, a: Action, k: Key)
    requires PinInv(s) && k in s.store.clients && k in Apply(STRICT, s, a).store.clients
    ensures RefKey(k, Apply(STRICT, s, a).store.clients[k].spec) == RefKey(k, s.store.clients[k].spec)
  {
    match a {
      case ClientStep(j, fault, pick) => StepKeepsSpec(s, k, j, fault, pick);
      case RealmStep(m, fault, pick) => RealmStepLeavesClients(s, m, fault, pick);
      case User(u) => if Allowed(STRICT, s, u) { UserKeepsRef(s, u, k); }
      case _ =>
    }
  }

  lemma StepKeepsSpec(s: State, k: Key, j: Key, fault: Fault, pick: Pick)
    requires PinInv(s) && k in s.store.clients && k in StepClient(s, j, fault, pick).store.clients
    ensures StepClient(s, j, fault, pick).store.clients[k].spec == s.store.clients[k].spec
  {
    assert PinWorkerOK(s, j);
    if ClientWrites(CPC(s, j)) {
      PinWriteEffect(s, j, fault, pick);
      ClientWritesKeepSpec(j, CPC(s, j));
    } else {
      OnlyWritesTouchClients(s, j, fault, pick);
    }
  }

  lemma ClientWritesKeepSpec(k: Key, pc: ClientPC)
    requires ClientWrites(pc)
    ensures ClientCall(k, pc).UpdateClientCR? || ClientCall(k, pc).StatusClientCR?
    ensures ClientCall(k, pc).client.spec == pc.kc.spec
  {
  }

  lemma UserKeepsRef(s: State, u: UserAct, k: Key)
    requires Allowed(STRICT, s, u) && k in s.store.clients && k in UserStep(s, u).store.clients
    ensures RefKey(k, UserStep(s, u).store.clients[k].spec) == RefKey(k, s.store.clients[k].spec)
  {
  }

  /** In strict runs, the realm a client is pinned to is missing once the realm resource is. */
  lemma RealmIsGone(s: State, k: Key, r: string)
    requires Inv(STRICT, s) && Stuck(s, k, r) && RefKey(k, s.store.clients[k].spec) !in s.store.realms
    ensures r !in s.store.server.realms
  {
    assert ClientOK(s, k) && RealmHeld(s, r);
  }

  /** A deleting client, pinned, whose realm resource is gone, with an idle worker. */
  predicate Wedged(s: State, k: Key) {
    && HasFinalizer(s.store, k) && s.store.clients[k].deleting && s.store.clients[k].status.realm != ""
    && RefKey(k, s.store.clients[k].spec) !in s.store.realms && CPC(s, k).CIdle?
  }

  lemma WedgedRun(s: State, more: seq<Action>, k: Key, m: Key, r: string)
    requires Inv(STRICT, s) && Stuck(s, k, r) && RefKey(k, s.store.clients[k].spec) == m
    requires forall i | 0 <= i < |more| :: m !in Exec(STRICT, s, more[..i]).store.realms
    ensures HasFinalizer(Exec(STRICT, s, more).store, k)
  {
    var cur := s;
    for i := 0 to |more|
      invariant cur == Exec(STRICT, s, more[..i]) && Inv(STRICT, cur) && Stuck(cur, k, r)
      invariant RefKey(k, cur.store.clients[k].spec) == m
    {
      ExecNext(STRICT, s, more, i);
      RealmIsGone(cur, k, r);
      ActionKeeps(STRICT, cur, more[i]);
      StuckStep(STRICT, cur, more[i], k, r);
      ActionKeepsRef(cur, more[i], k);
      cur := Apply(STRICT, cur, more[i]);
    }
    assert more[..|more|] == more;
  }

  /** Deleting the realm resource before the client resource wedges the latter,
      since the realm goes with it: whatever else happens in a strict run, as long
      as the realm resource stays gone, the client keeps its finalizer. */
  lemma {:induction false} TeardownAfterRealmNeverEnds(s: State, more: seq<Action>, k: Key)
    requires Reachable(STRICT, s) && Wedged(s, k)
    requires forall i | 0 <= i < |more| :: RefKey(k, s.store.clients[k].spec) !in Exec(STRICT, s, more[..i]).store.realms
    ensures HasFinalizer(Exec(STRICT, s, more).store, k)
  {
    ReachableInv(STRICT, s);
    var run :| s == Exec(STRICT, START, run);
    RunKeepsPins(STRICT, run);
    WedgedRun(s, more, k, RefKey(k, s.store.clients[k].spec), s.store.clients[k].status.realm);
  }
}
