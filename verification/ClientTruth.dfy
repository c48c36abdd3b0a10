// What a Ready KeycloakClient is worth. Runs are watched for two things no
// resource records: how often a realm was deleted, and when a worker was last
// told that its client is as wanted.
module ClientTruth {
  import opened Kube
  import opened KeycloakServer
  import opened Machine
  import opened NoOrphan
  import opened KeycloakContents

  /** When a worker was last told: in which realm, after how many deletions of it. */
  datatype Stamp = Stamp(realm: string, losses: nat)

  datatype Watched = Watched(s: State, losses: map<string, nat>, stamps: map<Key, Stamp>)

  function Losses(w: Watched, r: string): nat {
    if r in w.losses then w.losses[r] else 0
  }

  /** The answer told the worker that its client is there with the wanted fields. */
  predicate Confirms(pc: ClientPC, pc': ClientPC) {
    (pc.CFind? || pc.CPut? || pc.CFindAgain?) && (pc'.CGetSecret? || pc'.CImpersonate?)
  }

  /** One action of a run, watched. */
  function Watch(rules: Rules, w: Watched, a: Action): Watched {
    var s' := Apply(rules, w.s, a);
    var gone := w.s.store.server.realms.Keys - s'.store.server.realms.Keys;
    var losses := w.losses + map r | r in gone :: Losses(w, r) + 1;
    var stamps :=
      if a.ClientStep? && Confirms(CPC(w.s, a.key), CPC(s', a.key)) && HasRealm(CPC(s', a.key)) then
        var r := CPC(s', a.key).realm;
        w.stamps[a.key := Stamp(r, if r in losses then losses[r] else 0)]
      else w.stamps;
    Watched(s', losses, stamps)
  }

  function WatchRun(rules: Rules, run: seq<Action>): Watched {
    if run == [] then Watched(START, map[], map[]) else Watch(rules, WatchRun(rules, run[..|run| - 1]), run[|run| - 1])
  }

  lemma {:induction false} WatchingChangesNothing(rules: Rules, run: seq<Action>)
    ensures WatchRun(rules, run).s == Exec(rules, START, run)
  {
    if run != [] { WatchingChangesNothing(rules, run[..|run| - 1]); }
  }

  predicate ToldIn(w: Watched, k: Key, r: string) {
    k in w.stamps && w.stamps[k].realm == r
  }

  /** The client has been in this realm since its worker was last told so: the realm was not deleted in between. */
  predicate Unbroken(w: Watched, k: Key, r: string) {
    k in w.stamps && w.stamps[k] == Stamp(r, Losses(w, r))
  }

  /** The client exists in realm r with every managed field as this spec asks. */
  predicate Good(server: Server, k: Key, spec: ClientSpec, r: string) {
    var c := EffClientID(k, spec);
    HasClient(server, r, c) && SameManaged(server.realms[r].clients[c], Desired(k, spec))
  }

  /** Past the answer that confirmed the client. */
  predicate Told(pc: ClientPC) {
    pc.CGetSecret? || pc.CImpersonate? || pc.CPutSecret? || pc.CMarkReady?
  }

  predicate HasID(pc: ClientPC) {
    pc.CPut? || pc.CDelClient?
  }

  /** No client but the worker's own can have the identifier it holds. */
  ghost predicate KnowsID(server: Server, k: Key, pc: ClientPC)
    requires HasID(pc)
  {
    && pc.id < server.nextID
    && forall c | HasClient(server, pc.realm, c) && server.realms[pc.realm].clients[c].id == pc.id :: c == EffClientID(k, pc.kc.spec)
  }

  predicate SaysReady(st: Store, k: Key) {
    k in st.clients && st.clients[k].status.mark == Ready(st.clients[k].generation)
  }

  ghost predicate ReadyOK(w: Watched, k: Key) {
    var st := w.s.store;
    && (k in st.clients && st.clients[k].status.mark.Ready? ==> st.clients[k].status.mark.generation <= st.clients[k].generation)
    && (SaysReady(st, k) ==>
          var kc, pc := st.clients[k], CPC(w.s, k);
          && !kc.deleting && kc.status.realm != "" && ToldIn(w, k, kc.status.realm)
          && kc.status == ReadyStatus(k, kc, kc.status.realm)
          && (Unbroken(w, k, kc.status.realm) ==> Good(st.server, k, kc.spec, kc.status.realm))
          && (HasKC(pc) ==> pc.kc.spec == kc.spec && !pc.kc.deleting && pc.kc.status.realm == kc.status.realm))
  }

  ghost predicate TellerOK(w: Watched, k: Key) {
    var pc, server := CPC(w.s, k), w.s.store.server;
    && (HasRealm(pc) ==> (Releasing(pc) <==> pc.kc.deleting))
    && (Told(pc) ==> ToldIn(w, k, pc.realm))
    && (Told(pc) && Unbroken(w, k, pc.realm) ==> Good(server, k, pc.kc.spec, pc.realm))
    && (pc.CFindAgain? && HasClient(server, pc.realm, EffClientID(k, pc.kc.spec)) ==> Good(server, k, pc.kc.spec, pc.realm))
    && (HasID(pc) ==> KnowsID(server, k, pc))
    && (pc.CMark? ==> !pc.mark.Ready?)
  }

  ghost predicate StampOK(w: Watched, k: Key) {
    k in w.stamps ==> w.stamps[k].losses <= Losses(w, w.stamps[k].realm)
  }

  ghost predicate KeyOK(w: Watched, k: Key) {
    ReadyOK(w, k) && TellerOK(w, k) && StampOK(w, k)
  }

  ghost predicate TrueSoFar(rules: Rules, w: Watched) {
    Inv(rules, w.s) && forall k :: KeyOK(w, k)
  }

  // ---------- What one action can do to the server ----------

  /** Apart from client c0 of realm r0, clients are as they were wherever their
      realm is both before and after; a new realm has none. */
  ghost predicate Beside(server: Server, server': Server, r0: string, c0: string) {
    && server.nextID <= server'.nextID
    && (forall r, c | (r != r0 || c != c0) && r in server'.realms ::
          HasClient(server', r, c) ==> HasClient(server, r, c) && server'.realms[r].clients[c] == server.realms[r].clients[c])
    && (forall r, c | (r != r0 || c != c0) && r in server'.realms :: HasClient(server, r, c) ==> HasClient(server', r, c))
    && (HasClient(server', r0, c0) ==>
          || server'.realms[r0].clients[c0].id >= server.nextID
          || (HasClient(server, r0, c0) && server'.realms[r0].clients[c0].id == server.realms[r0].clients[c0].id))
  }

  /** Nobody but k, whose client it is, is concerned. */
  ghost predicate NotTheirs(w: Watched, k: Key, r0: string, c0: string) {
    && (k in w.s.store.clients && w.s.store.clients[k].status.realm != "" ==>
          w.s.store.clients[k].status.realm != r0 || EffClientID(k, w.s.store.clients[k].spec) != c0)
    && (HasRealm(CPC(w.s, k)) && !Cleaned(CPC(w.s, k)) ==> CPC(w.s, k).realm != r0 || EffClientID(k, CPC(w.s, k).kc.spec) != c0)
  }

  /** What watching adds: nothing is forgotten, and every deletion counted. */
  ghost predicate Counts(w: Watched, w': Watched) {
    && (forall r :: Losses(w, r) <= Losses(w', r))
    && (forall r | r in w.s.store.server.realms && r !in w'.s.store.server.realms :: Losses(w, r) < Losses(w', r))
  }

  /** k's resource, worker and stamp stay, and the server changes elsewhere. */
  ghost predicate Bystander(w: Watched, w': Watched, k: Key, r0: string, c0: string) {
    && Counts(w, w') && Beside(w.s.store.server, w'.s.store.server, r0, c0) && NotTheirs(w, k, r0, c0)
    && (k in w'.s.store.clients <==> k in w.s.store.clients)
    && (k in w.s.store.clients ==> w'.s.store.clients[k] == w.s.store.clients[k])
    && CPC(w'.s, k) == CPC(w.s, k)
    && (k in w'.stamps <==> k in w.stamps)
    && (k in w.stamps ==> w'.stamps[k] == w.stamps[k])
  }

  lemma BystanderStaysReady(w: Watched, w': Watched, k: Key, r0: string, c0: string)
    requires KeyOK(w, k) && Bystander(w, w', k, r0, c0)
    ensures ReadyOK(w', k)
  {
  }

  lemma BystanderTells(w: Watched, w': Watched, k: Key, r0: string, c0: string)
    requires KeyOK(w, k) && Bystander(w, w', k, r0, c0)
    ensures TellerOK(w', k)
  {
  }

  lemma BystanderKeeps(w: Watched, w': Watched, k: Key, r0: string, c0: string)
    requires KeyOK(w, k) && Bystander(w, w', k, r0, c0)
    ensures KeyOK(w', k)
  {
    BystanderStaysReady(w, w', k, r0, c0);
    BystanderTells(w, w', k, r0, c0);
  }

  lemma WatchingCounts(rules: Rules, w: Watched, a: Action)
    ensures Counts(w, Watch(rules, w, a))
  {
  }

  /** Only a worker's own confirmed answer moves its stamp. */
  lemma StampsStay(rules: Rules, w: Watched, a: Action, k: Key)
    requires !(a.ClientStep? && a.key == k)
    ensures k in Watch(rules, w, a).stamps <==> k in w.stamps
    ensures k in w.stamps ==> Watch(rules, w, a).stamps[k] == w.stamps[k]
  {
  }

  // ---------- Realm workers, users of realms, crashes ----------

  /** Requests about a realm leave the clients of a surviving realm alone. */
  lemma RealmRequestBeside(server: Server, req: Request, pick: Pick)
    requires "" !in server.realms && (req.GetRealm? || req.PutRealm? || req.PostRealm? || req.DeleteRealm?)
    requires req.PostRealm? ==> req.realmRep.realm != ""
    ensures Beside(server, Handle(server, req, pick).0, "", "")
  {
  }

  lemma SameBeside(server: Server, r0: string, c0: string)
    ensures Beside(server, server, r0, c0)
  {
  }

  /** An action that concerns no client worker and no client resource. */
  lemma RealmSideKeeps(rules: Rules, w: Watched, a: Action)
    requires TrueSoFar(rules, w) && Inv(rules, Watch(rules, w, a).s) && !a.ClientStep?
    requires Watch(rules, w, a).s.store.clients == w.s.store.clients && Watch(rules, w, a).s.clientPCs == w.s.clientPCs
    requires Beside(w.s.store.server, Watch(rules, w, a).s.store.server, "", "")
    ensures TrueSoFar(rules, Watch(rules, w, a))
  {
    var w' := Watch(rules, w, a);
    WatchingCounts(rules, w, a);
    forall k ensures KeyOK(w', k) {
      assert KeyOK(w, k);
      StampsStay(rules, w, a, k);
      NobodysNothing(rules, w, k);
      BystanderKeeps(w, w', k, "", "");
    }
  }

  /** No client lives in the realm without a name. */
  lemma NobodysNothing(rules: Rules, w: Watched, k: Key)
    requires TrueSoFar(rules, w)
    ensures NotTheirs(w, k, "", "")
  {
    assert ClientWorkerOK(w.s, k);
  }

  lemma RealmStepKeepsTrue(rules: Rules, w: Watched, m: Key, fault: Fault, pick: Pick)
    requires TrueSoFar(rules, w) && Inv(rules, Watch(rules, w, RealmStep(m, fault, pick)).s)
    ensures TrueSoFar(rules, Watch(rules, w, RealmStep(m, fault, pick)))
  {
    var a := RealmStep(m, fault, pick);
    RealmStepBeside(w.s, m, fault, pick);
    RealmSideKeeps(rules, w, a);
  }

  lemma RealmStepBeside(s: State, m: Key, fault: Fault, pick: Pick)
    requires Common(s)
    ensures var s' := StepRealm(s, m, fault, pick);
      && s'.store.clients == s.store.clients && s'.clientPCs == s.clientPCs
      && Beside(s.store.server, s'.store.server, "", "")
  {
    assert RealmWorkerOK(s, m);
    SameBeside(s.store.server, "", "");
    if RealmCallsAdmin(RPC(s, m)) {
      RealmAdminEffect(s, m, fault, pick);
      RealmRequestBeside(s.store.server, RealmCall(m, RPC(s, m)).request, pick);
    } else if RealmWrites(RPC(s, m)) {
      RealmWriteEffect(s, m, fault, pick);
    } else {
      RealmReadEffect(s, m, fault, pick);
    }
  }

  // ---------- Other client workers ----------

  /** Whatever a client worker asks for touches at most its own client. */
  lemma ClientRequestBeside(s: State, k: Key, pick: Pick)
    requires Common(s) && ClientCallsAdmin(CPC(s, k))
    requires HasID(CPC(s, k)) ==> KnowsID(s.store.server, k, CPC(s, k))
    ensures var pc := CPC(s, k);
      Beside(s.store.server, Handle(s.store.server, ClientCall(k, pc).request, pick).0, pc.realm, EffClientID(k, pc.kc.spec))
  {
    var pc, server := CPC(s, k), s.store.server;
    AdminRequests(k, pc);
    SameBeside(server, pc.realm, EffClientID(k, pc.kc.spec));
    if pc.realm in server.realms {
      if pc.CPost? {
        PostBeside(server, pc.realm, Desired(k, pc.kc.spec), pick);
      } else if pc.CPut? {
        PutBeside(server, pc.realm, pc.id, EffClientID(k, pc.kc.spec), Desired(k, pc.kc.spec).(id := pc.id), pick);
      } else if pc.CDelClient? {
        DeleteBeside(server, pc.realm, pc.id, EffClientID(k, pc.kc.spec), pick);
      }
    }
  }

  lemma PostBeside(server: Server, r: string, rep: ClientRep, pick: Pick)
    requires r in server.realms
    ensures Beside(server, Handle(server, PostClient(r, rep), pick).0, r, rep.clientID)
  {
  }

  lemma PutBeside(server: Server, r: string, id: nat, c: string, rep: ClientRep, pick: Pick)
    requires r in server.realms
    requires forall d | HasClient(server, r, d) && server.realms[r].clients[d].id == id :: d == c
    ensures Beside(server, Handle(server, PutClient(r, id, rep), pick).0, r, c)
  {
  }

  lemma DeleteBeside(server: Server, r: string, id: nat, c: string, pick: Pick)
    requires r in server.realms
    requires forall d | HasClient(server, r, d) && server.realms[r].clients[d].id == id :: d == c
    ensures Beside(server, Handle(server, DeleteClient(r, id), pick).0, r, c)
  {
  }

  /** The client a worker deals with is no other resource's. */
  lemma TargetsApart(rules: Rules, w: Watched, k: Key, other: Key)
    requires TrueSoFar(rules, w) && ClientCallsAdmin(CPC(w.s, k)) && other != k
    ensures NotTheirs(w, other, CPC(w.s, k).realm, EffClientID(k, CPC(w.s, k).kc.spec))
  {
    assert ClientWorkerOK(w.s, k) && ClientOK(w.s, k);
    assert ClientWorkerOK(w.s, other) && ClientOK(w.s, other);
  }

  /** For everybody else, a client worker's step changes nothing that matters. */
  lemma ClientStepSparesOthers(rules: Rules, w: Watched, k: Key, fault: Fault, pick: Pick, other: Key)
    requires TrueSoFar(rules, w) && other != k
    ensures KeyOK(Watch(rules, w, ClientStep(k, fault, pick)), other)
  {
    var a := ClientStep(k, fault, pick);
    assert KeyOK(w, other) && Common(w.s);
    WatchingCounts(rules, w, a);
    StampsStay(rules, w, a, other);
    if ClientCallsAdmin(CPC(w.s, k)) {
      AdminSparesOthers(rules, w, k, fault, pick, other);
    } else {
      ClientApiFrame(w.s, k, fault, pick);
      SameBeside(w.s.store.server, "", "");
      NobodysNothing(rules, w, other);
      BystanderKeeps(w, Watch(rules, w, a), other, "", "");
    }
  }

  lemma AdminSparesOthers(rules: Rules, w: Watched, k: Key, fault: Fault, pick: Pick, other: Key)
    requires TrueSoFar(rules, w) && other != k && ClientCallsAdmin(CPC(w.s, k))
    ensures KeyOK(Watch(rules, w, ClientStep(k, fault, pick)), other)
  {
    var a, pc := ClientStep(k, fault, pick), CPC(w.s, k);
    assert KeyOK(w, other) && KeyOK(w, k) && Common(w.s);
    WatchingCounts(rules, w, a);
    StampsStay(rules, w, a, other);
    ClientAdminFrame(w.s, k, fault, pick);
    AdminEffect(w.s, k, fault, pick);
    TargetsApart(rules, w, k, other);
    ClientRequestBeside(w.s, k, pick);
    SameBeside(w.s.store.server, pc.realm, EffClientID(k, pc.kc.spec));
    BystanderKeeps(w, Watch(rules, w, a), other, pc.realm, EffClientID(k, pc.kc.spec));
  }

  // ---------- The client's own worker ----------

  /** The worker's lookup as the listing answers it: the first exact match. */
  function FoundIn(answer: Answer, c: string): Option<ClientRep> {
    if answer.Replied? && answer.body.Listing? then FirstExact(answer.body.clients, c) else None
  }

  lemma LookupIsTrue(st: Store, r: string, c: string, fault: Fault, pick: Pick)
    requires WellFormed(st.server)
    ensures var (st', answer) := Perform(st, Admin(ListClients(r, c)), fault, pick);
      && st' == st
      && (FoundIn(answer, c).Some? ==> HasClient(st.server, r, c) && FoundIn(answer, c).value == st.server.realms[r].clients[c])
  {
    ListFinds(st.server, r, c, pick);
  }

  /** What the worker makes of it. */
  lemma LookupGoes(k: Key, pc: ClientPC, answer: Answer)
    requires pc.CDelFind? || pc.CFind? || pc.CFindAgain?
    ensures var pc', found := ClientResume(k, pc, answer), FoundIn(answer, EffClientID(k, pc.kc.spec));
      && (HasID(pc') ==> found.Some? && pc'.id == found.value.id && pc'.kc == pc.kc && pc'.realm == pc.realm)
      && (Told(pc') ==> found.Some? && (pc.CFind? ==> SameManaged(found.value, Desired(k, pc.kc.spec))))
  {
  }

  /** A listing tells whether the client is there, under which identifier, and as what. */
  lemma LookupTells(s: State, k: Key, fault: Fault, pick: Pick)
    requires Common(s) && (CPC(s, k).CDelFind? || CPC(s, k).CFind? || CPC(s, k).CFindAgain?)
    ensures var s', pc := StepClient(s, k, fault, pick), CPC(s, k);
      var pc', server := CPC(s', k), s.store.server;
      && s'.store == s.store
      && (HasID(pc') ==> KnowsID(server, k, pc'))
      && (pc.CFind? && Told(pc') ==> Good(server, k, pc.kc.spec, pc.realm))
      && (pc.CFindAgain? && Told(pc') ==> HasClient(server, pc.realm, EffClientID(k, pc.kc.spec)))
  {
    var pc, server := CPC(s, k), s.store.server;
    LookupIsTrue(s.store, pc.realm, EffClientID(k, pc.kc.spec), fault, pick);
    LookupGoes(k, pc, Perform(s.store, ClientCall(k, pc), fault, pick).1);
    if pc.realm in server.realms { assert ClientsOK(server.realms[pc.realm].clients, server.nextID); }
  }

  /** Where the worker goes from a call to Keycloak. */
  lemma AdminGoes(k: Key, pc: ClientPC, answer: Answer)
    requires ClientCallsAdmin(pc)
    ensures var pc' := ClientResume(k, pc, answer);
      && (pc'.CMark? ==> !pc'.mark.Ready?)
      && (Told(pc') ==> Confirms(pc, pc') || pc.CGetSecret?)
      && (pc'.CFindAgain? ==> pc.CPost? && answer.Replied?)
      && (HasID(pc') ==> pc.CFind? || pc.CDelFind?)
      && (pc.CPut? && Told(pc') ==> answer.Replied?)
      && (pc.CGetSecret? ==> Told(pc') || pc'.CMark?)
  {
  }

  /** Creating leaves a client that is there alone; one that is answered is as wanted. */
  lemma PostTells(st: Store, k: Key, spec: ClientSpec, r: string, fault: Fault, pick: Pick)
    ensures var (st', answer) := Perform(st, Admin(PostClient(r, Desired(k, spec))), fault, pick);
      && (Good(st.server, k, spec, r) ==> Good(st'.server, k, spec, r))
      && (answer.Replied? ==> Good(st'.server, k, spec, r))
  {
  }

  /** Putting keeps a client as wanted; one that is answered is as wanted. */
  lemma PutTells(st: Store, k: Key, spec: ClientSpec, r: string, id: nat, fault: Fault, pick: Pick)
    requires forall c | HasClient(st.server, r, c) && st.server.realms[r].clients[c].id == id :: c == EffClientID(k, spec)
    ensures var (st', answer) := Perform(st, Admin(PutClient(r, id, Desired(k, spec).(id := id))), fault, pick);
      && (Good(st.server, k, spec, r) ==> Good(st'.server, k, spec, r))
      && (answer.Replied? ==> Good(st'.server, k, spec, r))
  {
  }

  /** What a call to Keycloak means for the worker's own client, as far as its
      resource is live and its copy current. */
  ghost predicate Served(s: State, s': State, k: Key)
    requires HasRealm(CPC(s, k))
  {
    var pc, pc' := CPC(s, k), CPC(s', k);
    && (!pc.CDelClient? && Good(s.store.server, k, pc.kc.spec, pc.realm) ==> Good(s'.store.server, k, pc.kc.spec, pc.realm))
    && (Confirms(pc, pc') ==> Good(s'.store.server, k, pc.kc.spec, pc.realm))
    && (pc'.CFindAgain? ==> Good(s'.store.server, k, pc.kc.spec, pc.realm))
    && (HasID(pc') ==> KnowsID(s'.store.server, k, pc'))
  }

  lemma AdminServes(w: Watched, k: Key, fault: Fault, pick: Pick)
    requires Common(w.s) && TellerOK(w, k) && ClientCallsAdmin(CPC(w.s, k))
    ensures Served(w.s, StepClient(w.s, k, fault, pick), k)
  {
    var s, pc := w.s, CPC(w.s, k);
    AdminRequests(k, pc);
    AdminEffect(s, k, fault, pick);
    AdminGoes(k, pc, Perform(s.store, ClientCall(k, pc), fault, pick).1);
    match pc {
      case CDelFind(_, _) => LookupTells(s, k, fault, pick);
      case CFind(_, _) => LookupTells(s, k, fault, pick);
      case CFindAgain(_, _) => LookupTells(s, k, fault, pick);
      case CPost(kc, r) => PostTells(s.store, k, kc.spec, r, fault, pick);
      case CPut(kc, r, id) => PutTells(s.store, k, kc.spec, r, id, fault, pick);
      case _ =>
    }
  }

  /** A confirming answer sets the worker's own stamp; otherwise it stays. */
  ghost predicate StampMoves(w: Watched, w': Watched, k: Key) {
    if Confirms(CPC(w.s, k), CPC(w'.s, k)) && HasRealm(CPC(w'.s, k)) then Unbroken(w', k, CPC(w'.s, k).realm)
    else if k in w.stamps then k in w'.stamps && w'.stamps[k] == w.stamps[k]
    else k !in w'.stamps
  }

  ghost predicate SameLosses(w: Watched, w': Watched) {
    forall r :: Losses(w', r) == Losses(w, r)
  }

  /** With the same realms before and after, nothing is counted. */
  lemma LossesStay(rules: Rules, w: Watched, k: Key, fault: Fault, pick: Pick)
    requires StepClient(w.s, k, fault, pick).store.server.realms.Keys == w.s.store.server.realms.Keys
    ensures var w' := Watch(rules, w, ClientStep(k, fault, pick)); SameLosses(w, w') && StampMoves(w, w', k)
  {
  }

  /** The worker goes on with the copy and the realm it has, or gives up, or
      only records a failure. */
  ghost predicate GoesOn(pc: ClientPC, pc': ClientPC)
    requires HasRealm(pc)
  {
    || pc'.CIdle?
    || (pc'.CMark? && pc'.kc == pc.kc && !pc'.mark.Ready?)
    || (HasRealm(pc') && pc'.kc == pc.kc && pc'.realm == pc.realm && (Releasing(pc) <==> Releasing(pc'))
        && (Told(pc') ==> Confirms(pc, pc') || Told(pc)))
  }

  lemma AdminGoesOn(s: State, k: Key, fault: Fault, pick: Pick)
    requires ClientCallsAdmin(CPC(s, k))
    ensures GoesOn(CPC(s, k), CPC(StepClient(s, k, fault, pick), k))
    ensures CPC(StepClient(s, k, fault, pick), k).CFindAgain? ==> !CPC(s, k).CDelClient?
  {
    AdminEffect(s, k, fault, pick);
    AdminGoes(k, CPC(s, k), Perform(s.store, ClientCall(k, CPC(s, k)), fault, pick).1);
  }

  /** What an admin call keeps of a Ready mark. */
  lemma AdminKeepsReady(w: Watched, w': Watched, k: Key)
    requires ReadyOK(w, k) && TellerOK(w, k) && ClientWorkerOK(w.s, k) && HasRealm(CPC(w.s, k))
    requires w'.s.store.clients == w.s.store.clients && SameLosses(w, w') && StampMoves(w, w', k)
    requires GoesOn(CPC(w.s, k), CPC(w'.s, k)) && Served(w.s, w'.s, k)
    ensures ReadyOK(w', k)
  {
  }

  lemma AdminKeepsTeller(w: Watched, w': Watched, k: Key)
    requires TellerOK(w, k) && HasRealm(CPC(w.s, k)) && (Told(CPC(w'.s, k)) ==> !CPC(w.s, k).CDelClient?)
    requires SameLosses(w, w') && StampMoves(w, w', k) && GoesOn(CPC(w.s, k), CPC(w'.s, k)) && Served(w.s, w'.s, k)
    ensures TellerOK(w', k)
  {
  }

  lemma StampKeeps(w: Watched, w': Watched, k: Key)
    requires StampOK(w, k) && SameLosses(w, w') && StampMoves(w, w', k)
    ensures StampOK(w', k)
  {
  }

  lemma OwnAdminKeeps(rules: Rules, w: Watched, k: Key, fault: Fault, pick: Pick)
    requires Common(w.s) && KeyOK(w, k) && ClientCallsAdmin(CPC(w.s, k))
    ensures KeyOK(Watch(rules, w, ClientStep(k, fault, pick)), k)
  {
    var w' := Watch(rules, w, ClientStep(k, fault, pick));
    assert ClientWorkerOK(w.s, k);
    AdminKeepsObjects(w.s, k, fault, pick);
    AdminServes(w, k, fault, pick);
    AdminGoesOn(w.s, k, fault, pick);
    LossesStay(rules, w, k, fault, pick);
    StampKeeps(w, w', k);
    AdminKeepsReady(w, w', k);
    AdminKeepsTeller(w, w', k);
  }

  lemma AdminKeepsObjects(s: State, k: Key, fault: Fault, pick: Pick)
    requires Common(s) && ClientCallsAdmin(CPC(s, k))
    ensures var s' := StepClient(s, k, fault, pick);
      s'.store.clients == s.store.clients && s'.store.server.realms.Keys == s.store.server.realms.Keys
  {
    ClientAdminFrame(s, k, fault, pick);
    AdminEffect(s, k, fault, pick);
  }

  /** Only the last write of a successful reconcile says Ready, and it says so of
      the copy the worker has been serving. */
  lemma WriteKeepsReady(w: Watched, w': Watched, k: Key)
    requires ReadyOK(w, k) && TellerOK(w, k) && ClientWorkerOK(w.s, k) && ClientWrites(CPC(w.s, k))
    requires k in w.s.store.clients && w.s.store.clients[k] == CPC(w.s, k).kc && CPC(w'.s, k).CIdle?
    requires w'.s.store == PutClientCR(w.s.store, k, ClientCall(k, CPC(w.s, k)).client)
    requires SameLosses(w, w') && StampMoves(w, w', k)
    ensures ReadyOK(w', k)
  {
    if CPC(w.s, k).CMarkReady? { assert !CPC(w.s, k).kc.deleting; }
  }

  lemma OwnWriteKeeps(rules: Rules, w: Watched, k: Key, fault: Fault, pick: Pick)
    requires KeyOK(w, k) && ClientWorkerOK(w.s, k) && ClientWrites(CPC(w.s, k))
    ensures KeyOK(Watch(rules, w, ClientStep(k, fault, pick)), k)
  {
    var w' := Watch(rules, w, ClientStep(k, fault, pick));
    ClientWriteEffect(w.s, k, fault, pick);
    LossesStay(rules, w, k, fault, pick);
    StampKeeps(w, w', k);
    if w'.s.store == w.s.store { IdleKeeps(w, w', k); } else { WriteKeepsReady(w, w', k); }
  }

  /** A failed write ends the reconcile. */
  lemma IdleKeeps(w: Watched, w': Watched, k: Key)
    requires ReadyOK(w, k) && w'.s.store == w.s.store && CPC(w'.s, k).CIdle?
    requires SameLosses(w, w') && StampMoves(w, w', k)
    ensures ReadyOK(w', k)
  {
  }

  /** Where the worker goes from the remaining calls. */
  lemma OtherGoes(s: State, k: Key, fault: Fault, pick: Pick)
    requires HasRealm(CPC(s, k)) && !ClientWrites(CPC(s, k)) && !ClientCallsAdmin(CPC(s, k))
    ensures var pc, pc' := CPC(s, k), CPC(StepClient(s, k, fault, pick), k);
      GoesOn(pc, pc') && !Confirms(pc, pc') && !HasID(pc') && !pc'.CFindAgain?
  {
  }

  lemma ReadGoes(s: State, k: Key, fault: Fault, pick: Pick)
    requires !HasRealm(CPC(s, k)) && !ClientWrites(CPC(s, k)) && !ClientCallsAdmin(CPC(s, k))
    ensures var pc, pc' := CPC(s, k), CPC(StepClient(s, k, fault, pick), k);
      && !Told(pc') && !HasID(pc') && !pc'.CFindAgain? && !Confirms(pc, pc')
      && (HasRealm(pc') ==> (Releasing(pc') <==> pc'.kc.deleting))
      && (pc'.CMark? ==> !pc'.mark.Ready?)
      && (HasKC(pc') ==> (pc.CGetRealm? && pc'.kc == pc.kc) || (k in s.store.clients && pc'.kc == s.store.clients[k]))
  {
  }

  lemma OwnOtherKeeps(rules: Rules, w: Watched, k: Key, fault: Fault, pick: Pick)
    requires KeyOK(w, k) && ClientWorkerOK(w.s, k) && !ClientWrites(CPC(w.s, k)) && !ClientCallsAdmin(CPC(w.s, k))
    ensures KeyOK(Watch(rules, w, ClientStep(k, fault, pick)), k)
  {
    var w' := Watch(rules, w, ClientStep(k, fault, pick));
    ClientOtherEffect(w.s, k, fault, pick);
    LossesStay(rules, w, k, fault, pick);
    StampKeeps(w, w', k);
    if HasRealm(CPC(w.s, k)) {
      OtherGoes(w.s, k, fault, pick);
      AdminKeepsReady(w, w', k);
      AdminKeepsTeller(w, w', k);
    } else {
      ReadGoes(w.s, k, fault, pick);
      ReadKeeps(w, w', k);
    }
  }

  /** A fresh copy, or the one the worker has, with the server as it was. */
  lemma ReadKeeps(w: Watched, w': Watched, k: Key)
    requires ReadyOK(w, k) && SameLosses(w, w') && StampMoves(w, w', k)
    requires w'.s.store.clients == w.s.store.clients && w'.s.store.server == w.s.store.server
    requires var pc, pc' := CPC(w.s, k), CPC(w'.s, k);
      && !Told(pc') && !HasID(pc') && !pc'.CFindAgain? && !Confirms(pc, pc')
      && (HasRealm(pc') ==> (Releasing(pc') <==> pc'.kc.deleting))
      && (pc'.CMark? ==> !pc'.mark.Ready?)
      && (HasKC(pc') ==> (pc.CGetRealm? && pc'.kc == pc.kc) || (k in w.s.store.clients && pc'.kc == w.s.store.clients[k]))
    ensures ReadyOK(w', k) && TellerOK(w', k)
  {
  }

  lemma ClientStepKeepsTrue(rules: Rules, w: Watched, k: Key, fault: Fault, pick: Pick)
    requires TrueSoFar(rules, w)
    ensures forall n :: KeyOK(Watch(rules, w, ClientStep(k, fault, pick)), n)
  {
    assert Common(w.s) && ClientWorkerOK(w.s, k) && KeyOK(w, k);
    if ClientCallsAdmin(CPC(w.s, k)) {
      OwnAdminKeeps(rules, w, k, fault, pick);
    } else if ClientWrites(CPC(w.s, k)) {
      OwnWriteKeeps(rules, w, k, fault, pick);
    } else {
      OwnOtherKeeps(rules, w, k, fault, pick);
    }
    forall n ensures KeyOK(Watch(rules, w, ClientStep(k, fault, pick)), n) {
      if n != k { ClientStepSparesOthers(rules, w, k, fault, pick, n); }
    }
  }

  // ---------- Crashes and users ----------

  lemma ClientCrashKeepsTrue(rules: Rules, w: Watched, k: Key)
    requires TrueSoFar(rules, w)
    ensures forall n :: KeyOK(Watch(rules, w, ClientCrash(k)), n)
  {
    var w' := Watch(rules, w, ClientCrash(k));
    WatchingCounts(rules, w, ClientCrash(k));
    SameBeside(w.s.store.server, "", "");
    forall n ensures KeyOK(w', n) {
      assert KeyOK(w, n);
      StampsStay(rules, w, ClientCrash(k), n);
      if n != k {
        NobodysNothing(rules, w, n);
        BystanderKeeps(w, w', n, "", "");
      }
    }
  }

  /** A user's edit raises the generation above any Ready mark, and so does the
      first deletion. */
  lemma UserKeepsReady(rules: Rules, w: Watched, u: UserAct)
    requires ReadyOK(w, u.key) && Allowed(rules, w.s, u) && !ActsOnRealm(u)
    ensures ReadyOK(Untold(w, UserStep(w.s, u)), u.key)
  {
  }

  /** Nothing told, nothing lost. */
  function Untold(w: Watched, s': State): Watched {
    w.(s := s'.(readyNames := w.s.readyNames + ReadyNow(s'.store)))
  }

  lemma UsersTellNothing(rules: Rules, w: Watched, u: UserAct)
    requires Allowed(rules, w.s, u) && !ActsOnRealm(u)
    ensures Watch(rules, w, User(u)) == Untold(w, UserStep(w.s, u)) && UserStep(w.s, u).clientPCs == w.s.clientPCs
  {
    UsersLeaveServer(w.s, u);
    assert Watch(rules, w, User(u)).losses == w.losses;
  }

  lemma UserKeepsOwn(rules: Rules, w: Watched, u: UserAct)
    requires KeyOK(w, u.key) && Allowed(rules, w.s, u) && !ActsOnRealm(u)
    ensures KeyOK(Watch(rules, w, User(u)), u.key)
  {
    UsersLeaveServer(w.s, u);
    UsersTellNothing(rules, w, u);
    UserKeepsReady(rules, w, u);
  }

  lemma UserKeepsTrue(rules: Rules, w: Watched, u: UserAct)
    requires Tidy(rules) && TrueSoFar(rules, w) && Allowed(rules, w.s, u) && !ActsOnRealm(u)
    ensures forall n :: KeyOK(Watch(rules, w, User(u)), n)
  {
    var w' := Watch(rules, w, User(u));
    assert Common(w.s);
    UserClientFrame(rules, w.s, u);
    UsersLeaveServer(w.s, u);
    WatchingCounts(rules, w, User(u));
    SameBeside(w.s.store.server, "", "");
    forall n ensures KeyOK(w', n) {
      assert KeyOK(w, n);
      StampsStay(rules, w, User(u), n);
      if n == u.key {
        UserKeepsOwn(rules, w, u);
      } else {
        NobodysNothing(rules, w, n);
        BystanderKeeps(w, w', n, "", "");
      }
    }
  }

  lemma UserOfRealmsKeepsTrue(rules: Rules, w: Watched, u: UserAct)
    requires Tidy(rules) && TrueSoFar(rules, w) && Inv(rules, Watch(rules, w, User(u)).s) && (Allowed(rules, w.s, u) ==> ActsOnRealm(u))
    ensures TrueSoFar(rules, Watch(rules, w, User(u)))
  {
    assert Common(w.s);
    if Allowed(rules, w.s, u) {
      UserRealmFrame(rules, w.s, u);
      UsersLeaveServer(w.s, u);
    }
    SameBeside(w.s.store.server, "", "");
    RealmSideKeeps(rules, w, User(u));
  }

  // ---------- Runs ----------

  lemma ActionKeepsTrue(rules: Rules, w: Watched, a: Action)
    requires Tidy(rules) && TrueSoFar(rules, w)
    ensures TrueSoFar(rules, Watch(rules, w, a))
  {
    ActionKeeps(rules, w.s, a);
    match a {
      case RealmStep(m, fault, pick) => RealmStepKeepsTrue(rules, w, m, fault, pick);
      case ClientStep(k, fault, pick) => ClientStepKeepsTrue(rules, w, k, fault, pick);
      case RealmCrash(m) =>
        SameBeside(w.s.store.server, "", "");
        RealmSideKeeps(rules, w, a);
      case ClientCrash(k) => ClientCrashKeepsTrue(rules, w, k);
      case User(u) =>
        if Allowed(rules, w.s, u) && !ActsOnRealm(u) { UserKeepsTrue(rules, w, u); } else { UserOfRealmsKeepsTrue(rules, w, u); }
    }
  }

  lemma {:induction false} WatchRunKeeps(rules: Rules, run: seq<Action>)
    requires Tidy(rules)
    ensures TrueSoFar(rules, WatchRun(rules, run))
  {
    if run == [] {
      StartInv(rules);
    } else {
      WatchRunKeeps(rules, run[..|run| - 1]);
      ActionKeepsTrue(rules, WatchRun(rules, run[..|run| - 1]), run[|run| - 1]);
    }
  }

  /** The state after the first i actions of a run. */
  function At(rules: Rules, run: seq<Action>, i: nat): State
    requires i <= |run|
  {
    Exec(rules, START, run[..i])
  }

  /** The action tells k's worker that its client is in realm r as wanted. */
  predicate Tells(s: State, a: Action, s': State, k: Key, r: string) {
    && a.ClientStep? && a.key == k && Confirms(CPC(s, k), CPC(s', k))
    && HasRealm(CPC(s', k)) && CPC(s', k).realm == r
  }

  predicate ToldAt(rules: Rules, run: seq<Action>, j: nat, k: Key, r: string) {
    j < |run| && Tells(At(rules, run, j), run[j], At(rules, run, j + 1), k, r)
  }

  function WatchedAt(rules: Rules, run: seq<Action>, i: nat): (w: Watched)
    requires i <= |run|
  {
    WatchRun(rules, run[..i])
  }

  lemma WatchNext(rules: Rules, run: seq<Action>, i: nat)
    requires i < |run|
    ensures WatchedAt(rules, run, i + 1) == Watch(rules, WatchedAt(rules, run, i), run[i])
    ensures WatchedAt(rules, run, i).s == At(rules, run, i) && WatchedAt(rules, run, i + 1).s == At(rules, run, i + 1)
  {
    assert run[..i + 1][..i] == run[..i];
    WatchingChangesNothing(rules, run[..i]);
    WatchingChangesNothing(rules, run[..i + 1]);
  }

  /** A stamp is set by the action, or was there before. */
  lemma StampFrom(rules: Rules, w: Watched, a: Action, w': Watched, k: Key)
    requires w' == Watch(rules, w, a) && k in w'.stamps
    ensures (k in w.stamps && w'.stamps[k] == w.stamps[k])
            || (Tells(w.s, a, w'.s, k, w'.stamps[k].realm) && w'.stamps[k].losses == Losses(w', w'.stamps[k].realm))
  {
  }

  predicate StampedBy(rules: Rules, run: seq<Action>, j: nat, k: Key, stamp: Stamp) {
    j < |run| && ToldAt(rules, run, j, k, stamp.realm) && stamp.losses == Losses(WatchedAt(rules, run, j + 1), stamp.realm)
  }

  lemma LastStamp(rules: Rules, run: seq<Action>, j: nat, k: Key)
    requires j < |run| && k in WatchedAt(rules, run, j + 1).stamps
    ensures var stamp := WatchedAt(rules, run, j + 1).stamps[k];
      (k in WatchedAt(rules, run, j).stamps && WatchedAt(rules, run, j).stamps[k] == stamp) || StampedBy(rules, run, j, k, stamp)
  {
    WatchNext(rules, run, j);
    StampFrom(rules, WatchedAt(rules, run, j), run[j], WatchedAt(rules, run, j + 1), k);
  }

  /** A stamp goes back to the action that set it. */
  lemma {:induction false} StampedAt(rules: Rules, run: seq<Action>, n: nat, k: Key) returns (j: nat)
    requires n <= |run| && k in WatchedAt(rules, run, n).stamps
    ensures StampedBy(rules, run, j, k, WatchedAt(rules, run, n).stamps[k])
    decreases n
  {
    assert n > 0;
    j := n - 1;
    LastStamp(rules, run, j, k);
    if k in WatchedAt(rules, run, j).stamps && WatchedAt(rules, run, j).stamps[k] == WatchedAt(rules, run, n).stamps[k] { j := StampedAt(rules, run, j, k); }
  }

  lemma NotLostBy(rules: Rules, w: Watched, a: Action, r: string)
    requires r in Watch(rules, w, a).s.store.server.realms
    ensures Losses(Watch(rules, w, a), r) == Losses(w, r)
  {
  }

  /** Nothing is counted while the realm is there. */
  lemma {:induction false} NotLost(rules: Rules, run: seq<Action>, j: nat, n: nat, r: string)
    requires j <= n <= |run| && forall i | j <= i <= n :: r in At(rules, run, i).store.server.realms
    ensures Losses(WatchedAt(rules, run, n), r) == Losses(WatchedAt(rules, run, j), r)
    decreases n
  {
    if j < n {
      NotLost(rules, run, j, n - 1, r);
      WatchNext(rules, run, n - 1);
      NotLostBy(rules, WatchedAt(rules, run, n - 1), run[n - 1], r);
    }
  }

  /** Whenever a client resource is Ready at its generation, it is live and
      pinned, its status gives the names its specification asks for, and at some
      point its worker was told that the client is in the pinned realm; if that
      realm has been there ever since, so has the client, with every setting the
      present specification gives. */
  lemma {:induction false} ReadyClientsExist(rules: Rules, run: seq<Action>, k: Key) returns (j: nat)
    requires Tidy(rules) && SaysReady(At(rules, run, |run|).store, k)
    ensures var st := At(rules, run, |run|).store;
      var kc := st.clients[k];
      var r := kc.status.realm;
      && !kc.deleting && r != "" && ToldAt(rules, run, j, k, r)
      && ClientNamed(k, kc.spec, kc.status.clientID) && SecretNamed(k, kc.spec, Key(kc.spec.namespace, kc.status.secretName))
      && ((forall i | j < i <= |run| :: r in At(rules, run, i).store.server.realms) ==> StandsIn(st.server, k, kc.spec, r))
  {
    var w := WatchRun(rules, run);
    assert run[..|run|] == run;
    WatchingChangesNothing(rules, run);
    WatchRunKeeps(rules, run);
    assert KeyOK(w, k);
    j := StampedAt(rules, run, |run|, k);
    var kc := w.s.store.clients[k];
    var r := kc.status.realm;
    if forall i | j < i <= |run| :: r in At(rules, run, i).store.server.realms {
      NotLost(rules, run, j + 1, |run|, r);
      GoodStands(w.s.store.server, k, kc.spec, r);
    }
  }
}
