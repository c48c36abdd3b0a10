// What an undisturbed remote call is known to have done, whichever way it ended.
// The reconcilers use these facts when no other actor interferes.
module Undisturbed {
  import opened Kube
  import opened KeycloakServer
  import opened Machine
  import opened NoOrphan
  import opened Passes

  datatype Lookup = LookupFailed | NotThere | There(rep: ClientRep)

  datatype ClientResult = ClientFailed | ClientResult(id: nat, secret: Option<Secret>, created: bool)

  predicate OfRealm(a: Action, m: Key) {
    (a.RealmStep? || a.RealmCrash?) && a.key == m
  }

  predicate OfClient(a: Action, k: Key) {
    (a.ClientStep? || a.ClientCrash?) && a.key == k
  }

  function Writes(req: Request): nat {
    if req.GetRealm? || req.ListClients? || req.GetSecret? then 0 else 1
  }

  /** What an undisturbed call did: answered with the effect, or failed in one of the two ways. */
  ghost predicate Performed(st: Store, call: Call, fine: bool, st': Store, answer: Answer) {
    exists fault: Fault, pick: Pick :: (fine ==> fault.Fine?) && Perform(st, call, fault, pick) == (st', answer)
  }

  /** A call that is answered took effect. */
  lemma AnswerMeansDone(st: Store, call: Call, fault: Fault, pick: Pick)
    requires !Perform(st, call, fault, pick).1.Refused?
    ensures Perform(st, call, Fine, pick) == Perform(st, call, fault, pick)
  {
  }

  /** Only its own actions move a worker. */
  lemma WorkersRunThemselves(rules: Rules, s: State, a: Action)
    ensures forall m | !OfRealm(a, m) :: RPC(Apply(rules, s, a), m) == RPC(s, m)
    ensures forall k | !OfClient(a, k) :: CPC(Apply(rules, s, a), k) == CPC(s, k)
  {
    match a {
      case User(u) => if Allowed(rules, s, u) { UsersMoveNoWorker(s, u); }
      case RealmStep(m, fault, pick) => RealmStepMovesOne(s, m, fault, pick);
      case ClientStep(k, fault, pick) => ClientStepMovesOne(s, k, fault, pick);
      case _ =>
    }
  }

  lemma RealmStepMovesOne(s: State, m: Key, fault: Fault, pick: Pick)
    ensures var s' := StepRealm(s, m, fault, pick);
      s'.clientPCs == s.clientPCs && forall n | n != m :: RPC(s', n) == RPC(s, n)
  {
  }

  lemma ClientStepMovesOne(s: State, k: Key, fault: Fault, pick: Pick)
    ensures var s' := StepClient(s, k, fault, pick);
      s'.realmPCs == s.realmPCs && forall n | n != k :: CPC(s', n) == CPC(s, n)
  {
  }

  lemma UsersMoveNoWorker(s: State, u: UserAct)
    requires Allowed(FREE, s, u)
    ensures UserStep(s, u).realmPCs == s.realmPCs && UserStep(s, u).clientPCs == s.clientPCs
  {
  }

  /** What an answer to a listing says about the wanted client. */
  function Found(answer: Answer, clientID: string): Lookup {
    if !answer.Replied? || !answer.body.Listing? then LookupFailed
    else
      var hit := FirstExact(answer.body.clients, clientID);
      if hit.None? then NotThere else There(hit.value)
  }

  predicate Looking(pc: ClientPC) {
    pc.CDelFind? || pc.CFind? || pc.CFindAgain?
  }

  lemma {:induction false} FirstExactMatches(listing: seq<ClientRep>, clientID: string)
    ensures FirstExact(listing, clientID).Some? ==> FirstExact(listing, clientID).value.clientID == clientID
  {
    if listing != [] { FirstExactMatches(listing[1..], clientID); }
  }

  lemma FoundDecides(k: Key, pc: ClientPC, answer: Answer)
    requires Looking(pc)
    ensures ClientResume(k, pc, answer) == Looked(k, pc, Found(answer, EffClientID(k, pc.kc.spec)))
  {
    if answer.Replied? && answer.body.Listing? {
      FirstExactMatches(answer.body.clients, EffClientID(k, pc.kc.spec));
    }
  }

  /** An undisturbed listing tells the truth, unless it fails. */
  lemma ListingTellsTruth(st: Store, realm: string, clientID: string, fine: bool, st': Store, answer: Answer)
    requires WellFormed(st.server) && Performed(st, Admin(ListClients(realm, clientID)), fine, st', answer)
    ensures st' == st
    ensures var found := Found(answer, clientID);
      found == Look(st.server, realm, clientID) || (!fine && found == LookupFailed)
  {
    var fault: Fault, pick: Pick :| (fine ==> fault.Fine?) && Perform(st, Admin(ListClients(realm, clientID)), fault, pick) == (st', answer);
    ListFinds(st.server, realm, clientID, pick);
  }

  ghost predicate Either(st': Store, st: Store, done: Store) {
    st' == st || st' == done
  }

  lemma PostCreates(st: Store, realm: string, rep: ClientRep, fine: bool, st': Store, answer: Answer)
    requires realm in st.server.realms && !HasClient(st.server, realm, rep.clientID)
    requires Performed(st, Admin(PostClient(realm, rep)), fine, st', answer)
    ensures var done := st.(server := EnsuredClient(st.server, realm, rep));
      Either(st', st, done) && (answer.Replied? ==> st' == done) && (fine ==> answer.Replied?)
  {
  }

  lemma PutReplaces(st: Store, realm: string, id: nat, rep: ClientRep, fine: bool, st': Store, answer: Answer)
    requires WellFormed(st.server) && HasClient(st.server, realm, rep.clientID)
    requires st.server.realms[realm].clients[rep.clientID].id == id
    requires Performed(st, Admin(PutClient(realm, id, rep.(id := id))), fine, st', answer)
    ensures var done := st.(server := EnsuredClient(st.server, realm, rep));
      Either(st', st, done) && (answer.Replied? ==> st' == done) && (fine ==> answer.Replied?)
  {
    var clients := st.server.realms[realm].clients;
    assert ClientsOK(clients, st.server.nextID);
    assert Replaced(clients, id, rep.(id := id)) == clients[rep.clientID := rep.(id := id)];
  }

  lemma SecretIsFetched(st: Store, realm: string, id: nat, clientID: string, fine: bool, st': Store, answer: Answer)
    requires HasClient(st.server, realm, clientID) && st.server.realms[realm].clients[clientID].id == id
    requires Performed(st, Admin(GetSecret(realm, id)), fine, st', answer)
    ensures st' == st && (answer == Replied(SecretBody(SecretOf(id))) || (answer == Refused && !fine))
  {
  }

  lemma DeleteDrops(st: Store, realm: string, id: nat, clientID: string, fine: bool, st': Store, answer: Answer)
    requires WellFormed(st.server) && HasClient(st.server, realm, clientID)
    requires st.server.realms[realm].clients[clientID].id == id
    requires Performed(st, Admin(DeleteClient(realm, id)), fine, st', answer)
    ensures var done := st.(server := DroppedClient(st.server, realm, clientID));
      Either(st', st, done) && (answer.Replied? ==> st' == done) && (fine ==> answer.Replied?)
  {
    var clients := st.server.realms[realm].clients;
    assert ClientsOK(clients, st.server.nextID);
    assert Without(clients, id) == clients - {clientID};
  }

  function WithSecret(st: Store, key: Key, tenant: string, data: map<string, Datum>): Store {
    var was := if key in st.secrets then st.secrets[key].data else map[];
    st.(secrets := st.secrets[key := TenantSecret(tenant, was + data)])
  }

  /** The stored client resource with its secret and Ready status written. */
  function Published(st: Store, k: Key, realm: string, secret: Option<Secret>): Store
    requires k in st.clients
  {
    var kc := st.clients[k];
    PutClientCR(WithSecret(st, SecretKey(k, kc.spec), kc.spec.tenantID, SecretData(k, kc.spec, realm, secret)),
                k, kc.(status := ReadyStatus(k, kc, realm)))
  }

  /** Ensuring the client and publishing its secret is provisioning. */
  lemma PublishingProvisions(st: Store, k: Key, realm: string, id: nat)
    requires k in st.clients && realm in st.server.realms
    requires var server := EnsuredClient(st.server, realm, Desired(k, st.clients[k].spec));
      id == server.realms[realm].clients[EffClientID(k, st.clients[k].spec)].id
    ensures var kc := st.clients[k];
      var ensured := st.(server := EnsuredClient(st.server, realm, Desired(k, kc.spec)));
      Published(ensured, k, realm, if kc.spec.isPublic then None else Some(SecretOf(id))) == Provisioned(st, k, realm)
  {
  }

  /** What an undisturbed reconcile returns. */
  function ProvisionResult(st: Store, kc: ClientCR, realm: string, ready: bool): Result {
    if realm == "" then RequeueAfter(30)
    else if kc.status.realm == "" && !ready then RequeueAfter(15)
    else if realm !in st.server.realms then Errored
    else Finished
  }

  function PassResult(st: Store, k: Key): Result {
    if k !in st.clients then Finished
    else
      var kc, realm := st.clients[k], TeardownRealm(st, k);
      if kc.deleting then
        if FINALIZER in kc.finalizers && realm != "" && realm !in st.server.realms then Errored else Finished
      else if FINALIZER !in kc.finalizers then Finished
      else ProvisionResult(st, kc, realm, RealmReady(st, RefKey(k, kc.spec)))
  }

  function WithRealm(st: Store, spec: RealmSpec): Store {
    st.(server := EnsuredRealm(st.server, RealmRepOf(spec)))
  }

  predicate RealmUpToDate(server: Server, spec: RealmSpec) {
    && EffName(spec) in server.realms
    && server.realms[EffName(spec)].displayName == spec.displayName && server.realms[EffName(spec)].enabled == spec.enabled
  }

  lemma RealmIsRead(st: Store, spec: RealmSpec, fine: bool, st': Store, answer: Answer)
    requires Performed(st, Admin(GetRealm(EffName(spec))), fine, st', answer)
    ensures st' == st && (fine ==> !answer.Refused?)
    ensures answer.Missing? ==> EffName(spec) !in st.server.realms
    ensures answer.Replied? ==>
      && EffName(spec) in st.server.realms && answer.body.RealmBody?
      && (answer.body.rep.displayName == spec.displayName && answer.body.rep.enabled == spec.enabled <==> RealmUpToDate(st.server, spec))
    ensures RealmUpToDate(st.server, spec) ==> WithRealm(st, spec) == st
    ensures answer.Missing? || answer.Replied? || answer.Refused?
  {
    if RealmUpToDate(st.server, spec) {
      assert EnsuredRealm(st.server, RealmRepOf(spec)).realms == st.server.realms;
    }
  }

  lemma RealmIsWritten(st: Store, spec: RealmSpec, call: Call, fine: bool, st': Store, answer: Answer)
    requires call == Admin(if EffName(spec) in st.server.realms then PutRealm(EffName(spec), RealmRepOf(spec)) else PostRealm(RealmRepOf(spec)))
    requires Performed(st, call, fine, st', answer)
    ensures Either(st', st, WithRealm(st, spec)) && (answer.Replied? ==> st' == WithRealm(st, spec)) && (fine ==> answer.Replied?)
  {
  }

  lemma RealmGoes(st: Store, name: string, st': Store, answer: Answer)
    requires Performed(st, Admin(DeleteRealm(name)), true, st', answer)
    ensures st' == st.(server := st.server.(realms := st.server.realms - {name})) && (answer.Replied? || answer.Missing?)
  {
    assert name !in st.server.realms ==> st.server.realms - {name} == st.server.realms;
  }

  /** Calls to Keycloak leave the resources alone, and writes of a realm resource leave Keycloak alone. */
  lemma StoresApart(st: Store, call: Call, fine: bool, st': Store, answer: Answer)
    requires Performed(st, call, fine, st', answer)
    ensures call.Admin? ==> st'.realms == st.realms && st'.clients == st.clients
    ensures call.UpdateRealmCR? || call.StatusRealmCR? ==> st'.server == st.server
  {
  }

  lemma RealmWriteLands(st: Store, m: Key, call: Call, st': Store, answer: Answer)
    requires (call.UpdateRealmCR? || call.StatusRealmCR?) && call.key == m && Performed(st, call, true, st', answer)
    requires m in st.realms && st.realms[m].revision == call.realm.revision
    ensures answer.Done?
    ensures st' == PutRealmCR(st, m, if call.UpdateRealmCR? then st.realms[m].(finalizers := call.realm.finalizers)
                                     else st.realms[m].(status := call.realm.status))
  {
  }

  /** The realm resource is there, with the finalizer. */
  predicate Carries(st: Store, m: Key) {
    m in st.realms && FINALIZER in st.realms[m].finalizers
  }

  /** The worker's copy of the object is the stored one. */
  predicate Reads(st: Store, k: Key, kc: ClientCR) {
    k in st.clients && st.clients[k] == kc
  }

  lemma ActingIsFree(st: Store, account: string, st': Store, answer: Answer)
    requires Performed(st, Impersonate(account), true, st', answer)
    ensures st' == st && answer.Done?
  {
  }

  lemma SecretLands(st: Store, key: Key, tenant: string, data: map<string, Datum>, st': Store, answer: Answer)
    requires Performed(st, PutSecret(key, tenant, data), true, st', answer)
    ensures answer.Done?
    ensures st' == WithSecret(st, key, tenant, data)
  {
  }

  lemma ReadTellsTruth(st: Store, call: Call, st': Store, answer: Answer)
    requires Performed(st, call, true, st', answer) && (call.GetClientCR? || call.GetRealmCR?)
    ensures st' == st
    ensures call.GetClientCR? ==> answer == if call.key in st.clients then GotClient(st.clients[call.key]) else Missing
    ensures call.GetRealmCR? ==> answer == if call.key in st.realms then GotRealm(st.realms[call.key]) else Missing
  {
  }

  lemma SecretGoes(st: Store, key: Key, st': Store, answer: Answer)
    requires Performed(st, DeleteSecret(key), true, st', answer)
    ensures st' == st.(secrets := st.secrets - {key}) && (answer.Done? || answer.Missing?)
  {
    assert key !in st.secrets ==> st.secrets - {key} == st.secrets;
  }

  lemma UpdateLands(st: Store, k: Key, kc: ClientCR, st': Store, answer: Answer)
    requires Performed(st, UpdateClientCR(k, kc), true, st', answer)
    requires k in st.clients && st.clients[k].revision == kc.revision
    ensures st' == PutClientCR(st, k, st.clients[k].(finalizers := kc.finalizers)) && answer.Done?
  {
  }

  /** A status write of an object that is gone says so. */
  lemma StatusMisses(st: Store, k: Key, kc: ClientCR, st': Store, answer: Answer)
    requires Performed(st, StatusClientCR(k, kc), true, st', answer) && k !in st.clients
    ensures st' == st && answer.Missing?
  {
  }

  lemma StatusLands(st: Store, k: Key, kc: ClientCR, st': Store, answer: Answer)
    requires Performed(st, StatusClientCR(k, kc), true, st', answer)
    requires k in st.clients && st.clients[k].revision == kc.revision
    ensures st' == PutClientCR(st, k, st.clients[k].(status := kc.status)) && answer.Done?
  {
  }

  /** With no competing writer: on success the client is gone, on failure it is gone or untouched. */
  ghost predicate Dropped(st: Store, st': Store, realm: string, clientID: string, ok: bool, fine: bool) {
    if realm !in st.server.realms then st' == st && !ok
    else
      var done := st.(server := DroppedClient(st.server, realm, clientID));
      Either(st', st, done) && (ok ==> st' == done) && (fine ==> ok)
  }

  function Obtained(pc: ClientPC, id: Option<nat>): ClientPC
    requires HasRealm(pc)
  {
    if id.Some? then Ensured(pc.kc, pc.realm, id.value) else CMark(pc.kc, Failed(pc.kc.generation))
  }

  /** The client is set or untouched; with an id in hand it is set and that is its id. */
  ghost predicate Has(st: Store, st': Store, realm: string, rep: ClientRep, id: Option<nat>, fine: bool) {
    && Wrote(st, st', realm, rep, id.Some?, fine)
    && (id.Some? ==> Holds(st', realm, rep.clientID, id.value))
  }

  predicate Holds(st: Store, realm: string, clientID: string, id: nat) {
    HasClient(st.server, realm, clientID) && st.server.realms[realm].clients[clientID].id == id
  }

  ghost predicate Wrote(st: Store, st': Store, realm: string, rep: ClientRep, ok: bool, fine: bool) {
    && realm in st.server.realms
    && var done := st.(server := EnsuredClient(st.server, realm, rep));
       Either(st', st, done) && (ok ==> st' == done) && (fine ==> ok)
  }

  /** A client just created is found, unless the lookup fails. */
  lemma CreatedIsHad(st: Store, st': Store, realm: string, rep: ClientRep, found: Lookup, fine: bool)
    requires realm in st.server.realms && !HasClient(st.server, realm, rep.clientID)
    requires st' == st.(server := EnsuredClient(st.server, realm, rep))
    requires found in {Look(st'.server, realm, rep.clientID), LookupFailed} && (fine ==> !found.LookupFailed?)
    ensures Has(st, st', realm, rep, if found.There? then Some(found.rep.id) else None, fine)
  {
  }

  lemma UpToDateStays(server: Server, realm: string, rep: ClientRep)
    requires WellFormed(server) && UpToDate(server, realm, rep)
    ensures EnsuredClient(server, realm, rep) == server
  {
    var clients := server.realms[realm].clients;
    assert ClientsOK(clients, server.nextID);
    assert rep.(id := clients[rep.clientID].id) == clients[rep.clientID];
    assert clients[rep.clientID := clients[rep.clientID]] == clients;
    assert server.realms[realm := server.realms[realm]] == server.realms;
  }

  /** With no competing writer: on success the managed fields are set and the
      result describes the client; on failure they are set or untouched. */
  ghost predicate Ensures(st: Store, st': Store, realm: string, rep: ClientRep, res: ClientResult, fine: bool) {
    if realm !in st.server.realms then st' == st && res.ClientFailed?
    else
      var done := st.(server := EnsuredClient(st.server, realm, rep));
      && Either(st', st, done)
      && (fine ==> res.ClientResult?)
      && (res.ClientResult? ==>
            && st' == done
            && res.id == done.server.realms[realm].clients[rep.clientID].id
            && res.secret == (if rep.publicClient then None else Some(SecretOf(res.id)))
            && (res.created <==> !HasClient(st.server, realm, rep.clientID)))
  }

  predicate UpToDate(server: Server, realm: string, rep: ClientRep) {
    HasClient(server, realm, rep.clientID) && SameManaged(server.realms[realm].clients[rep.clientID], rep)
  }

  /** What a client worker does next once it has looked for its client. */
  function Looked(k: Key, pc: ClientPC, found: Lookup): ClientPC
    requires Looking(pc)
  {
    if pc.CDelFind? then
      match found
      case LookupFailed => CIdle
      case NotThere => CDelImpersonate(pc.kc, pc.realm)
      case There(rep) => CDelClient(pc.kc, pc.realm, rep.id)
    else if found.LookupFailed? then CMark(pc.kc, Failed(pc.kc.generation))
    else if found.NotThere? then
      if pc.CFind? then CPost(pc.kc, pc.realm) else CMark(pc.kc, Failed(pc.kc.generation))
    else if pc.CFind? && !SameManaged(found.rep, Desired(k, pc.kc.spec)) then CPut(pc.kc, pc.realm, found.rep.id)
    else Ensured(pc.kc, pc.realm, found.rep.id)
  }

  function Look(server: Server, realm: string, clientID: string): Lookup {
    if realm !in server.realms then LookupFailed
    else if clientID in server.realms[realm].clients then There(server.realms[realm].clients[clientID])
    else NotThere
  }
}
