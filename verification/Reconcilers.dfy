// The reconcile loops as they are written - local variables, early returns,
// nested helpers - over stores that other actors keep changing between calls.
// Every call is the one the step machine's worker would make next, so each
// loop is a run of the machine; left undisturbed it is exactly one pass.
module Reconcilers {
  import opened Kube
  import opened KeycloakServer
  import opened Machine
  import opened NoOrphan
  import opened Passes
  import opened Undisturbed
  import opened KeycloakContents

  class Operator {
    const rules: Rules
    var st: State
    var schedule: seq<Tick<Action, Pick>>
    var writes: nat
    ghost var log: seq<Action>

    /** The state is the one the logged run leads to. */
    ghost predicate Valid()
      reads this
    {
      st == Exec(rules, START, log)
    }

    constructor (rules: Rules, schedule: seq<Tick<Action, Pick>>)
      ensures Valid() && this.rules == rules && this.schedule == schedule && st == START && log == []
    {
      this.rules, this.schedule, st, writes, log := rules, schedule, START, 0, [];
    }

    method Act(a: Action)
      requires Valid()
      modifies this`st, this`log
      ensures Valid() && st == Apply(rules, old(st), a) && log == old(log) + [a]
    {
      st := Apply(rules, st, a);
      log := log + [a];
      assert log[..|log| - 1] == old(log);
    }

    /** Lets the others act. The worker's own steps and its crash are not theirs to take. */
    method LetOthersAct(others: seq<Action>, m: Option<Key>, k: Option<Key>)
      requires Valid()
      modifies this`st, this`log
      ensures Valid() && old(log) <= log
      ensures m.Some? ==> RPC(st, m.value) == old(RPC(st, m.value))
      ensures k.Some? ==> CPC(st, k.value) == old(CPC(st, k.value))
      ensures others == [] ==> st == old(st)
    {
      for i := 0 to |others|
        invariant Valid() && old(log) <= log
        invariant m.Some? ==> RPC(st, m.value) == old(RPC(st, m.value))
        invariant k.Some? ==> CPC(st, k.value) == old(CPC(st, k.value))
        invariant i == 0 ==> st == old(st)
      {
        var mine := (m.Some? && OfRealm(others[i], m.value)) || (k.Some? && OfClient(others[i], k.value));
        if !mine {
          WorkersRunThemselves(rules, st, others[i]);
          Act(others[i]);
        }
      }
    }

    method NextTick() returns (t: Tick<Action, Pick>)
      modifies this`schedule
      ensures Calm(old(schedule)) ==> Calm(schedule) && t.others == []
      ensures Quiet(old(schedule)) ==> Quiet(schedule) && t.others == [] && t.fault.Fine?
    {
      t := Tick([], Fine, NOPICK);
      if schedule != [] {
        t := schedule[0];
        schedule := schedule[1..];
      }
    }

    /** One remote call of the realm worker for m. */
    method CallForRealm(m: Key, call: Call) returns (answer: Answer)
      requires Valid() && !RPC(st, m).RIdle? && call == RealmCall(m, RPC(st, m))
      modifies this
      ensures Valid() && old(log) <= log
      ensures RPC(st, m) == RealmResume(old(RPC(st, m)), answer)
      ensures Calm(old(schedule)) ==> Calm(schedule) && Performed(old(st.store), call, Quiet(old(schedule)), st.store, answer)
      ensures Calm(old(schedule)) && !answer.Refused? ==> Performed(old(st.store), call, true, st.store, answer)
      ensures Quiet(old(schedule)) ==> Quiet(schedule)
      ensures writes == old(writes) + if call.Admin? then Writes(call.request) else 0
    {
      var t := NextTick();
      LetOthersAct(t.others, Some(m), None);
      var (store, reply) := Perform(st.store, call, t.fault, t.pick);
      answer := reply;
      if !answer.Refused? { AnswerMeansDone(st.store, call, t.fault, t.pick); }
      writes := writes + if call.Admin? then Writes(call.request) else 0;
      Act(RealmStep(m, t.fault, t.pick));
    }

    /** One remote call of the client worker for k. */
    method CallForClient(k: Key, call: Call) returns (answer: Answer)
      requires Valid() && !CPC(st, k).CIdle? && call == ClientCall(k, CPC(st, k))
      modifies this
      ensures Valid() && old(log) <= log
      ensures CPC(st, k) == ClientResume(k, old(CPC(st, k)), answer)
      ensures Calm(old(schedule)) ==> Calm(schedule) && Performed(old(st.store), call, Quiet(old(schedule)), st.store, answer)
      ensures Calm(old(schedule)) && !answer.Refused? ==> Performed(old(st.store), call, true, st.store, answer)
      ensures Quiet(old(schedule)) ==> Quiet(schedule)
      ensures writes == old(writes) + if call.Admin? then Writes(call.request) else 0
    {
      var t := NextTick();
      LetOthersAct(t.others, None, Some(k));
      var (store, reply) := Perform(st.store, call, t.fault, t.pick);
      answer := reply;
      if !answer.Refused? { AnswerMeansDone(st.store, call, t.fault, t.pick); }
      writes := writes + if call.Admin? then Writes(call.request) else 0;
      Act(ClientStep(k, t.fault, t.pick));
    }

    // ---------- internal/keycloak/client.go ----------

    /** The two differ on a field the operator manages. */
    method ClientDrifted(existing: ClientRep, rep: ClientRep) returns (drifted: bool)
      ensures drifted <==> !SameManaged(existing, rep)
    {
      if existing.publicClient != rep.publicClient
        || existing.serviceAccountsEnabled != rep.serviceAccountsEnabled
        || existing.standardFlowEnabled != rep.standardFlowEnabled {
        return true;
      }
      if |existing.redirectURIs| != |rep.redirectURIs| {
        return true;
      }
      for i := 0 to |rep.redirectURIs|
        invariant existing.redirectURIs[..i] == rep.redirectURIs[..i]
      {
        if existing.redirectURIs[i] != rep.redirectURIs[i] {
          return true;
        }
      }
      assert existing.redirectURIs[..|rep.redirectURIs|] == existing.redirectURIs;
      assert rep.redirectURIs[..|rep.redirectURIs|] == rep.redirectURIs;
      return false;
    }

    method FindClient(k: Key, realm: string, clientID: string) returns (found: Lookup)
      requires Valid() && Looking(CPC(st, k)) && ClientCall(k, CPC(st, k)) == Admin(ListClients(realm, clientID))
      modifies this
      ensures Valid() && old(log) <= log && writes == old(writes)
      ensures CPC(st, k) == Looked(k, old(CPC(st, k)), found)
      ensures found.There? ==> found.rep.clientID == clientID
      ensures Calm(old(schedule)) ==>
        Calm(schedule) && st.store == old(st.store) && found in {Look(st.store.server, realm, clientID), LookupFailed}
      ensures Quiet(old(schedule)) ==> Quiet(schedule) && found == Look(st.store.server, realm, clientID)
    {
      var answer := AskForClients(k, realm, clientID);
      found := FirstMatch(answer, clientID);
    }

    /** The listing, and what it says about the wanted client. */
    method AskForClients(k: Key, realm: string, clientID: string) returns (answer: Answer)
      requires Valid() && Looking(CPC(st, k)) && ClientCall(k, CPC(st, k)) == Admin(ListClients(realm, clientID))
      modifies this
      ensures Valid() && old(log) <= log && writes == old(writes)
      ensures CPC(st, k) == Looked(k, old(CPC(st, k)), Found(answer, clientID))
      ensures Calm(old(schedule)) ==>
        Calm(schedule) && st.store == old(st.store) && Found(answer, clientID) in {Look(st.store.server, realm, clientID), LookupFailed}
      ensures Quiet(old(schedule)) ==> Quiet(schedule) && Found(answer, clientID) == Look(st.store.server, realm, clientID)
    {
      ServerStaysWellFormed(rules, log);
      answer := CallForClient(k, Admin(ListClients(realm, clientID)));
      FoundDecides(k, old(CPC(st, k)), answer);
      if Calm(old(schedule)) {
        ListingTellsTruth(old(st.store), realm, clientID, Quiet(old(schedule)), st.store, answer);
      }
    }

    /** The first listed client with exactly this client id. */
    method FirstMatch(answer: Answer, clientID: string) returns (found: Lookup)
      ensures found == Found(answer, clientID)
      ensures found.There? ==> found.rep.clientID == clientID
    {
      if !answer.Replied? || !answer.body.Listing? {
        return LookupFailed;
      }
      var clients := answer.body.clients;
      FirstExactMatches(clients, clientID);
      for i := 0 to |clients|
        invariant FirstExact(clients, clientID) == FirstExact(clients[i..], clientID)
      {
        if clients[i].clientID == clientID {
          return There(clients[i]);
        }
      }
      return NotThere;
    }

    method PostClient(k: Key, realm: string, rep: ClientRep) returns (ok: bool)
      requires Valid() && CPC(st, k).CPost? && CPC(st, k).realm == realm && rep == Desired(k, CPC(st, k).kc.spec)
      modifies this
      ensures Valid() && old(log) <= log
      ensures var kc := old(CPC(st, k)).kc;
        CPC(st, k) == if ok then CFindAgain(kc, realm) else CMark(kc, Failed(kc.generation))
      ensures Calm(old(schedule)) && Look(old(st.store.server), realm, rep.clientID).NotThere? ==>
        Calm(schedule) && Wrote(old(st.store), st.store, realm, rep, ok, Quiet(old(schedule)))
      ensures Quiet(old(schedule)) ==> Quiet(schedule)
    {
      var answer := CallForClient(k, Admin(KeycloakServer.PostClient(realm, rep)));
      if Calm(old(schedule)) && Look(old(st.store.server), realm, rep.clientID).NotThere? {
        PostCreates(old(st.store), realm, rep, Quiet(old(schedule)), st.store, answer);
      }
      return answer.Replied?;
    }

    method PutClient(k: Key, realm: string, id: nat, rep: ClientRep) returns (ok: bool)
      requires Valid()
      requires CPC(st, k).CPut? && CPC(st, k).realm == realm && CPC(st, k).id == id && rep == Desired(k, CPC(st, k).kc.spec)
      modifies this
      ensures Valid() && old(log) <= log
      ensures var kc := old(CPC(st, k)).kc;
        CPC(st, k) == if ok then Ensured(kc, realm, id) else CMark(kc, Failed(kc.generation))
      ensures Calm(old(schedule)) && Holds(old(st.store), realm, rep.clientID, id) ==>
        Calm(schedule) && Wrote(old(st.store), st.store, realm, rep, ok, Quiet(old(schedule)))
      ensures Quiet(old(schedule)) ==> Quiet(schedule)
    {
      ServerStaysWellFormed(rules, log);
      var answer := CallForClient(k, Admin(KeycloakServer.PutClient(realm, id, rep.(id := id))));
      if Calm(old(schedule)) && Holds(old(st.store), realm, rep.clientID, id) {
        PutReplaces(old(st.store), realm, id, rep, Quiet(old(schedule)), st.store, answer);
      }
      return answer.Replied?;
    }

    method GetClientSecret(k: Key, realm: string, id: nat) returns (secret: Option<Secret>)
      requires Valid() && CPC(st, k).CGetSecret? && CPC(st, k).realm == realm && CPC(st, k).id == id
      modifies this
      ensures Valid() && old(log) <= log && writes == old(writes)
      ensures var kc := old(CPC(st, k)).kc;
        CPC(st, k) == if secret.Some? then CImpersonate(kc, realm, secret) else CMark(kc, Failed(kc.generation))
      ensures var c := EffClientID(k, old(CPC(st, k)).kc.spec);
        Calm(old(schedule)) && Holds(old(st.store), realm, c, id) ==>
        && Calm(schedule) && st.store == old(st.store)
        && (secret == Some(SecretOf(id)) || (secret == None && !Quiet(old(schedule))))
      ensures Quiet(old(schedule)) ==> Quiet(schedule)
    {
      var answer := CallForClient(k, Admin(GetSecret(realm, id)));
      if Calm(old(schedule)) && Holds(old(st.store), realm, EffClientID(k, old(CPC(st, k)).kc.spec), id) {
        SecretIsFetched(old(st.store), realm, id, EffClientID(k, old(CPC(st, k)).kc.spec), Quiet(old(schedule)), st.store, answer);
      }
      if !answer.Replied? || !answer.body.SecretBody? {
        return None;
      }
      return Some(answer.body.secret);
    }

    /** Creates the client and looks it up again for its id. */
    method CreateClient(k: Key, realm: string, rep: ClientRep) returns (id: Option<nat>)
      requires Valid() && CPC(st, k).CPost? && CPC(st, k).realm == realm && rep == Desired(k, CPC(st, k).kc.spec)
      modifies this
      ensures Valid() && old(log) <= log
      ensures CPC(st, k) == Obtained(old(CPC(st, k)), id)
      ensures Calm(old(schedule)) && Look(old(st.store.server), realm, rep.clientID).NotThere? ==>
        Calm(schedule) && Has(old(st.store), st.store, realm, rep, id, Quiet(old(schedule)))
      ensures Quiet(old(schedule)) ==> Quiet(schedule)
    {
      var ok := PostClient(k, realm, rep);
      if !ok {
        return None;
      }
      var existing := FindClient(k, realm, rep.clientID);
      if Calm(old(schedule)) && Look(old(st.store.server), realm, rep.clientID).NotThere? {
        CreatedIsHad(old(st.store), st.store, realm, rep, existing, Quiet(old(schedule)));
      }
      if !existing.There? {
        return None;
      }
      return Some(existing.rep.id);
    }

    /** Puts the wanted fields on an existing client if it drifted. */
    method CorrectClient(k: Key, ghost kc: ClientCR, realm: string, found: ClientRep, rep: ClientRep) returns (ok: bool)
      requires Valid() && rep == Desired(k, kc.spec) && CPC(st, k) == Looked(k, CFind(kc, realm), There(found))
      modifies this
      ensures Valid() && old(log) <= log
      ensures CPC(st, k) == if ok then Ensured(kc, realm, found.id) else CMark(kc, Failed(kc.generation))
      ensures Calm(old(schedule)) && Look(old(st.store.server), realm, rep.clientID) == There(found) ==>
        Calm(schedule) && Wrote(old(st.store), st.store, realm, rep, ok, Quiet(old(schedule)))
      ensures Quiet(old(schedule)) ==> Quiet(schedule)
      ensures SameManaged(found, rep) ==> writes == old(writes)
    {
      var drifted := ClientDrifted(found, rep);
      if drifted {
        ok := PutClient(k, realm, found.id, rep);
        return;
      }
      if Calm(old(schedule)) && Look(st.store.server, realm, rep.clientID) == There(found) {
        ServerStaysWellFormed(rules, log);
        UpToDateStays(st.store.server, realm, rep);
      }
      return true;
    }

    /** The id of an existing client, once its fields are as wanted. */
    method KeepClient(k: Key, ghost kc: ClientCR, realm: string, found: ClientRep, rep: ClientRep) returns (id: Option<nat>)
      requires Valid() && rep == Desired(k, kc.spec) && CPC(st, k) == Looked(k, CFind(kc, realm), There(found))
      modifies this
      ensures Valid() && old(log) <= log && CPC(st, k) == Obtained(CFind(kc, realm), id)
      ensures Calm(old(schedule)) && Look(old(st.store.server), realm, rep.clientID) == There(found) ==>
        Calm(schedule) && Has(old(st.store), st.store, realm, rep, id, Quiet(old(schedule)))
      ensures Quiet(old(schedule)) ==> Quiet(schedule)
      ensures SameManaged(found, rep) ==> writes == old(writes)
    {
      var ok := CorrectClient(k, kc, realm, found, rep);
      return if ok then Some(found.id) else None;
    }

    /** Creates the client if missing and corrects it if it drifted. */
    method ObtainClient(k: Key, realm: string, rep: ClientRep) returns (id: Option<nat>, created: bool)
      requires Valid() && CPC(st, k).CFind? && CPC(st, k).realm == realm && rep == Desired(k, CPC(st, k).kc.spec)
      modifies this
      ensures Valid() && old(log) <= log
      ensures CPC(st, k) == Obtained(old(CPC(st, k)), id)
      ensures Calm(old(schedule)) ==> Calm(schedule)
      ensures Calm(old(schedule)) && realm !in old(st.store.server.realms) ==> st.store == old(st.store) && id.None?
      ensures Calm(old(schedule)) && realm in old(st.store.server.realms) ==>
        && Has(old(st.store), st.store, realm, rep, id, Quiet(old(schedule)))
        && (id.Some? ==> (created <==> !HasClient(old(st.store.server), realm, rep.clientID)))
      ensures Quiet(old(schedule)) ==> Quiet(schedule)
      ensures Calm(old(schedule)) && UpToDate(old(st.store.server), realm, rep) ==> writes == old(writes)
    {
      ghost var kc := CPC(st, k).kc;
      var existing := FindClient(k, realm, rep.clientID);
      match existing {
        case LookupFailed =>
          return None, false;
        case NotThere =>
          id := CreateClient(k, realm, rep);
          return id, true;
        case There(found) =>
          id := KeepClient(k, kc, realm, found, rep);
          return id, false;
      }
    }

    /** Creates the client if missing, corrects it if it drifted, and fetches its secret. */
    method EnsureClient(k: Key, realm: string, want: ClientRep) returns (res: ClientResult)
      requires Valid() && CPC(st, k).CFind? && CPC(st, k).realm == realm
      requires want.(standardFlowEnabled := want.redirectURIs != []) == Desired(k, CPC(st, k).kc.spec)
      modifies this
      ensures Valid() && old(log) <= log
      ensures var kc := old(CPC(st, k)).kc;
        CPC(st, k) == if res.ClientFailed? then CMark(kc, Failed(kc.generation)) else CImpersonate(kc, realm, res.secret)
      ensures Calm(old(schedule)) ==>
        Calm(schedule) && Ensures(old(st.store), st.store, realm, Desired(k, old(CPC(st, k)).kc.spec), res, Quiet(old(schedule)))
      ensures Quiet(old(schedule)) ==> Quiet(schedule)
      ensures Calm(old(schedule)) && UpToDate(old(st.store.server), realm, Desired(k, old(CPC(st, k)).kc.spec)) ==>
                writes == old(writes)
    {
      var rep := want.(standardFlowEnabled := |want.redirectURIs| > 0);
      var id, created := ObtainClient(k, realm, rep);
      if id.None? {
        return ClientFailed;
      }
      if rep.publicClient {
        return ClientResult(id.value, None, created);
      }
      var secret := GetClientSecret(k, realm, id.value);
      if secret.None? {
        return ClientFailed;
      }
      return ClientResult(id.value, secret, created);
    }

    /** Deletes the client if it is there; a missing realm is an error. */
    method DeleteClient(k: Key, ghost kc: ClientCR, realm: string, clientID: string) returns (ok: bool)
      requires Valid() && CPC(st, k) == CDelFind(kc, realm) && clientID == EffClientID(k, kc.spec)
      modifies this
      ensures Valid() && old(log) <= log
      ensures CPC(st, k) == if ok then CDelImpersonate(kc, realm) else CIdle
      ensures Calm(old(schedule)) ==> Calm(schedule) && Dropped(old(st.store), st.store, realm, clientID, ok, Quiet(old(schedule)))
      ensures Quiet(old(schedule)) ==> Quiet(schedule)
    {
      var existing := FindClient(k, realm, clientID);
      match existing {
        case LookupFailed =>
          return false;
        case NotThere =>
          return true;
        case There(found) =>
          ghost var before := st.store;
          ServerStaysWellFormed(rules, log);
          var answer := CallForClient(k, Admin(KeycloakServer.DeleteClient(realm, found.id)));
          if Calm(old(schedule)) {
            DeleteDrops(before, realm, found.id, clientID, Quiet(old(schedule)), st.store, answer);
          }
          return answer.Replied?;
      }
    }

    // ---------- internal/controller/keycloakclient_controller.go ----------

    /** impersonatingClient: may fail unless the operator acts as itself. */
    method ImpersonatingClient(k: Key, kc: ClientCR) returns (ok: bool)
      requires Valid() && (CPC(st, k).CDelImpersonate? || CPC(st, k).CImpersonate?) && CPC(st, k).kc == kc
      modifies this
      ensures Valid() && old(log) <= log && writes == old(writes)
      ensures CPC(st, k) == var pc := old(CPC(st, k));
        if !ok then CIdle
        else if pc.CImpersonate? then CPutSecret(kc, pc.realm, pc.secret)
        else CDelSecret(kc, pc.realm)
      ensures Calm(old(schedule)) ==> Calm(schedule) && (ok ==> st.store == old(st.store))
      ensures Quiet(old(schedule)) ==> Quiet(schedule) && ok
    {
      var answer := CallForClient(k, Impersonate(kc.spec.serviceAccount));
      if Calm(old(schedule)) && (answer.Done? || Quiet(old(schedule))) {
        ActingIsFree(old(st.store), kc.spec.serviceAccount, st.store, answer);
      }
      return answer.Done?;
    }

    /** finalize's last step: the object is written back without the finalizer. */
    method DropFinalizer(k: Key, kc: ClientCR, ghost realmName: string) returns (res: Result)
      requires Valid() && CPC(st, k) == CDropFinalizer(kc, realmName)
      modifies this
      ensures Valid() && old(log) <= log && CPC(st, k).CIdle?
      ensures (Calm(old(schedule)) ==> Calm(schedule)) && (Quiet(old(schedule)) ==> Quiet(schedule))
      ensures Calm(old(schedule)) && Reads(old(st.store), k, kc) && res.Finished? ==> st.store == Released(old(st.store), k)
      ensures Quiet(old(schedule)) && Reads(old(st.store), k, kc) ==> res.Finished?
    {
      var freed := kc.(finalizers := kc.finalizers - {FINALIZER});
      var answer := CallForClient(k, UpdateClientCR(k, freed));
      if Calm(old(schedule)) && Reads(old(st.store), k, kc) && (answer.Done? || Quiet(old(schedule))) {
        UpdateLands(old(st.store), k, freed, st.store, answer);
      }
      return if answer.Done? then Finished else Errored;
    }

    /** A Secret that is gone already is as good as deleted. */
    method DeleteTenantSecret(k: Key, kc: ClientCR, ghost realmName: string) returns (ok: bool)
      requires Valid() && CPC(st, k) == CDelSecret(kc, realmName)
      modifies this
      ensures Valid() && old(log) <= log && CPC(st, k) == if ok then CDropFinalizer(kc, realmName) else CIdle
      ensures Calm(old(schedule)) ==>
        Calm(schedule) && (ok ==> st.store == old(st.store).(secrets := old(st.store).secrets - {SecretKey(k, kc.spec)}))
      ensures Quiet(old(schedule)) ==> Quiet(schedule) && ok
    {
      var deleted := CallForClient(k, DeleteSecret(SecretKey(k, kc.spec)));
      if Calm(old(schedule)) && (!deleted.Refused? || Quiet(old(schedule))) {
        SecretGoes(old(st.store), SecretKey(k, kc.spec), st.store, deleted);
      }
      return deleted.Done? || deleted.Missing?;
    }

    /** The rest of the cleanup: the tenant's secret, then the finalizer. */
    method ReleaseClient(k: Key, kc: ClientCR, ghost realmName: string) returns (res: Result)
      requires Valid() && CPC(st, k) == CDelImpersonate(kc, realmName)
      modifies this
      ensures Valid() && old(log) <= log && CPC(st, k).CIdle?
      ensures (Calm(old(schedule)) ==> Calm(schedule)) && (Quiet(old(schedule)) ==> Quiet(schedule))
      ensures Quiet(old(schedule)) && Reads(old(st.store), k, kc) ==> res.Finished?
      ensures Calm(old(schedule)) && Reads(old(st.store), k, kc) && res.Finished? ==>
        st.store == Released(old(st.store).(secrets := old(st.store).secrets - {SecretKey(k, kc.spec)}), k)
    {
      var wc := ImpersonatingClient(k, kc);
      if !wc {
        return Errored;
      }
      var ok := DeleteTenantSecret(k, kc, realmName);
      if !ok {
        return Errored;
      }
      res := DropFinalizer(k, kc, realmName);
    }

    /** The cleanup closure followed by the release of the finalizer. */
    method FinalizeClient(k: Key, kc: ClientCR, realmName: string) returns (res: Result)
      requires Valid() && kc.deleting && (exists ready :: CPC(st, k) == Resolved(kc, realmName, ready))
      modifies this
      ensures Valid() && old(log) <= log && CPC(st, k).CIdle?
      ensures (Calm(old(schedule)) ==> Calm(schedule)) && (Quiet(old(schedule)) ==> Quiet(schedule))
      ensures Calm(old(schedule)) && Reads(old(st.store), k, kc) && res.Finished? ==> st.store == TeardownPass(old(st.store), k, realmName)
      ensures Quiet(old(schedule)) && Reads(old(st.store), k, kc) ==>
        && st.store == TeardownPass(old(st.store), k, realmName)
        && res == (if FINALIZER in kc.finalizers && realmName != "" && realmName !in old(st.store.server.realms) then Errored else Finished)
    {
      if FINALIZER !in kc.finalizers {
        return Finished;
      }
      if realmName != "" {
        var ok := DeleteClient(k, kc, realmName, EffClientID(k, kc.spec));
        if !ok {
          return Errored;
        }
      }
      res := ReleaseClient(k, kc, realmName);
    }

    /** A status write whose own outcome is ignored. */
    method MarkClient(k: Key, kc: ClientCR, mark: Mark)
      requires Valid() && CPC(st, k) == CMark(kc, mark)
      modifies this
      ensures Valid() && old(log) <= log && CPC(st, k).CIdle? && writes == old(writes)
      ensures (Calm(old(schedule)) ==> Calm(schedule)) && (Quiet(old(schedule)) ==> Quiet(schedule))
      ensures Quiet(old(schedule)) && Reads(old(st.store), k, kc) ==> st.store == Marked(old(st.store), k, mark)
    {
      var marked := kc.(status := kc.status.(mark := mark));
      var answer := CallForClient(k, StatusClientCR(k, marked));
      if Quiet(old(schedule)) && Reads(old(st.store), k, kc) {
        StatusLands(old(st.store), k, marked, st.store, answer);
      }
    }

    /** The final status write; an object that is gone is no error. */
    method MarkClientReady(k: Key, kc: ClientCR, realmName: string) returns (res: Result)
      requires Valid() && CPC(st, k) == CMarkReady(kc, realmName)
      modifies this
      ensures Valid() && old(log) <= log && CPC(st, k).CIdle? && writes == old(writes)
      ensures (Calm(old(schedule)) ==> Calm(schedule)) && (Quiet(old(schedule)) ==> Quiet(schedule))
      ensures Calm(old(schedule)) && Reads(old(st.store), k, kc) && res.Finished? ==>
        st.store == PutClientCR(old(st.store), k, kc.(status := ReadyStatus(k, kc, realmName)))
      ensures Quiet(old(schedule)) && (Reads(old(st.store), k, kc) || k !in old(st.store.clients)) ==> res.Finished?
    {
      var ready := kc.(status := ReadyStatus(k, kc, realmName));
      var answer := CallForClient(k, StatusClientCR(k, ready));
      if Calm(old(schedule)) && Reads(old(st.store), k, kc) && (!answer.Refused? || Quiet(old(schedule))) {
        StatusLands(old(st.store), k, ready, st.store, answer);
      }
      if Quiet(old(schedule)) && k !in old(st.store.clients) { StatusMisses(old(st.store), k, ready, st.store, answer); }
      return if answer.Refused? then Errored else Finished;
    }

    /** CreateOrUpdate of the tenant's secret; keys it does not name stay. */
    method WriteSecret(k: Key, kc: ClientCR, realmName: string, secret: Option<Secret>) returns (ok: bool)
      requires Valid() && CPC(st, k) == CPutSecret(kc, realmName, secret)
      modifies this
      ensures Valid() && old(log) <= log && writes == old(writes)
      ensures CPC(st, k) == if ok then CMarkReady(kc, realmName) else CMark(kc, Failed(kc.generation))
      ensures Calm(old(schedule)) ==>
        Calm(schedule) && (ok ==> st.store == WithSecret(old(st.store), SecretKey(k, kc.spec), kc.spec.tenantID, SecretData(k, kc.spec, realmName, secret)))
      ensures Quiet(old(schedule)) ==> Quiet(schedule) && ok
    {
      var data := map["client-id" := Text(EffClientID(k, kc.spec)), "issuer" := IssuerOf(realmName)];
      if secret.Some? {
        data := data["client-secret" := ClientSecret(secret.value)];
      }
      var written := CallForClient(k, PutSecret(SecretKey(k, kc.spec), kc.spec.tenantID, data));
      if Calm(old(schedule)) && (written.Done? || Quiet(old(schedule))) {
        SecretLands(old(st.store), SecretKey(k, kc.spec), kc.spec.tenantID, data, st.store, written);
      }
      return written.Done?;
    }

    /** Writes the tenant's secret and then the Ready status. */
    method PublishClient(k: Key, kc: ClientCR, realmName: string, secret: Option<Secret>) returns (res: Result)
      requires Valid() && CPC(st, k) == CImpersonate(kc, realmName, secret)
      modifies this
      ensures Valid() && old(log) <= log && CPC(st, k).CIdle? && writes == old(writes)
      ensures (Calm(old(schedule)) ==> Calm(schedule)) && (Quiet(old(schedule)) ==> Quiet(schedule))
      ensures Calm(old(schedule)) && Reads(old(st.store), k, kc) && res.Finished? ==>
        st.store == Published(old(st.store), k, realmName, secret)
      ensures Quiet(old(schedule)) && (Reads(old(st.store), k, kc) || k !in old(st.store.clients)) ==> res.Finished?
    {
      var wc := ImpersonatingClient(k, kc);
      if !wc {
        return Errored;
      }
      var written := WriteSecret(k, kc, realmName, secret);
      if !written {
        MarkClient(k, kc, Failed(kc.generation));
        return Errored;
      }
      res := MarkClientReady(k, kc, realmName);
    }

    /** The readiness gate, then EnsureClient, the secret and the status. */
    method ProvisionClient(k: Key, kc: ClientCR, realmName: string, realmReady: bool) returns (res: Result)
      requires Valid() && !kc.deleting && FINALIZER in kc.finalizers && CPC(st, k) == Resolved(kc, realmName, realmReady)
      modifies this
      ensures Valid() && old(log) <= log && CPC(st, k).CIdle?
      ensures (Calm(old(schedule)) ==> Calm(schedule)) && (Quiet(old(schedule)) ==> Quiet(schedule))
      ensures Calm(old(schedule)) && Reads(old(st.store), k, kc) && res.Finished? ==>
        st.store == ProvisionPass(old(st.store), k, realmName, realmReady)
      ensures Quiet(old(schedule)) && Reads(old(st.store), k, kc) ==>
        && st.store == ProvisionPass(old(st.store), k, realmName, realmReady)
        && res == ProvisionResult(old(st.store), kc, realmName, realmReady)
      ensures Quiet(old(schedule)) && UpToDate(old(st.store.server), realmName, Desired(k, kc.spec)) ==> writes == old(writes)
    {
      if realmName == "" {
        MarkClient(k, kc, Failed(kc.generation));
        return RequeueAfter(30);
      }
      if !realmReady && kc.status.realm == "" {
        MarkClient(k, kc, Reconciling(kc.generation));
        return RequeueAfter(15);
      }
      res := EnsureAndPublish(k, kc, realmName);
    }

    /** EnsureClient, the secret and the status. */
    method EnsureAndPublish(k: Key, kc: ClientCR, realmName: string) returns (res: Result)
      requires Valid() && CPC(st, k) == CFind(kc, realmName)
      modifies this
      ensures Valid() && old(log) <= log && CPC(st, k).CIdle?
      ensures (Calm(old(schedule)) ==> Calm(schedule)) && (Quiet(old(schedule)) ==> Quiet(schedule))
      ensures Calm(old(schedule)) && Reads(old(st.store), k, kc) && res.Finished? ==>
        realmName in old(st.store.server.realms) && st.store == Provisioned(old(st.store), k, realmName)
      ensures Quiet(old(schedule)) && Reads(old(st.store), k, kc) ==>
        && (realmName !in old(st.store.server.realms) ==> res.Errored? && st.store == Marked(old(st.store), k, Failed(kc.generation)))
        && (realmName in old(st.store.server.realms) ==> res.Finished?)
      ensures Quiet(old(schedule)) && UpToDate(old(st.store.server), realmName, Desired(k, kc.spec)) ==> writes == old(writes)
    {
      var rep := ClientRep(0, EffClientID(k, kc.spec), kc.spec.isPublic, kc.spec.serviceAccounts, false, kc.spec.redirectURIs);
      var ensured := EnsureClient(k, realmName, rep);
      if ensured.ClientFailed? {
        MarkClient(k, kc, Failed(kc.generation));
        return Errored;
      }
      if Calm(old(schedule)) && Reads(old(st.store), k, kc) { PublishingProvisions(old(st.store), k, realmName, ensured.id); }
      res := PublishClient(k, kc, realmName, ensured.secret);
    }

    /** Reads the object and resolves the realm it targets. */
    method LoadClient(k: Key) returns (kc: Option<ClientCR>, realmName: string, realmReady: bool, res: Result)
      requires Valid() && CPC(st, k).CIdle?
      modifies this
      ensures Valid() && old(log) <= log && writes == old(writes)
      ensures CPC(st, k) == if kc.Some? then Resolved(kc.value, realmName, realmReady) else CIdle
      ensures Quiet(old(schedule)) ==> Quiet(schedule) && (kc.None? ==> res.Finished?)
      ensures Calm(old(schedule)) ==>
        && Calm(schedule)
        && (kc.Some? || res.Finished? ==> st.store == old(st.store))
        && (kc.None? && res.Finished? ==> k !in st.store.clients)
        && (kc.Some? ==>
              && Reads(st.store, k, kc.value) && realmName == TeardownRealm(st.store, k) && RealmKnown(st.store, k, realmName)
              && realmReady == RealmReady(st.store, RefKey(k, kc.value.spec)))
    {
      Act(ClientStep(k, Fine, NOPICK));
      var got := CallForClient(k, GetClientCR(k));
      if Calm(old(schedule)) && (!got.Refused? || Quiet(old(schedule))) { ReadTellsTruth(old(st.store), GetClientCR(k), st.store, got); }
      if !got.GotClient? {
        return None, "", false, if got.Missing? then Finished else Errored;
      }
      var cr := got.client;
      realmName := cr.status.realm;
      realmReady := false;
      ghost var before := st.store;
      var ref := CallForClient(k, GetRealmCR(RefKey(k, cr.spec)));
      if Calm(old(schedule)) && (!ref.Refused? || Quiet(old(schedule))) { ReadTellsTruth(before, GetRealmCR(RefKey(k, cr.spec)), st.store, ref); }
      if ref.GotRealm? {
        var realm := ref.realm;
        if realmName == "" {
          realmName := realm.spec.realm;
          if realmName == "" {
            realmName := realm.spec.tenantID;
          }
        }
        realmReady := realm.status.mark.Ready?;
      } else if !ref.Missing? {
        return None, "", false, Errored;
      }
      return Some(cr), realmName, realmReady, Finished;
    }

    /** ensureFinalizer for a client that lacks it. */
    method AddClientFinalizer(k: Key, kc: ClientCR) returns (res: Result)
      requires Valid() && CPC(st, k) == CAddFinalizer(kc)
      modifies this
      ensures Valid() && old(log) <= log && CPC(st, k).CIdle? && writes == old(writes)
      ensures (Calm(old(schedule)) ==> Calm(schedule)) && (Quiet(old(schedule)) ==> Quiet(schedule))
      ensures Calm(old(schedule)) && Reads(old(st.store), k, kc) && res.Finished? ==>
        st.store == PutClientCR(old(st.store), k, kc.(finalizers := kc.finalizers + {FINALIZER}))
      ensures Quiet(old(schedule)) && Reads(old(st.store), k, kc) ==> res.Finished?
    {
      var kept := kc.(finalizers := kc.finalizers + {FINALIZER});
      var answer := CallForClient(k, UpdateClientCR(k, kept));
      if Calm(old(schedule)) && Reads(old(st.store), k, kc) && (answer.Done? || Quiet(old(schedule))) {
        UpdateLands(old(st.store), k, kept, st.store, answer);
      }
      return if answer.Done? then Finished else Errored;
    }

    /** KeycloakClientReconciler.Reconcile. */
    method ReconcileClient(k: Key) returns (res: Result)
      requires Valid() && CPC(st, k).CIdle?
      modifies this
      ensures Valid() && old(log) <= log && CPC(st, k).CIdle?
      ensures Calm(old(schedule)) && res.Finished? ==> st.store == ClientPass(old(st.store), k)
      ensures Quiet(old(schedule)) ==> Quiet(schedule) && st.store == ClientPass(old(st.store), k) && res == PassResult(old(st.store), k)
      ensures Quiet(old(schedule)) && ClientSettled(old(st.store), k) ==> st.store == old(st.store) && writes == old(writes)
      ensures Quiet(old(schedule)) && res.Finished? ==> ClientProvided(old(st.store), st.store, k)
      ensures rules == STRICT ==> Covered(st.store)
    {
      if ClientSettled(st.store, k) { SettledClientStays(st.store, k); }
      if PassResult(st.store, k).Finished? { FinishedPassProvides(st.store, k); }
      res := RunClient(k);
      if rules == STRICT { NoOrphans(st); }
    }

    method RunClient(k: Key) returns (res: Result)
      requires Valid() && CPC(st, k).CIdle?
      modifies this
      ensures Valid() && old(log) <= log && CPC(st, k).CIdle?
      ensures Calm(old(schedule)) && res.Finished? ==> st.store == ClientPass(old(st.store), k)
      ensures Quiet(old(schedule)) ==> Quiet(schedule) && st.store == ClientPass(old(st.store), k) && res == PassResult(old(st.store), k)
      ensures Quiet(old(schedule)) && ClientSettled(old(st.store), k) ==> writes == old(writes)
    {
      var loaded, realmName, realmReady;
      loaded, realmName, realmReady, res := LoadClient(k);
      if loaded.None? {
        return;
      }
      var kc := loaded.value;
      if kc.deleting {
        res := FinalizeClient(k, kc, realmName);
        return;
      }
      if FINALIZER !in kc.finalizers {
        res := AddClientFinalizer(k, kc);
        return;
      }
      res := ProvisionClient(k, kc, realmName, realmReady);
    }

    // ---------- internal/controller/keycloakrealm_controller.go ----------

    /** Creates the realm if missing and updates it if it drifted. */
    method EnsureRealm(m: Key, cr: RealmCR) returns (ok: bool, created: bool)
      requires Valid() && RPC(st, m) == RGetRealm(cr)
      modifies this
      ensures Valid() && old(log) <= log && RPC(st, m) == RMark(cr, ok)
      ensures Calm(old(schedule)) ==>
        && Calm(schedule) && Either(st.store, old(st.store), WithRealm(old(st.store), cr.spec))
        && (ok ==> st.store == WithRealm(old(st.store), cr.spec) && (created <==> EffName(cr.spec) !in old(st.store.server.realms)))
      ensures Quiet(old(schedule)) ==> Quiet(schedule) && ok
      ensures Calm(old(schedule)) && RealmUpToDate(old(st.store.server), cr.spec) ==> writes == old(writes)
    {
      var rep := RealmRepOf(cr.spec);
      var got := CallForRealm(m, Admin(GetRealm(rep.realm)));
      if Calm(old(schedule)) { RealmIsRead(old(st.store), cr.spec, Quiet(old(schedule)), st.store, got); }
      if got.Missing? {
        ok := WriteRealm(m, cr, PostRealm(rep));
        return ok, true;
      }
      if !got.Replied? || !got.body.RealmBody? {
        return false, false;
      }
      if got.body.rep.displayName == rep.displayName && got.body.rep.enabled == rep.enabled {
        return true, false;
      }
      ok := WriteRealm(m, cr, PutRealm(rep.realm, rep));
      return ok, false;
    }

    /** The realm is posted, or put over an existing one. */
    method WriteRealm(m: Key, cr: RealmCR, req: Request) returns (ok: bool)
      requires Valid() && (RPC(st, m) == RPostRealm(cr) || RPC(st, m) == RPutRealm(cr)) && Admin(req) == RealmCall(m, RPC(st, m))
      modifies this
      ensures Valid() && old(log) <= log && RPC(st, m) == RMark(cr, ok)
      ensures Calm(old(schedule)) ==> Calm(schedule)
      ensures Calm(old(schedule)) && (req.PutRealm? <==> EffName(cr.spec) in old(st.store.server.realms)) ==>
        && Either(st.store, old(st.store), WithRealm(old(st.store), cr.spec)) && (ok ==> st.store == WithRealm(old(st.store), cr.spec))
        && (Quiet(old(schedule)) ==> ok)
      ensures Quiet(old(schedule)) ==> Quiet(schedule)
    {
      var answer := CallForRealm(m, Admin(req));
      if Calm(old(schedule)) && (req.PutRealm? <==> EffName(cr.spec) in old(st.store.server.realms)) {
        RealmIsWritten(old(st.store), cr.spec, Admin(req), Quiet(old(schedule)), st.store, answer);
      }
      return answer.Replied?;
    }

    /** The finalizer is dropped only after the realm is deleted or known to be missing. */
    method FinalizeRealm(m: Key, cr: RealmCR) returns (res: Result)
      requires Valid() && RPC(st, m) == RDeleteRealm(cr)
      modifies this
      ensures Valid() && old(log) <= log && RPC(st, m).RIdle?
      ensures (Calm(old(schedule)) ==> Calm(schedule)) && (Quiet(old(schedule)) ==> Quiet(schedule))
      ensures Calm(old(schedule)) && m in old(st.store.realms) && old(st.store.realms)[m] == cr && res.Finished? ==>
        st.store == ReleasedRealm(old(st.store), m)
      ensures Quiet(old(schedule)) && m in old(st.store.realms) && old(st.store.realms)[m] == cr ==> res.Finished?
      ensures Calm(old(schedule)) && Carries(old(st.store), m) && !Carries(st.store, m) ==> EffName(cr.spec) !in st.store.server.realms
    {
      var name := EffName(cr.spec);
      var deleted := CallForRealm(m, Admin(DeleteRealm(name)));
      if Calm(old(schedule)) { StoresApart(old(st.store), Admin(DeleteRealm(name)), Quiet(old(schedule)), st.store, deleted); }
      if Calm(old(schedule)) && (!deleted.Refused? || Quiet(old(schedule))) { RealmGoes(old(st.store), name, st.store, deleted); }
      if !deleted.Replied? && !deleted.Missing? {
        return Errored;
      }
      ghost var before := st.store;
      var freed := cr.(finalizers := cr.finalizers - {FINALIZER});
      var answer := CallForRealm(m, UpdateRealmCR(m, freed));
      if Calm(old(schedule)) { StoresApart(before, UpdateRealmCR(m, freed), Quiet(old(schedule)), st.store, answer); }
      if Calm(old(schedule)) && m in old(st.store.realms) && old(st.store.realms)[m] == cr && (answer.Done? || Quiet(old(schedule))) {
        RealmWriteLands(before, m, UpdateRealmCR(m, freed), st.store, answer);
      }
      return if answer.Done? then Finished else Errored;
    }

    /** ensureFinalizer for a realm that lacks it. */
    method AddRealmFinalizer(m: Key, cr: RealmCR) returns (res: Result)
      requires Valid() && RPC(st, m) == RAddFinalizer(cr)
      modifies this
      ensures Valid() && old(log) <= log && RPC(st, m).RIdle? && writes == old(writes)
      ensures (Calm(old(schedule)) ==> Calm(schedule)) && (Quiet(old(schedule)) ==> Quiet(schedule))
      ensures Quiet(old(schedule)) && m in old(st.store.realms) && old(st.store.realms)[m] == cr ==> res.Finished?
      ensures Calm(old(schedule)) && m in old(st.store.realms) && old(st.store.realms)[m] == cr && res.Finished? ==>
        st.store == PutRealmCR(old(st.store), m, cr.(finalizers := cr.finalizers + {FINALIZER}))
    {
      var kept := cr.(finalizers := cr.finalizers + {FINALIZER});
      var answer := CallForRealm(m, UpdateRealmCR(m, kept));
      if Calm(old(schedule)) && m in old(st.store.realms) && old(st.store.realms)[m] == cr && (answer.Done? || Quiet(old(schedule))) {
        RealmWriteLands(old(st.store), m, UpdateRealmCR(m, kept), st.store, answer);
      }
      return if answer.Done? then Finished else Errored;
    }

    /** Provisions the realm and records the outcome in its status. */
    method ProvisionRealm(m: Key, cr: RealmCR) returns (res: Result)
      requires Valid() && RPC(st, m) == RGetRealm(cr)
      modifies this
      ensures Valid() && old(log) <= log && RPC(st, m).RIdle?
      ensures (Calm(old(schedule)) ==> Calm(schedule)) && (Quiet(old(schedule)) ==> Quiet(schedule))
      ensures Quiet(old(schedule)) && m in old(st.store.realms) && old(st.store.realms)[m] == cr ==> res.Finished?
      ensures Calm(old(schedule)) && m in old(st.store.realms) && old(st.store.realms)[m] == cr && res.Finished? ==>
        st.store == PutRealmCR(WithRealm(old(st.store), cr.spec), m,
                                  cr.(status := RealmStatus(EffName(cr.spec), cr.generation, Ready(cr.generation))))
      ensures Calm(old(schedule)) && RealmUpToDate(old(st.store.server), cr.spec) ==> writes == old(writes)
    {
      var ok, created := EnsureRealm(m, cr);
      ghost var before := st.store;
      var marked := cr.(status := if ok then RealmStatus(EffName(cr.spec), cr.generation, Ready(cr.generation))
                                  else cr.status.(mark := Failed(cr.generation)));
      var answer := CallForRealm(m, StatusRealmCR(m, marked));
      if Calm(old(schedule)) && m in old(st.store.realms) && old(st.store.realms)[m] == cr && (!answer.Refused? || Quiet(old(schedule))) {
        RealmWriteLands(before, m, StatusRealmCR(m, marked), st.store, answer);
      }
      return if ok && !answer.Refused? then Finished else Errored;
    }

    /** KeycloakRealmReconciler.Reconcile. */
    method ReconcileRealm(m: Key) returns (res: Result)
      requires Valid() && RPC(st, m).RIdle?
      modifies this
      ensures Valid() && old(log) <= log && RPC(st, m).RIdle?
      ensures Calm(old(schedule)) && res.Finished? ==> st.store == RealmPass(old(st.store), m)
      ensures Quiet(old(schedule)) ==> Quiet(schedule) && res.Finished?
      ensures Quiet(old(schedule)) && RealmSettled(old(st.store), m) ==> st.store == old(st.store) && writes == old(writes)
      ensures Calm(old(schedule)) && res.Finished? ==> RealmProvided(old(st.store), st.store, m)
      ensures rules == STRICT ==> Covered(st.store)
    {
      if RealmSettled(st.store, m) { SettledRealmStays(st.store, m); }
      RealmPassProvides(st.store, m);
      Act(RealmStep(m, Fine, NOPICK));
      res := RunRealm(m);
      if rules == STRICT { NoOrphans(st); }
    }

    method RunRealm(m: Key) returns (res: Result)
      requires Valid() && RPC(st, m).RGetCR?
      modifies this
      ensures Valid() && old(log) <= log && RPC(st, m).RIdle?
      ensures Calm(old(schedule)) && res.Finished? ==> st.store == RealmPass(old(st.store), m)
      ensures Quiet(old(schedule)) ==> Quiet(schedule) && res.Finished?
      ensures Quiet(old(schedule)) && RealmSettled(old(st.store), m) ==> writes == old(writes)
    {
      var got := CallForRealm(m, GetRealmCR(m));
      if Calm(old(schedule)) && (!got.Refused? || Quiet(old(schedule))) { ReadTellsTruth(old(st.store), GetRealmCR(m), st.store, got); }
      if !got.GotRealm? {
        return if got.Missing? then Finished else Errored;
      }
      var cr := got.realm;
      if cr.deleting {
        if FINALIZER in cr.finalizers {
          res := FinalizeRealm(m, cr);
        } else {
          res := Finished;
        }
        return;
      }
      if FINALIZER !in cr.finalizers {
        res := AddRealmFinalizer(m, cr);
        return;
      }
      res := ProvisionRealm(m, cr);
    }
  }
}
