// The Keycloak Admin REST endpoints the operator calls, as a state and one
// transition per request: client ids are unique per realm, PUT replaces the
// managed fields, deleting a realm deletes its clients, and every client
// request on a missing realm is answered 404.
module KeycloakServer {
  import opened Kube

  datatype RealmRep = RealmRep(realm: string, displayName: string, enabled: bool)

  /** id is the server's own identifier; 0 stands for "not sent". */
  datatype ClientRep = ClientRep(
    id: nat,
    clientID: string,
    publicClient: bool,
    serviceAccountsEnabled: bool,
    standardFlowEnabled: bool,
    redirectURIs: seq<string>)

  datatype RealmRec = RealmRec(displayName: string, enabled: bool, clients: map<string, ClientRep>)

  datatype Server = Server(realms: map<string, RealmRec>, nextID: nat)

  /** The secret the server holds for the client with this id. */
  datatype Secret = SecretOf(id: nat)

  datatype Request =
    | GetRealm(realm: string)
    | PutRealm(realm: string, realmRep: RealmRep)
    | PostRealm(realmRep: RealmRep)
    | DeleteRealm(realm: string)
    | ListClients(realm: string, clientID: string)
    | PostClient(realm: string, rep: ClientRep)
    | PutClient(realm: string, id: nat, rep: ClientRep)
    | DeleteClient(realm: string, id: nat)
    | GetSecret(realm: string, id: nat)

  datatype Body = Empty | RealmBody(rep: RealmRep) | Listing(clients: seq<ClientRep>) | SecretBody(secret: Secret)

  datatype Reply = Reply(status: int, body: Body)

  /** Which other clients a listing happens to contain around the wanted one. */
  datatype Pick = Pick(before: seq<string>, after: seq<string>)

  const NOPICK := Pick([], [])

  /** Stored clients carry their own key and a server-assigned, unshared id. */
  ghost predicate WellFormed(s: Server) {
    s.nextID >= 1 && forall r | r in s.realms :: ClientsOK(s.realms[r].clients, s.nextID)
  }

  ghost predicate ClientsOK(clients: map<string, ClientRep>, bound: nat) {
    && (forall c | c in clients :: clients[c].clientID == c && 1 <= clients[c].id < bound)
    && (forall c, d | c in clients && d in clients && clients[c].id == clients[d].id :: c == d)
  }

  predicate HasClient(s: Server, realm: string, clientID: string) {
    realm in s.realms && clientID in s.realms[realm].clients
  }

  function Stored(clients: map<string, ClientRep>, ids: seq<string>): seq<ClientRep> {
    if ids == [] then []
    else (if ids[0] in clients then [clients[ids[0]]] else []) + Stored(clients, ids[1..])
  }

  function List(clients: map<string, ClientRep>, clientID: string, pick: Pick): seq<ClientRep> {
    Stored(clients, pick.before) + Stored(clients, [clientID]) + Stored(clients, pick.after)
  }

  function SetClients(s: Server, realm: string, clients: map<string, ClientRep>): Server
    requires realm in s.realms
  {
    s.(realms := s.realms[realm := s.realms[realm].(clients := clients)])
  }

  function Handle(s: Server, req: Request, pick: Pick): (Server, Reply) {
    match req
    case GetRealm(r) =>
      if r in s.realms then (s, Reply(200, RealmBody(RealmRep(r, s.realms[r].displayName, s.realms[r].enabled))))
      else (s, Reply(404, Empty))
    case PutRealm(r, rep) =>
      if r in s.realms then
        (s.(realms := s.realms[r := s.realms[r].(displayName := rep.displayName, enabled := rep.enabled)]), Reply(204, Empty))
      else (s, Reply(404, Empty))
    case PostRealm(rep) =>
      if rep.realm in s.realms then (s, Reply(409, Empty))
      else (s.(realms := s.realms[rep.realm := RealmRec(rep.displayName, rep.enabled, map[])]), Reply(201, Empty))
    case DeleteRealm(r) =>
      if r in s.realms then (s.(realms := s.realms - {r}), Reply(204, Empty))
      else (s, Reply(404, Empty))
    case _ =>
      if req.realm !in s.realms then (s, Reply(404, Empty)) else HandleClient(s, req, pick)
  }

  function HandleClient(s: Server, req: Request, pick: Pick): (Server, Reply)
    requires !req.GetRealm? && !req.PutRealm? && !req.PostRealm? && !req.DeleteRealm?
    requires req.realm in s.realms
  {
    var clients := s.realms[req.realm].clients;
    match req
    case ListClients(r, clientID) =>
      (s, Reply(200, Listing(List(clients, clientID, pick))))
    case PostClient(r, rep) =>
      if rep.clientID in clients then (s, Reply(409, Empty))
      else (SetClients(s, r, clients[rep.clientID := rep.(id := s.nextID)]).(nextID := s.nextID + 1), Reply(201, Empty))
    case PutClient(r, id, rep) =>
      if exists c | c in clients :: clients[c].id == id then
        (SetClients(s, r, Replaced(clients, id, rep)), Reply(204, Empty))
      else (s, Reply(404, Empty))
    case DeleteClient(r, id) =>
      if exists c | c in clients :: clients[c].id == id then
        (SetClients(s, r, Without(clients, id)), Reply(204, Empty))
      else (s, Reply(404, Empty))
    case GetSecret(r, id) =>
      if exists c | c in clients :: clients[c].id == id then (s, Reply(200, SecretBody(SecretOf(id))))
      else (s, Reply(404, Empty))
  }

  /** findClient's loop as a function: the first listed client with exactly this client id. */
  function FirstExact(listing: seq<ClientRep>, clientID: string): Option<ClientRep> {
    if listing == [] then None
    else if listing[0].clientID == clientID then Some(listing[0])
    else FirstExact(listing[1..], clientID)
  }

  lemma {:induction false} FirstExactAppend(a: seq<ClientRep>, b: seq<ClientRep>, clientID: string)
    ensures FirstExact(a + b, clientID) ==
            if FirstExact(a, clientID).Some? then FirstExact(a, clientID) else FirstExact(b, clientID)
  {
    if a == [] {
      assert a + b == b;
    } else {
      assert (a + b)[1..] == a[1..] + b;
      FirstExactAppend(a[1..], b, clientID);
    }
  }

  lemma {:induction false} FirstExactStored(clients: map<string, ClientRep>, ids: seq<string>, clientID: string)
    requires forall c | c in clients :: clients[c].clientID == c
    ensures var found := FirstExact(Stored(clients, ids), clientID);
      found.Some? ==> clientID in clients && found.value == clients[clientID]
  {
    if ids != [] {
      FirstExactStored(clients, ids[1..], clientID);
      FirstExactAppend(if ids[0] in clients then [clients[ids[0]]] else [], Stored(clients, ids[1..]), clientID);
    }
  }

  /** Whatever else a listing contains, exact matching finds the stored client
      or reports that there is none. */
  lemma ListingIsExact(clients: map<string, ClientRep>, clientID: string, pick: Pick)
    requires forall c | c in clients :: clients[c].clientID == c
    ensures FirstExact(List(clients, clientID, pick), clientID) ==
            if clientID in clients then Some(clients[clientID]) else None
  {
    var before, hit, after := Stored(clients, pick.before), Stored(clients, [clientID]), Stored(clients, pick.after);
    FirstExactStored(clients, pick.before, clientID);
    FirstExactStored(clients, pick.after, clientID);
    FirstExactAppend(before + hit, after, clientID);
    FirstExactAppend(before, hit, clientID);
    assert Stored(clients, [clientID][1..]) == [];
    assert hit == if clientID in clients then [clients[clientID]] else [];
  }

  function Replaced(clients: map<string, ClientRep>, id: nat, rep: ClientRep): map<string, ClientRep> {
    map c | c in clients :: if clients[c].id == id then rep.(id := id, clientID := c) else clients[c]
  }

  function Without(clients: map<string, ClientRep>, id: nat): map<string, ClientRep> {
    map c | c in clients && clients[c].id != id :: clients[c]
  }

  lemma AddKeepsOK(was: map<string, ClientRep>, bound: nat, rep: ClientRep)
    requires bound >= 1 && ClientsOK(was, bound)
    ensures ClientsOK(was[rep.clientID := rep.(id := bound)], bound + 1)
  {
    var now := was[rep.clientID := rep.(id := bound)];
    forall c | c in now ensures now[c].clientID == c && 1 <= now[c].id < bound + 1 {
      assert c != rep.clientID ==> was[c].id < bound;
    }
  }

  lemma ReplaceKeepsOK(was: map<string, ClientRep>, bound: nat, id: nat, rep: ClientRep)
    requires ClientsOK(was, bound)
    ensures ClientsOK(Replaced(was, id, rep), bound)
  {
    var now := Replaced(was, id, rep);
    assert forall c | c in now :: c in was && now[c].id == was[c].id;
  }

  lemma DropKeepsOK(was: map<string, ClientRep>, bound: nat, id: nat)
    requires ClientsOK(was, bound)
    ensures ClientsOK(Without(was, id), bound)
  {
  }

  lemma HandleClientKeepsOK(s: Server, req: Request, pick: Pick)
    requires !req.GetRealm? && !req.PutRealm? && !req.PostRealm? && !req.DeleteRealm?
    requires req.realm in s.realms && s.nextID >= 1 && ClientsOK(s.realms[req.realm].clients, s.nextID)
    ensures var s' := HandleClient(s, req, pick).0;
      && s'.nextID >= s.nextID && s'.realms.Keys == s.realms.Keys
      && ClientsOK(s'.realms[req.realm].clients, s'.nextID)
      && forall r | r in s.realms && r != req.realm :: s'.realms[r] == s.realms[r]
  {
    var was := s.realms[req.realm].clients;
    match req {
      case PostClient(_, rep) => AddKeepsOK(was, s.nextID, rep);
      case PutClient(_, id, rep) => ReplaceKeepsOK(was, s.nextID, id, rep);
      case DeleteClient(_, id) => DropKeepsOK(was, s.nextID, id);
      case _ =>
    }
  }

  /** No request breaks the server's own uniqueness of client ids and identifiers. */
  lemma HandleKeepsWellFormed(s: Server, req: Request, pick: Pick)
    requires WellFormed(s)
    ensures WellFormed(Handle(s, req, pick).0) && Handle(s, req, pick).0.nextID >= s.nextID
  {
    if req.GetRealm? || req.PutRealm? || req.PostRealm? || req.DeleteRealm? {
    } else if req.realm in s.realms {
      HandleClientKeepsOK(s, req, pick);
      var s' := Handle(s, req, pick).0;
      forall r | r in s'.realms ensures ClientsOK(s'.realms[r].clients, s'.nextID) {
        if r != req.realm {
          assert ClientsOK(s.realms[r].clients, s.nextID);
        }
      }
    }
  }
}
