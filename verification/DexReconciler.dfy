// The ClusterDex reconcile loop as it is written, over a store that users keep
// changing between its calls. Every call is the one the step machine's worker
// would make next; left undisturbed the loop is exactly one pass.
module DexReconciler {
  import opened Kube
  import opened Names
  import opened Policy
  import opened Dex
  import opened DexTruth
  import opened DexPasses

  function GateResult(st: Store, cr: CR): Result {
    if !HasKeys(st, ClientSecretKey(cr), CLIENTKEYS) || DexOf(cr.spec).config.None?
      || !HasKeys(st, ConfigKey(cr), CONFIGKEYS) || ArgoOf(cr.spec).oidcSecret.None? then RequeueAfter(30)
    else if !Renderable(cr.spec) then Errored
    else Finished
  }

  function PassResult(st: Store): Result {
    if st.cr.None? || Removing(st.cr.value) || FINALIZER !in st.cr.value.finalizers then Finished
    else GateResult(st, st.cr.value)
  }

  /** Reads and deletions of what is not there write nothing. */
  predicate Mutates(call: Call) {
    call.UpdateCR? || call.StatusCR? || call.CreateChild? || call.UpdateChild?
  }

  /** An API object under construction, changed in place. */
  class ChildObject {
    const id: ID
    var revision: nat
    var content: Content
    var labels: map<string, string>
    var notes: map<string, string>

    function Value(): Child
      reads this
    {
      Child(revision, content, labels, notes)
    }

    constructor (id: ID, content: Content, labels: map<string, string>)
      ensures this.id == id && Value() == Child(0, content, labels, map[])
    {
      this.id, this.revision, this.content, this.labels, this.notes := id, 0, content, labels, map[];
    }

    /** DeepCopyObject. */
    constructor CopyOf(other: ChildObject)
      ensures id == other.id && Value() == other.Value()
    {
      id, revision, content, labels, notes := other.id, other.revision, other.content, other.labels, other.notes;
    }

    /** Overwritten by what the cluster holds. */
    method Load(stored: Child)
      modifies this
      ensures Value() == stored
    {
      revision, content, labels, notes := stored.revision, stored.content, stored.labels, stored.notes;
    }

    /** The mutate closure of applyChild: the content comes from the copy made before the read. */
    method Mutate(desired: ChildObject, tenant: string)
      requires desired != this
      modifies this
      ensures Value() == Mutated(old(Value()), desired.content, tenant)
    {
      content := desired.content;
      labels := labels[TENANT := tenant];
    }

    /** Read, then mutated. */
    method Refresh(stored: Child, desired: ChildObject, tenant: string)
      requires desired != this
      modifies this
      ensures Value() == Mutated(stored, desired.content, tenant)
    {
      Load(stored);
      Mutate(desired, tenant);
    }
  }

  class ClusterDexReconciler {
    const hash: string -> string
    const rules: Rules
    const home: Spec
    const origin: map<ID, Child>
    var st: State
    var schedule: seq<Tick<Action, ()>>
    var writes: nat
    ghost var log: seq<Action>

    /** The state is the one the logged run leads to. */
    ghost predicate Valid()
      reads this
    {
      st == Exec(hash, rules, home, Begin(origin), log)
    }

    constructor (hash: string -> string, rules: Rules, home: Spec, origin: map<ID, Child>, schedule: seq<Tick<Action, ()>>)
      ensures Valid() && this.hash == hash && this.rules == rules && this.home == home && this.origin == origin
      ensures this.schedule == schedule && st == Begin(origin) && log == []
    {
      this.hash, this.rules, this.home, this.origin, this.schedule := hash, rules, home, origin, schedule;
      st, writes, log := Begin(origin), 0, [];
    }

    method Act(a: Action)
      requires Valid()
      modifies this`st, this`log
      ensures Valid() && st == Apply(hash, rules, home, old(st), a) && log == old(log) + [a]
    {
      st := Apply(hash, rules, home, st, a);
      log := log + [a];
      assert log[..|log| - 1] == old(log);
    }

    /** Lets the others act; the worker's own steps and its crash are not theirs to take. */
    method LetOthersAct(others: seq<Action>)
      requires Valid()
      modifies this`st, this`log
      ensures Valid() && old(log) <= log && st.pc == old(st.pc)
      ensures others == [] ==> st == old(st)
    {
      for i := 0 to |others|
        invariant Valid() && old(log) <= log && st.pc == old(st.pc)
        invariant i == 0 ==> st == old(st)
      {
        if !ByWorker(others[i]) {
          Act(others[i]);
        }
      }
    }

    /** One call of the worker. */
    method Make(call: Call) returns (answer: Answer)
      requires Valid() && !st.pc.Idle? && call == CallOf(hash, st.pc)
      modifies this
      ensures Valid() && old(log) <= log && st.pc == Resume(hash, old(st.pc), answer)
      ensures Calm(old(schedule)) ==>
        Calm(schedule) && (!answer.Refused? ==> Perform(old(st.store), call, Fine) == (st.store, answer))
      ensures Quiet(old(schedule)) ==> Quiet(schedule) && Perform(old(st.store), call, Fine) == (st.store, answer)
      ensures writes == old(writes) + if Mutates(call) then 1 else 0
    {
      var t := Tick([], Fine, ());
      if schedule != [] {
        t := schedule[0];
        schedule := schedule[1..];
      }
      LetOthersAct(t.others);
      answer := Perform(st.store, call, t.fault).1;
      writes := writes + if Mutates(call) then 1 else 0;
      Act(Step(t.fault));
    }

    // ---------- rendering ----------

    /** renderDexApplication: an image without a tag, or with a digest, is an error. */
    method RenderApplication(spec: Spec) returns (app: ChildObject?)
      ensures app == null <==> DexOf(spec).config.None? || (DexOf(spec).image != "" && SplitImageRef(DexOf(spec).image).BadImage?)
      ensures app != null ==> fresh(app) && app.id == NameOf(hash, spec, 0) && app.Value() == Rendered(hash, spec, 0)
    {
      var dex, argo := DexOf(spec), ArgoOf(spec);
      if dex.config.None? {
        return null;
      }
      var image := None;
      if dex.image != "" {
        var split := SplitImageRef(dex.image);
        if split.BadImage? {
          return null;
        }
        image := Some(split);
      }
      var name := DexName(hash, spec.clusterID);
      var content := AppContent(Or(argo.project, "default"), Or(dex.chartVersion, "0.25.2"), name,
                                dex.config.value.name, image, dex.route);
      app := new ChildObject(ID(Application, Key(ArgoNamespace(spec), name)), content, map[TENANT := spec.tenantID]);
    }

    /** renderArgoCDConfigMaps: a group that is not a single line is an error. */
    method RenderConfigMaps(spec: Spec) returns (cm: ChildObject?, rbac: ChildObject?)
      ensures cm == null <==> rbac == null
      ensures cm == null <==> ArgoOf(spec).oidcSecret.None? || !AllSingle(ArgoOf(spec).admins) || !AllSingle(ArgoOf(spec).viewers)
      ensures cm != null ==>
        && fresh(cm) && fresh(rbac) && cm != rbac
        && cm.id == NameOf(hash, spec, 1) && cm.Value() == Rendered(hash, spec, 1)
        && rbac.id == NameOf(hash, spec, 2) && rbac.Value() == Rendered(hash, spec, 2)
    {
      var argo := ArgoOf(spec);
      if argo.oidcSecret.None? {
        return null, null;
      }
      var ref := argo.oidcSecret.value;
      var key := ref.key;
      if key == "" {
        key := "client-secret";
      }
      var policy := RenderPolicy(argo.admins, argo.viewers, argo.extra);
      if policy.NotSingleLine? {
        return null, null;
      }
      var ns := ArgoNamespace(spec);
      cm := new ChildObject(ID(ConfigMap, Key(ns, "argocd-cm")),
                            OidcContent(IssuerURL(hash, spec), "$" + ref.name + ":" + key), map[TENANT := spec.tenantID]);
      rbac := new ChildObject(ID(ConfigMap, Key(ns, "argocd-rbac-cm")), PolicyContent(policy.text), map[TENANT := spec.tenantID]);
    }

    // ---------- helpers ----------

    /** A status write whose own outcome is ignored. */
    method Fail(cr: CR)
      requires Valid() && st.pc == MarkFailed(cr)
      modifies this
      ensures Valid() && old(log) <= log && st.pc.Idle?
      ensures (Calm(old(schedule)) ==> Calm(schedule)) && (Quiet(old(schedule)) ==> Quiet(schedule))
      ensures Quiet(old(schedule)) && old(st.store.cr) == Some(cr) ==> st.store == FailedPass(old(st.store))
    {
      var answer := Make(StatusCR(cr.(status := cr.status.(mark := Failed(cr.generation)))));
    }

    /** Records a failure and asks to be called again. */
    method Waiting(cr: CR) returns (res: Result)
      requires Valid() && st.pc == MarkFailed(cr)
      modifies this
      ensures Valid() && old(log) <= log && st.pc.Idle? && res == RequeueAfter(30)
      ensures (Calm(old(schedule)) ==> Calm(schedule)) && (Quiet(old(schedule)) ==> Quiet(schedule))
      ensures Quiet(old(schedule)) && old(st.store.cr) == Some(cr) ==> st.store == FailedPass(old(st.store))
    {
      Fail(cr);
      return RequeueAfter(30);
    }

    /** checkSecret: presence of the keys, never their values. */
    method CheckSecret(cr: CR, key: Key, keys: set<string>) returns (ok: bool, res: Result)
      requires Valid() && (st.pc == CheckClient(cr) || st.pc == CheckConfig(cr)) && GetSecret(key) == CallOf(hash, st.pc)
      requires keys == if st.pc.CheckClient? then CLIENTKEYS else CONFIGKEYS
      modifies this
      ensures Valid() && old(log) <= log
      ensures !ok ==> st.pc.Idle?
      ensures ok ==> exists present: set<string> | keys <= present :: st.pc == Resume(hash, old(st.pc), GotKeys(present))
      ensures ok ==> writes == old(writes)
      ensures !ok ==> !res.Finished?
      ensures Calm(old(schedule)) ==> Calm(schedule) && (ok ==> HasKeys(old(st.store), key, keys) && st.store == old(st.store))
      ensures Quiet(old(schedule)) ==> Quiet(schedule) && (ok <==> HasKeys(old(st.store), key, keys))
      ensures Quiet(old(schedule)) && old(st.store.cr) == Some(cr) && !ok ==>
        res == RequeueAfter(30) && st.store == FailedPass(old(st.store))
    {
      var got := Make(GetSecret(key));
      if got.Missing? {
        res := Waiting(cr);
        return false, res;
      }
      if !got.GotKeys? {
        return false, Errored;
      }
      if !(keys <= got.keys) {
        res := Waiting(cr);
        return false, res;
      }
      return true, Finished;
    }

    method ActForTenant(cr: CR) returns (ok: bool)
      requires Valid() && st.pc == ActAs(cr)
      modifies this
      ensures Valid() && old(log) <= log && writes == old(writes)
      ensures st.pc == if !ok then Idle else if Removing(cr) then Delete(cr, 0) else Read(cr, 0)
      ensures Calm(old(schedule)) ==> Calm(schedule) && (ok ==> st.store == old(st.store))
      ensures Quiet(old(schedule)) ==> Quiet(schedule) && ok
    {
      var answer := Make(Impersonate(cr.spec.serviceAccount));
      return answer.Done?;
    }

    /** The create half of CreateOrUpdate. */
    method CreateMutated(cr: CR, child: ChildObject, desired: ChildObject, i: nat) returns (ok: bool)
      requires Valid() && st.pc == Create(cr, i) && IsRendered(hash, cr.spec, child, i)
      requires desired != child && desired.content == ContentOf(hash, cr.spec, i)
      modifies this, child
      ensures Valid() && old(log) <= log && st.pc == if ok then NextChild(hash, cr, i) else MarkFailed(cr)
      ensures Calm(old(schedule)) && NameOf(hash, cr.spec, i) !in old(st.store.children) ==>
        Calm(schedule) && (ok ==> st.store == Written(hash, old(st.store), cr.spec, i))
      ensures Quiet(old(schedule)) && NameOf(hash, cr.spec, i) !in old(st.store.children) ==> Quiet(schedule) && ok
    {
      child.Mutate(desired, cr.spec.tenantID);
      var created := Make(CreateChild(child.id, child.Value()));
      if Calm(old(schedule)) && NameOf(hash, cr.spec, i) !in old(st.store.children) && (created.Done? || Quiet(old(schedule))) {
        ChildIsCreated(hash, old(st.store), cr, i, st.store, created);
      }
      return created.Done?;
    }

    /** The update half: the object holds what the cluster holds, and is written if the mutation changes it. */
    method UpdateMutated(cr: CR, child: ChildObject, desired: ChildObject, i: nat, stored: Child) returns (ok: bool)
      requires Valid() && st.pc == Resume(hash, Read(cr, i), GotChild(stored)) && child.id == NameOf(hash, cr.spec, i)
      requires desired != child && desired.content == ContentOf(hash, cr.spec, i)
      modifies this, child
      ensures Valid() && old(log) <= log && st.pc == if ok then NextChild(hash, cr, i) else MarkFailed(cr)
      ensures Calm(old(schedule)) && Holding(hash, old(st.store), cr.spec, i, stored) ==>
        Calm(schedule) && (ok ==> st.store == Written(hash, old(st.store), cr.spec, i))
      ensures Quiet(old(schedule)) && Holding(hash, old(st.store), cr.spec, i, stored) ==> Quiet(schedule) && ok
      ensures Mutated(stored, ContentOf(hash, cr.spec, i), cr.spec.tenantID) == stored ==> writes == old(writes)
    {
      child.Refresh(stored, desired, cr.spec.tenantID);
      if child.Value() == stored {
        return true;
      }
      ok := WriteUpdate(cr, child, i, stored);
    }

    method WriteUpdate(cr: CR, child: ChildObject, i: nat, stored: Child) returns (ok: bool)
      requires Valid() && st.pc == Update(cr, i, stored) && child.id == NameOf(hash, cr.spec, i)
      requires child.Value() == Mutated(stored, ContentOf(hash, cr.spec, i), cr.spec.tenantID) != stored
      modifies this
      ensures Valid() && old(log) <= log && st.pc == if ok then NextChild(hash, cr, i) else MarkFailed(cr)
      ensures Calm(old(schedule)) && Holding(hash, old(st.store), cr.spec, i, stored) ==>
        Calm(schedule) && (ok ==> st.store == Written(hash, old(st.store), cr.spec, i))
      ensures Quiet(old(schedule)) && Holding(hash, old(st.store), cr.spec, i, stored) ==> Quiet(schedule) && ok
    {
      var updated := Make(UpdateChild(child.id, child.Value()));
      if Calm(old(schedule)) && Holding(hash, old(st.store), cr.spec, i, stored) && (updated.Done? || Quiet(old(schedule))) {
        ChildIsUpdated(hash, old(st.store), cr, i, stored, st.store, updated);
      }
      return updated.Done?;
    }

    /** applyChild: create or update one child with the tenant label. */
    method ApplyChild(cr: CR, child: ChildObject, i: nat) returns (ok: bool)
      requires Valid() && st.pc == Read(cr, i) && IsRendered(hash, cr.spec, child, i)
      modifies this, child
      ensures Valid() && old(log) <= log
      ensures st.pc == if ok then NextChild(hash, cr, i) else MarkFailed(cr)
      ensures Calm(old(schedule)) ==> Calm(schedule) && (ok ==> st.store == Written(hash, old(st.store), cr.spec, i))
      ensures Quiet(old(schedule)) ==> Quiet(schedule) && ok
      ensures Quiet(old(schedule)) && Written(hash, old(st.store), cr.spec, i) == old(st.store) ==> writes == old(writes)
    {
      var desired := new ChildObject.CopyOf(child);
      var got := Make(GetChild(child.id));
      if Calm(old(schedule)) && !got.Refused? { ChildIsRead(hash, old(st.store), cr.spec, i, st.store, got); }
      if got.Missing? {
        ok := CreateMutated(cr, child, desired, i);
      } else if got.GotChild? {
        ok := UpdateMutated(cr, child, desired, i, got.child);
      } else {
        ok := false;
      }
    }

    /** ready: no status write when nothing changed. */
    method Ready(cr: CR) returns (res: Result)
      requires Valid() && st.pc == Settle(hash, cr)
      modifies this
      ensures Valid() && old(log) <= log && st.pc.Idle?
      ensures (Calm(old(schedule)) ==> Calm(schedule)) && (Quiet(old(schedule)) ==> Quiet(schedule))
      ensures Calm(old(schedule)) && old(st.store.cr) == Some(cr) && res.Finished? ==> st.store == Recorded(hash, old(st.store))
      ensures Quiet(old(schedule)) && old(st.store.cr) == Some(cr) ==> res.Finished?
      ensures Unchanged(hash, cr) ==> writes == old(writes)
    {
      var app := if IsEnabled(cr.spec) then DexName(hash, cr.spec.clusterID) else "";
      var status := cr.status;
      if status.application == app && status.issuer == IssuerURL(hash, cr.spec) && status.clientID == DexClientID(cr.spec)
        && status.mark == Mark.Ready(cr.generation) {
        return Finished;
      }
      var answer := Make(StatusCR(cr.(status :=
        Status(DexClientID(cr.spec), app, IssuerURL(hash, cr.spec), cr.generation, Mark.Ready(cr.generation)))));
      return if answer.Refused? then Errored else Finished;
    }

    /** deleteChildren: a child that is not there is no error. */
    method DeleteChildren(cr: CR) returns (ok: bool)
      requires Valid() && st.pc == ActAs(cr) && Removing(cr)
      modifies this
      ensures Valid() && old(log) <= log && writes == old(writes)
      ensures st.pc == if !ok then Idle else if cr.deleting then DropFinalizer(cr) else Settle(hash, cr)
      ensures Calm(old(schedule)) ==> Calm(schedule) && (ok ==> st.store == Swept(hash, old(st.store), cr.spec))
      ensures Quiet(old(schedule)) ==> Quiet(schedule) && ok
    {
      var wc := ActForTenant(cr);
      if !wc {
        return false;
      }
      ok := DeleteEach(cr);
    }

    /** The loop over the three children. */
    method DeleteEach(cr: CR) returns (ok: bool)
      requires Valid() && st.pc == Delete(cr, 0)
      modifies this
      ensures Valid() && old(log) <= log && writes == old(writes)
      ensures st.pc == if !ok then Idle else if cr.deleting then DropFinalizer(cr) else Settle(hash, cr)
      ensures Calm(old(schedule)) ==> Calm(schedule) && (ok ==> st.store == Swept(hash, old(st.store), cr.spec))
      ensures Quiet(old(schedule)) ==> Quiet(schedule) && ok
    {
      ghost var start := st.store;
      ghost var gone: set<ID> := {};
      assert start == start.(children := start.children - gone);
      for i := 0 to 3
        invariant Valid() && old(log) <= log && writes == old(writes)
        invariant st.pc == if i < 3 then Delete(cr, i) else if cr.deleting then DropFinalizer(cr) else Settle(hash, cr)
        invariant gone == FirstNames(hash, cr.spec, i)
        invariant Calm(old(schedule)) ==> Calm(schedule) && st.store == start.(children := start.children - gone)
        invariant Quiet(old(schedule)) ==> Quiet(schedule)
      {
        ghost var before := st.store;
        var id := NameOf(hash, cr.spec, i);
        var answer := Make(DeleteChild(id));
        if Calm(old(schedule)) {
          DeletedOne(before, id, start.children, gone);
        }
        gone := gone + {id};
        if !answer.Done? && !answer.Missing? {
          return false;
        }
      }
      return true;
    }

    // ---------- Reconcile ----------

    /** Deleted: children first, then the finalizer. */
    method Finalize(cr: CR) returns (res: Result)
      requires Valid() && cr.deleting && st.pc == Loaded(cr)
      modifies this
      ensures Valid() && old(log) <= log && st.pc.Idle?
      ensures (Calm(old(schedule)) ==> Calm(schedule)) && (Quiet(old(schedule)) ==> Quiet(schedule))
      ensures Calm(old(schedule)) && old(st.store.cr) == Some(cr) && res.Finished? ==> st.store == DexPass(hash, old(st.store))
      ensures Quiet(old(schedule)) && old(st.store.cr) == Some(cr) ==> res.Finished?
    {
      if FINALIZER !in cr.finalizers {
        return Finished;
      }
      var ok := DeleteChildren(cr);
      if !ok {
        return Errored;
      }
      var answer := Make(UpdateCR(cr.(finalizers := cr.finalizers - {FINALIZER})));
      return if answer.Done? then Finished else Errored;
    }

    method EnsureFinalizer(cr: CR) returns (res: Result)
      requires Valid() && !cr.deleting && FINALIZER !in cr.finalizers && st.pc == AddFinalizer(cr)
      modifies this
      ensures Valid() && old(log) <= log && st.pc.Idle?
      ensures (Calm(old(schedule)) ==> Calm(schedule)) && (Quiet(old(schedule)) ==> Quiet(schedule))
      ensures Calm(old(schedule)) && old(st.store.cr) == Some(cr) && res.Finished? ==> st.store == DexPass(hash, old(st.store))
      ensures Quiet(old(schedule)) && old(st.store.cr) == Some(cr) ==> res.Finished?
    {
      var answer := Make(UpdateCR(cr.(finalizers := cr.finalizers + {FINALIZER})));
      return if answer.Done? then Finished else Errored;
    }

    /** The client secret and the reference to the Dex configuration. */
    method CheckClientSecret(cr: CR) returns (ok: bool, res: Result)
      requires Valid() && st.pc == CheckClient(cr)
      modifies this
      ensures Valid() && old(log) <= log
      ensures ok ==> DexOf(cr.spec).config.Some? && st.pc == CheckConfig(cr) && writes == old(writes)
      ensures !ok ==> st.pc.Idle?
      ensures !ok ==> !res.Finished?
      ensures Calm(old(schedule)) ==>
        && Calm(schedule)
        && (ok ==> st.store == old(st.store) && HasKeys(old(st.store), ClientSecretKey(cr), CLIENTKEYS))
      ensures Quiet(old(schedule)) ==>
        && Quiet(schedule)
        && (ok <==> HasKeys(old(st.store), ClientSecretKey(cr), CLIENTKEYS) && DexOf(cr.spec).config.Some?)
      ensures Quiet(old(schedule)) && old(st.store.cr) == Some(cr) && !ok ==>
        res == RequeueAfter(30) && st.store == FailedPass(old(st.store))
    {
      ok, res := CheckSecret(cr, ClientSecretKey(cr), CLIENTKEYS);
      if ok && (cr.spec.dex.None? || cr.spec.dex.value.config.None?) {
        res := Waiting(cr);
        return false, res;
      }
    }

    /** The Dex configuration and the reference to the ArgoCD client secret. */
    method CheckConfigSecret(cr: CR) returns (ok: bool, res: Result)
      requires Valid() && st.pc == CheckConfig(cr)
      modifies this
      ensures Valid() && old(log) <= log
      ensures ok ==> ArgoOf(cr.spec).oidcSecret.Some? && writes == old(writes)
      ensures ok ==> st.pc == (if Renderable(cr.spec) then ActAs(cr) else MarkFailed(cr))
      ensures !ok ==> st.pc.Idle?
      ensures !ok ==> !res.Finished?
      ensures Calm(old(schedule)) ==>
        && Calm(schedule)
        && (ok ==> st.store == old(st.store) && HasKeys(old(st.store), ConfigKey(cr), CONFIGKEYS))
      ensures Quiet(old(schedule)) ==>
        && Quiet(schedule)
        && (ok <==> HasKeys(old(st.store), ConfigKey(cr), CONFIGKEYS) && ArgoOf(cr.spec).oidcSecret.Some?)
      ensures Quiet(old(schedule)) && old(st.store.cr) == Some(cr) && !ok ==>
        res == RequeueAfter(30) && st.store == FailedPass(old(st.store))
    {
      ok, res := CheckSecret(cr, ConfigKey(cr), CONFIGKEYS);
      if ok && (cr.spec.argocd.None? || cr.spec.argocd.value.oidcSecret.None?) {
        res := Waiting(cr);
        return false, res;
      }
    }

    /** The three children, or an error if either rendering step reports one. */
    method Render(spec: Spec) returns (ok: bool, app: ChildObject?, cm: ChildObject?, rbac: ChildObject?)
      ensures ok <==> Renderable(spec)
      ensures ok ==>
        && app != null && cm != null && rbac != null && fresh(app) && fresh(cm) && fresh(rbac)
        && AreRendered(hash, spec, [app, cm, rbac])
    {
      app := RenderApplication(spec);
      if app == null {
        return false, null, null, null;
      }
      cm, rbac := RenderConfigMaps(spec);
      ok := cm != null;
      assert ok ==> IsRendered(hash, spec, app, 0) && IsRendered(hash, spec, cm, 1) && IsRendered(hash, spec, rbac, 2);
    }

    method ApplyEach(cr: CR, children: seq<ChildObject>) returns (ok: bool)
      requires Valid() && st.pc == Read(cr, 0) && AreRendered(hash, cr.spec, children)
      modifies this, children
      ensures Valid() && old(log) <= log && st.pc == if ok then Settle(hash, cr) else MarkFailed(cr)
      ensures Calm(old(schedule)) ==> Calm(schedule) && (ok ==> st.store == WrittenAll(hash, old(st.store), cr.spec))
      ensures Quiet(old(schedule)) ==> Quiet(schedule) && ok
      ensures Quiet(old(schedule)) && AllWritten(hash, old(st.store), cr.spec) ==> writes == old(writes)
    {
      for i := 0 to |children|
        invariant Valid() && old(log) <= log && st.pc == if i < 3 then Read(cr, i) else Settle(hash, cr)
        invariant forall j | i <= j < 3 :: IsRendered(hash, cr.spec, children[j], j)
        invariant Calm(old(schedule)) ==> Calm(schedule) && st.store == WrittenUpTo(hash, old(st.store), cr.spec, i)
        invariant Quiet(old(schedule)) ==> Quiet(schedule)
        invariant Quiet(old(schedule)) && AllWritten(hash, old(st.store), cr.spec) ==> writes == old(writes)
      {
        ok := ApplyChild(cr, children[i], i);
        if !ok {
          return false;
        }
      }
      return true;
    }

    /** Writes the three children in order and records readiness. */
    method ApplyChildren(cr: CR, children: seq<ChildObject>) returns (res: Result)
      requires Valid() && st.pc == ActAs(cr) && !Removing(cr) && AreRendered(hash, cr.spec, children)
      modifies this, children
      ensures Valid() && old(log) <= log && st.pc.Idle?
      ensures (Calm(old(schedule)) ==> Calm(schedule)) && (Quiet(old(schedule)) ==> Quiet(schedule))
      ensures Calm(old(schedule)) && old(st.store.cr) == Some(cr) && res.Finished? ==>
        st.store == Recorded(hash, WrittenAll(hash, old(st.store), cr.spec))
      ensures Quiet(old(schedule)) && old(st.store.cr) == Some(cr) ==> res.Finished?
      ensures Quiet(old(schedule)) && Unchanged(hash, cr) && AllWritten(hash, old(st.store), cr.spec) ==> writes == old(writes)
    {
      var wc := ActForTenant(cr);
      if !wc {
        return Errored;
      }
      WrittenAllMeans(hash, st.store, cr.spec);
      var ok := ApplyEach(cr, children);
      if !ok {
        Fail(cr);
        return Errored;
      }
      res := Ready(cr);
    }

    /** Both secrets and both references; on failure the result to return. */
    method CheckPrerequisites(cr: CR) returns (ok: bool, res: Result)
      requires Valid() && st.pc == CheckClient(cr)
      modifies this
      ensures Valid() && old(log) <= log
      ensures ok ==> writes == old(writes) && st.pc == (if Renderable(cr.spec) then ActAs(cr) else MarkFailed(cr))
      ensures !ok ==> st.pc.Idle? && !res.Finished?
      ensures (Calm(old(schedule)) ==> Calm(schedule)) && (Quiet(old(schedule)) ==> Quiet(schedule))
      ensures Calm(old(schedule)) && ok ==> st.store == old(st.store) && (Renderable(cr.spec) ==> Gate(st.store, cr))
      ensures Quiet(old(schedule)) && old(st.store.cr) == Some(cr) ==>
        && (ok ==> GateResult(st.store, cr) == if Renderable(cr.spec) then Finished else Errored)
        && (!ok ==> !Gate(old(st.store), cr) && st.store == FailedPass(old(st.store)) && res == GateResult(old(st.store), cr))
      ensures Quiet(old(schedule)) && Gate(old(st.store), cr) ==> ok
    {
      ok, res := CheckClientSecret(cr);
      if ok {
        ok, res := CheckConfigSecret(cr);
      }
    }

    /** Renders, and applies what was rendered. */
    method RenderAndApply(cr: CR) returns (res: Result)
      requires Valid() && !Removing(cr) && st.pc == if Renderable(cr.spec) then ActAs(cr) else MarkFailed(cr)
      modifies this
      ensures Valid() && old(log) <= log && st.pc.Idle?
      ensures (Calm(old(schedule)) ==> Calm(schedule)) && (Quiet(old(schedule)) ==> Quiet(schedule))
      ensures Calm(old(schedule)) && old(st.store.cr) == Some(cr) && res.Finished? ==>
        Renderable(cr.spec) && st.store == Recorded(hash, WrittenAll(hash, old(st.store), cr.spec))
      ensures Quiet(old(schedule)) && old(st.store.cr) == Some(cr) ==>
        && res == (if Renderable(cr.spec) then Finished else Errored)
        && (!Renderable(cr.spec) ==> st.store == FailedPass(old(st.store)))
      ensures Quiet(old(schedule)) && Unchanged(hash, cr) && Renderable(cr.spec) && AllWritten(hash, old(st.store), cr.spec) ==>
        writes == old(writes)
    {
      var ok, app, cm, rbac := Render(cr.spec);
      if !ok {
        Fail(cr);
        return Errored;
      }
      res := ApplyChildren(cr, [app, cm, rbac]);
    }

    /** The enabled path, from the secret checks to the status. */
    method Provide(cr: CR) returns (res: Result)
      requires Valid() && !Removing(cr) && FINALIZER in cr.finalizers && st.pc == CheckClient(cr)
      modifies this
      ensures Valid() && old(log) <= log && st.pc.Idle?
      ensures (Calm(old(schedule)) ==> Calm(schedule)) && (Quiet(old(schedule)) ==> Quiet(schedule))
      ensures Calm(old(schedule)) && old(st.store.cr) == Some(cr) && res.Finished? ==> st.store == Provided(hash, old(st.store))
      ensures Quiet(old(schedule)) && old(st.store.cr) == Some(cr) ==>
        res == GateResult(old(st.store), cr) && st.store == Provided(hash, old(st.store))
      ensures Quiet(old(schedule)) && Unchanged(hash, cr) && Gate(old(st.store), cr) && AllWritten(hash, old(st.store), cr.spec) ==>
        writes == old(writes)
    {
      var checked;
      checked, res := CheckPrerequisites(cr);
      if checked {
        res := RenderAndApply(cr);
      }
    }

    /** ClusterDexReconciler.Reconcile. Whatever happens around its calls, a
        resource that says Ready afterwards tells the truth; and with nobody else
        writing, success means that the whole pass was done. */
    method Reconcile() returns (res: Result)
      requires Valid() && st.pc.Idle?
      modifies this
      ensures Valid() && old(log) <= log && st.pc.Idle?
      ensures SaysReady(st.store) ==> Truth(hash, st.store, st.store.cr.value.spec)
      ensures Calm(old(schedule)) && res.Finished? ==> st.store == DexPass(hash, old(st.store))
      ensures Quiet(old(schedule)) ==>
        Quiet(schedule) && st.store == DexPass(hash, old(st.store)) && res == PassResult(old(st.store))
      ensures Quiet(old(schedule)) && Settled(hash, old(st.store)) ==> st.store == old(st.store) && writes == old(writes)
    {
      if Settled(hash, st.store) {
        SettledDexStays(hash, st.store);
        SettledIsWritten(hash, st.store);
      }
      Act(Step(Fine));
      res := Run();
      if SaysReady(st.store) { ReadyTellsTheTruth(hash, rules, home, st); }
    }

    method Run() returns (res: Result)
      requires Valid() && st.pc.Load?
      modifies this
      ensures Valid() && old(log) <= log && st.pc.Idle?
      ensures Calm(old(schedule)) && res.Finished? ==> st.store == DexPass(hash, old(st.store))
      ensures Quiet(old(schedule)) ==>
        Quiet(schedule) && st.store == DexPass(hash, old(st.store)) && res == PassResult(old(st.store))
      ensures Quiet(old(schedule)) && Resting(hash, old(st.store)) ==> writes == old(writes)
    {
      var got := Make(GetCR);
      if !got.GotCR? {
        return if got.Missing? then Finished else Errored;
      }
      var cr := got.cr;
      if cr.deleting {
        res := Finalize(cr);
        return;
      }
      if FINALIZER !in cr.finalizers {
        res := EnsureFinalizer(cr);
        return;
      }
      if !IsEnabled(cr.spec) {
        var ok := DeleteChildren(cr);
        if !ok {
          return Errored;
        }
        res := Ready(cr);
        return;
      }
      res := Provide(cr);
    }
  }

  function FirstNames(hash: string -> string, spec: Spec, n: nat): set<ID> {
    if n == 0 then {}
    else if n == 1 then {NameOf(hash, spec, 0)}
    else if n == 2 then {NameOf(hash, spec, 0), NameOf(hash, spec, 1)}
    else Triple(hash, spec)
  }

  lemma DeletedOne(st: Store, id: ID, children: map<ID, Child>, gone: set<ID>)
    requires st.children == children - gone
    ensures Perform(st, DeleteChild(id), Fine).0 == st.(children := children - (gone + {id}))
  {
    assert children - gone - {id} == children - (gone + {id});
    assert id !in st.children ==> children - gone == children - (gone + {id});
  }

  predicate IsRendered(hash: string -> string, spec: Spec, child: ChildObject, i: nat)
    reads child
  {
    child.id == NameOf(hash, spec, i) && child.Value() == Rendered(hash, spec, i)
  }

  predicate AreRendered(hash: string -> string, spec: Spec, children: seq<ChildObject>)
    reads children
  {
    && |children| == 3 && children[0] != children[1] && children[0] != children[2] && children[1] != children[2]
    && forall i | 0 <= i < 3 :: IsRendered(hash, spec, children[i], i)
  }

  function WrittenUpTo(hash: string -> string, st: Store, spec: Spec, n: nat): Store {
    if n == 0 then st
    else if n == 1 then Written(hash, st, spec, 0)
    else if n == 2 then Written(hash, Written(hash, st, spec, 0), spec, 1)
    else WrittenAll(hash, st, spec)
  }

  /** Child i is stored, as this. */
  predicate Holding(hash: string -> string, st: Store, spec: Spec, i: nat, child: Child) {
    NameOf(hash, spec, i) in st.children && st.children[NameOf(hash, spec, i)] == child
  }

  lemma ChildIsRead(hash: string -> string, st: Store, spec: Spec, i: nat, st': Store, answer: Answer)
    requires Perform(st, GetChild(NameOf(hash, spec, i)), Fine) == (st', answer)
    ensures st' == st && (answer.Missing? || answer.GotChild?)
    ensures answer.Missing? ==> NameOf(hash, spec, i) !in st.children && Written(hash, st, spec, i) != st
    ensures answer.GotChild? ==>
      && Holding(hash, st, spec, i, answer.child)
      && (Mutated(answer.child, ContentOf(hash, spec, i), spec.tenantID) == answer.child <==> Written(hash, st, spec, i) == st)
  {
  }

  lemma ChildIsCreated(hash: string -> string, st: Store, cr: CR, i: nat, st': Store, answer: Answer)
    requires NameOf(hash, cr.spec, i) !in st.children
    requires Perform(st, CallOf(hash, Create(cr, i)), Fine) == (st', answer)
    ensures answer.Done? && st' == Written(hash, st, cr.spec, i)
  {
  }

  lemma StoredUnlessStale(st: Store, id: ID, child: Child)
    requires id in st.children && st.children[id].revision == child.revision
    ensures Perform(st, UpdateChild(id, child), Fine) == (PutChild(st, id, child), Done)
  {
  }

  lemma ChildIsUpdated(hash: string -> string, st: Store, cr: CR, i: nat, child: Child, st': Store, answer: Answer)
    requires Holding(hash, st, cr.spec, i, child)
    requires Mutated(child, ContentOf(hash, cr.spec, i), cr.spec.tenantID) != child
    requires Perform(st, CallOf(hash, Update(cr, i, child)), Fine) == (st', answer)
    ensures answer.Done? && st' == Written(hash, st, cr.spec, i)
  {
    StoredUnlessStale(st, NameOf(hash, cr.spec, i), Mutated(child, ContentOf(hash, cr.spec, i), cr.spec.tenantID));
  }

  /** Writing the children again would change none of them. */
  predicate AllWritten(hash: string -> string, st: Store, spec: Spec) {
    Written(hash, st, spec, 0) == st && Written(hash, st, spec, 1) == st && Written(hash, st, spec, 2) == st
  }

  /** The part of being settled that the loop itself looks at. */
  predicate Resting(hash: string -> string, st: Store) {
    && Live(st) && FINALIZER in st.cr.value.finalizers && Unchanged(hash, st.cr.value)
    && (IsEnabled(st.cr.value.spec) ==> Gate(st, st.cr.value) && AllWritten(hash, st, st.cr.value.spec))
  }

  lemma SettledIsWritten(hash: string -> string, st: Store)
    requires Settled(hash, st)
    ensures Resting(hash, st)
  {
    var spec := st.cr.value.spec;
    if IsEnabled(spec) {
      assert Right(hash, st.children, spec, false, 0) && Right(hash, st.children, spec, false, 1) && Right(hash, st.children, spec, false, 2);
      MatchingStays(hash, st, spec, 0);
      MatchingStays(hash, st, spec, 1);
      MatchingStays(hash, st, spec, 2);
    }
  }
}
