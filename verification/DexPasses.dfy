// One undisturbed ClusterDex reconcile as a single step on the store: where it
// ends, that it is idempotent, and that a cut-off cleanup can be resumed.
module DexPasses {
  import opened Kube
  import opened Names
  import opened Policy
  import opened Dex
  import opened DexTruth

  function Triple(hash: string -> string, spec: Spec): set<ID> {
    {NameOf(hash, spec, 0), NameOf(hash, spec, 1), NameOf(hash, spec, 2)}
  }

  function Swept(hash: string -> string, st: Store, spec: Spec): Store {
    st.(children := st.children - Triple(hash, spec))
  }

  /** Child i created, brought up to date, or left alone if it is so already. */
  function Written(hash: string -> string, st: Store, spec: Spec, i: nat): Store {
    var id, content := NameOf(hash, spec, i), ContentOf(hash, spec, i);
    if id !in st.children then PutChild(st, id, Mutated(Rendered(hash, spec, i), content, spec.tenantID))
    else if Mutated(st.children[id], content, spec.tenantID) == st.children[id] then st
    else PutChild(st, id, Mutated(st.children[id], content, spec.tenantID))
  }

  function WrittenAll(hash: string -> string, st: Store, spec: Spec): Store {
    Written(hash, Written(hash, Written(hash, st, spec, 0), spec, 1), spec, 2)
  }

  predicate HasKeys(st: Store, key: Key, keys: set<string>) {
    key in st.secrets && keys <= st.secrets[key]
  }

  /** Both secrets carry their keys, and the spec can be rendered. */
  predicate Gate(st: Store, cr: CR) {
    && HasKeys(st, ClientSecretKey(cr), CLIENTKEYS) && Renderable(cr.spec)
    && HasKeys(st, ConfigKey(cr), CONFIGKEYS)
  }

  function Recorded(hash: string -> string, st: Store): Store
    requires st.cr.Some?
  {
    var cr := st.cr.value;
    if Unchanged(hash, cr) then st else PutCR(st, cr.(status := ReadyStatus(hash, cr)))
  }

  function FailedPass(st: Store): Store
    requires st.cr.Some?
  {
    var cr := st.cr.value;
    PutCR(st, cr.(status := cr.status.(mark := Failed(cr.generation))))
  }

  /** The enabled path. */
  function Provided(hash: string -> string, st: Store): Store
    requires st.cr.Some?
  {
    if !Gate(st, st.cr.value) then FailedPass(st) else Recorded(hash, WrittenAll(hash, st, st.cr.value.spec))
  }

  function DexPass(hash: string -> string, st: Store): Store {
    if st.cr.None? then st
    else
      var cr := st.cr.value;
      if cr.deleting then
        if FINALIZER !in cr.finalizers then st
        else PutCR(Swept(hash, st, cr.spec), cr.(finalizers := cr.finalizers - {FINALIZER}))
      else if FINALIZER !in cr.finalizers then PutCR(st, cr.(finalizers := cr.finalizers + {FINALIZER}))
      else if !IsEnabled(cr.spec) then Recorded(hash, Swept(hash, st, cr.spec))
      else Provided(hash, st)
  }

  // ---------- applyChild ----------

  /** Afterwards child i is right, an existing one keeps its other labels and
      everything else it carries, no other object changed, and writing it again
      does nothing. */
  lemma WrittenMeans(hash: string -> string, st: Store, spec: Spec, i: nat)
    ensures var st', id := Written(hash, st, spec, i), NameOf(hash, spec, i);
      && Matches(hash, st'.children, spec, i)
      && st'.children - {id} == st.children - {id}
      && (id in st.children ==>
            st'.children[id].notes == st.children[id].notes && st'.children[id].labels - {TENANT} == st.children[id].labels - {TENANT})
      && st'.cr == st.cr && st'.secrets == st.secrets
      && Written(hash, st', spec, i) == st'
  {
    var st', id := Written(hash, st, spec, i), NameOf(hash, spec, i);
    MatchingStays(hash, st', spec, i);
  }

  lemma MatchingStays(hash: string -> string, st: Store, spec: Spec, i: nat)
    requires Matches(hash, st.children, spec, i)
    ensures Written(hash, st, spec, i) == st
  {
    var id := NameOf(hash, spec, i);
    assert st.children[id].labels[TENANT := spec.tenantID] == st.children[id].labels;
  }

  lemma WrittenAdvances(hash: string -> string, st: Store, spec: Spec, i: nat)
    requires i < 3 && InOrder(hash, st.children, spec, false, i)
    ensures var st' := Written(hash, st, spec, i);
      && InOrder(hash, st'.children, spec, false, i + 1) && st'.cr == st.cr && st'.secrets == st.secrets
      && st'.children - Triple(hash, spec) == st.children - Triple(hash, spec)
  {
    var st', id := Written(hash, st, spec, i), NameOf(hash, spec, i);
    assert Right(hash, st'.children, spec, false, i);
    WriteAdvances(hash, st.children, st'.children, spec, false, i, 3);
    assert id in Triple(hash, spec);
  }

  lemma WrittenAllMeans(hash: string -> string, st: Store, spec: Spec)
    ensures var st' := WrittenAll(hash, st, spec);
      && InOrder(hash, st'.children, spec, false, 3) && st'.cr == st.cr && st'.secrets == st.secrets
      && st'.children - Triple(hash, spec) == st.children - Triple(hash, spec)
  {
    var st0 := Written(hash, st, spec, 0);
    var st1 := Written(hash, st0, spec, 1);
    WrittenAdvances(hash, st, spec, 0);
    WrittenAdvances(hash, st0, spec, 1);
    WrittenAdvances(hash, st1, spec, 2);
  }

  // ---------- Convergence ----------

  predicate Live(st: Store) {
    st.cr.Some? && !st.cr.value.deleting
  }

  ghost predicate Settled(hash: string -> string, st: Store) {
    && Live(st) && FINALIZER in st.cr.value.finalizers
    && var spec := st.cr.value.spec;
       && Unchanged(hash, st.cr.value) && InOrder(hash, st.children, spec, !IsEnabled(spec), 3)
       && (IsEnabled(spec) ==> Gate(st, st.cr.value))
  }

  /** A reconcile of a settled resource writes nothing at all. */
  lemma SettledDexStays(hash: string -> string, st: Store)
    requires Settled(hash, st)
    ensures DexPass(hash, st) == st
  {
    var spec := st.cr.value.spec;
    assert Right(hash, st.children, spec, !IsEnabled(spec), 0) && Right(hash, st.children, spec, !IsEnabled(spec), 1)
        && Right(hash, st.children, spec, !IsEnabled(spec), 2);
    if IsEnabled(spec) {
      MatchingStays(hash, st, spec, 0);
      MatchingStays(hash, st, spec, 1);
      MatchingStays(hash, st, spec, 2);
    } else {
      assert st.children - Triple(hash, spec) == st.children;
    }
  }

  lemma SweptInOrder(hash: string -> string, st: Store, spec: Spec)
    ensures InOrder(hash, Swept(hash, st, spec).children, spec, true, 3)
  {
  }

  lemma PassSettles(hash: string -> string, st: Store)
    requires Live(st) && FINALIZER in st.cr.value.finalizers
    ensures var st', spec := DexPass(hash, st), st.cr.value.spec;
      && Live(st') && st'.cr.value.spec == spec && st'.cr.value.namespace == st.cr.value.namespace
      && FINALIZER in st'.cr.value.finalizers && st'.secrets == st.secrets
      && (Settled(hash, st') <==> !IsEnabled(spec) || Gate(st, st.cr.value))
      && (!Settled(hash, st') ==> st'.cr.value.status.mark == Failed(st'.cr.value.generation) && st'.children == st.children)
  {
    var spec := st.cr.value.spec;
    if !IsEnabled(spec) {
      SweptInOrder(hash, st, spec);
    } else if Gate(st, st.cr.value) {
      WrittenAllMeans(hash, st, spec);
    }
  }

  function Repeated(hash: string -> string, st: Store, n: nat): Store {
    if n == 0 then st else DexPass(hash, Repeated(hash, st, n - 1))
  }

  lemma {:induction false} RepeatedSettles(hash: string -> string, st: Store, n: nat)
    requires Live(st) && n >= 2
    ensures var end, spec := Repeated(hash, st, n), st.cr.value.spec;
      && Live(end) && end.cr.value.spec == spec && end.cr.value.namespace == st.cr.value.namespace && FINALIZER in end.cr.value.finalizers && end.secrets == st.secrets
      && (Settled(hash, end) <==> !IsEnabled(spec) || Gate(st, st.cr.value))
      && (!Settled(hash, end) ==> end.cr.value.status.mark == Failed(end.cr.value.generation))
  {
    var before := Repeated(hash, st, n - 1);
    if n > 2 {
      RepeatedSettles(hash, st, n - 1);
    } else {
      assert before == DexPass(hash, Repeated(hash, st, 0)) == DexPass(hash, st);
      if FINALIZER in st.cr.value.finalizers { PassSettles(hash, st); }
    }
    PassSettles(hash, before);
  }

  lemma {:induction false} RestingPassesStay(hash: string -> string, st: Store, n: nat, later: nat)
    requires n <= later && DexPass(hash, Repeated(hash, st, n)) == Repeated(hash, st, n)
    ensures Repeated(hash, st, later) == Repeated(hash, st, n)
  {
    if n < later {
      RestingPassesStay(hash, st, n, later - 1);
    }
  }

  /** Two undisturbed passes or more bring a live resource to the settled state,
      where every later pass writes nothing - exactly when it is disabled, or its
      secrets are there and it can be rendered. Otherwise it reports a failure. */
  lemma {:induction false} DexConverges(hash: string -> string, st: Store, n: nat, later: nat)
    requires Live(st) && 2 <= n <= later
    ensures var end, spec := Repeated(hash, st, n), st.cr.value.spec;
      && Live(end) && end.cr.value.spec == spec
      && (Settled(hash, end) <==> !IsEnabled(spec) || Gate(st, st.cr.value))
      && (Settled(hash, end) ==> Repeated(hash, st, later) == end)
      && (!Settled(hash, end) ==> end.cr.value.status.mark == Failed(end.cr.value.generation))
  {
    RepeatedSettles(hash, st, n);
    if Settled(hash, Repeated(hash, st, n)) {
      SettledDexStays(hash, Repeated(hash, st, n));
      RestingPassesStay(hash, st, n, later);
    }
  }

  /** The object, and what the resource asks for, are as they were. */
  ghost predicate Keeps(hash: string -> string, st: Store, st': Store, id: ID)
    requires Live(st) && id in st.children
  {
    && Live(st') && st'.cr.value.spec == st.cr.value.spec && id !in Triple(hash, st'.cr.value.spec)
    && id in st'.children && st'.children[id] == st.children[id]
  }

  /** A pass leaves every object alone that is none of the resource's three children. */
  lemma PassKeepsOthers(hash: string -> string, st: Store, id: ID)
    requires Live(st) && id in st.children && id !in Triple(hash, st.cr.value.spec)
    ensures Keeps(hash, st, DexPass(hash, st), id)
  {
    if FINALIZER in st.cr.value.finalizers && IsEnabled(st.cr.value.spec) { ProvidingKeepsOthers(hash, st, id); }
  }

  lemma ProvidingKeepsOthers(hash: string -> string, st: Store, id: ID)
    requires Live(st) && id in st.children && id !in Triple(hash, st.cr.value.spec)
    ensures Keeps(hash, st, Provided(hash, st), id)
  {
    var spec := st.cr.value.spec;
    var written := WrittenAll(hash, st, spec);
    WrittenAllMeans(hash, st, spec);
    assert id in st.children - Triple(hash, spec) && id in written.children - Triple(hash, spec);
    assert (written.children - Triple(hash, spec))[id] == (st.children - Triple(hash, spec))[id];
  }

  lemma KeepsOn(hash: string -> string, st: Store, mid: Store, end: Store, id: ID)
    requires Live(st) && id in st.children && Keeps(hash, st, mid, id) && Keeps(hash, mid, end, id)
    ensures Keeps(hash, st, end, id)
  {
  }

  lemma PassesKeepOthers(hash: string -> string, st: Store, id: ID, n: nat)
    requires Live(st) && id in st.children && id !in Triple(hash, st.cr.value.spec)
    ensures Keeps(hash, st, Repeated(hash, st, n), id)
  {
    var cur := st;
    for i := 0 to n
      invariant cur == Repeated(hash, st, i) && Keeps(hash, st, cur, id)
    {
      PassKeepsOthers(hash, cur, id);
      var next := DexPass(hash, cur);
      KeepsOn(hash, st, cur, next, id);
      cur := next;
    }
  }

  /** After an edit, each old child whose name is none of the new three stays
      as it was, however often the edited resource is reconciled. */
  lemma {:induction false} EditsAbandonChildren(hash: string -> string, st: Store, spec: Spec, i: nat, n: nat)
    requires Live(st) && Settled(hash, st) && IsEnabled(st.cr.value.spec) && i < 3
    requires NameOf(hash, st.cr.value.spec, i) !in Triple(hash, spec)
    ensures var end, id := Repeated(hash, PutCR(st, Edited(st.cr.value, spec)), n), NameOf(hash, st.cr.value.spec, i);
      id in st.children && id in end.children && end.children[id] == st.children[id]
  {
    var edited := PutCR(st, Edited(st.cr.value, spec));
    assert Right(hash, st.children, st.cr.value.spec, false, i);
    assert edited.children == st.children && Live(edited) && edited.cr.value.spec == spec;
    PassesKeepOthers(hash, edited, NameOf(hash, st.cr.value.spec, i), n);
  }

  /** Renaming an enabled resource abandons the Application of the old name. */
  lemma {:induction false} RenamingAbandonsTheApplication(hash: string -> string, st: Store, spec: Spec, n: nat)
    requires Live(st) && Settled(hash, st) && IsEnabled(st.cr.value.spec)
    requires NameOf(hash, spec, 0) != NameOf(hash, st.cr.value.spec, 0)
    ensures NameOf(hash, st.cr.value.spec, 0) in Repeated(hash, PutCR(st, Edited(st.cr.value, spec)), n).children
  {
    EditsAbandonChildren(hash, st, spec, 0, n);
  }

  /** Moving it to another ArgoCD namespace abandons all three children there. */
  lemma {:induction false} MovingAbandonsAllChildren(hash: string -> string, st: Store, spec: Spec, n: nat)
    requires Live(st) && Settled(hash, st) && IsEnabled(st.cr.value.spec)
    requires ArgoNamespace(spec) != ArgoNamespace(st.cr.value.spec)
    ensures var end := Repeated(hash, PutCR(st, Edited(st.cr.value, spec)), n);
      forall id | id in Triple(hash, st.cr.value.spec) ::
        id in st.children && id in end.children && end.children[id] == st.children[id]
  {
    EditsAbandonChildren(hash, st, spec, 0, n);
    EditsAbandonChildren(hash, st, spec, 1, n);
    EditsAbandonChildren(hash, st, spec, 2, n);
  }

  // ---------- Cut-off cleanup ----------

  /** What is left of the start after part of its children is gone. */
  ghost predicate PartlySwept(hash: string -> string, st0: Store, st: Store) {
    && st0.cr.Some? && st == st0.(children := st.children)
    && st.children - Triple(hash, st0.cr.value.spec) == st0.children - Triple(hash, st0.cr.value.spec)
  }

  ghost predicate Sweeping(hash: string -> string, st0: Store, s: State) {
    || (s.store == DexPass(hash, st0) && (s.pc.Idle? || s.pc.Load?))
    || (PartlySwept(hash, st0, s.store) && Progress(hash, s.store.children, s.pc)
        && (s.pc.Idle? || s.pc.Load? || ((s.pc.ActAs? || s.pc.Delete? || s.pc.DropFinalizer?) && s.pc.cr == st0.cr.value)))
  }

  predicate ByWorker(a: Action) {
    a.Step? || a.Crash?
  }

  predicate BeingDeleted(st: Store) {
    st.cr.Some? && st.cr.value.deleting && FINALIZER in st.cr.value.finalizers
  }

  lemma SweepingEndsTheSame(hash: string -> string, st0: Store, s: State)
    requires BeingDeleted(st0) && Sweeping(hash, st0, s)
    ensures DexPass(hash, s.store) == DexPass(hash, st0)
  {
    if s.store != DexPass(hash, st0) {
      assert Swept(hash, s.store, st0.cr.value.spec) == Swept(hash, st0, st0.cr.value.spec);
    }
  }

  lemma SweepingStep(hash: string -> string, st0: Store, s: State, fault: Fault)
    requires BeingDeleted(st0) && Sweeping(hash, st0, s)
    ensures Sweeping(hash, st0, StepWorker(hash, s, fault))
  {
    var spec := st0.cr.value.spec;
    if s.pc.Delete? {
      ChildWrite(hash, s.store, s.pc, fault);
      DeleteStep(hash, st0, s, fault);
    } else if s.pc.DropFinalizer? {
      assert Right(hash, s.store.children, spec, true, 0) && Right(hash, s.store.children, spec, true, 1)
          && Right(hash, s.store.children, spec, true, 2);
      assert s.store.children == s.store.children - Triple(hash, spec);
      assert s.store == Swept(hash, st0, spec);
    }
  }

  lemma DeleteStep(hash: string -> string, st0: Store, s: State, fault: Fault)
    requires BeingDeleted(st0) && PartlySwept(hash, st0, s.store) && s.pc.Delete? && s.pc.cr == st0.cr.value
    requires Progress(hash, s.store.children, s.pc)
    ensures Sweeping(hash, st0, StepWorker(hash, s, fault))
  {
    var spec, i := st0.cr.value.spec, s.pc.i;
    var after := StepWorker(hash, s, fault).store.children;
    var id := NameOf(hash, spec, i);
    assert id in Triple(hash, spec);
    assert after == s.store.children || after == s.store.children - {id};
    assert after - Triple(hash, spec) == s.store.children - Triple(hash, spec);
    if id !in after {
      assert Right(hash, after, spec, true, i);
      WriteAdvances(hash, s.store.children, after, spec, true, i, 3);
      OneMore(hash, after, spec, true, i);
    }
  }

  /** A cleanup cut off anywhere, any number of times, ends like one that was
      not: the next undisturbed pass reaches the same store. */
  lemma {:induction false} CutOffCleanupResumes(hash: string -> string, rules: Rules, home: Spec, s: State, run: seq<Action>)
    requires BeingDeleted(s.store) && s.pc.Idle? && forall a | a in run :: ByWorker(a)
    ensures Sweeping(hash, s.store, Exec(hash, rules, home, s, run))
    ensures DexPass(hash, Exec(hash, rules, home, s, run).store) == DexPass(hash, s.store)
  {
    if run != [] {
      var last := |run| - 1;
      CutOffCleanupResumes(hash, rules, home, s, run[..last]);
      var before, a := Exec(hash, rules, home, s, run[..last]), run[last];
      assert a in run;
      if a.Step? { SweepingStep(hash, s.store, before, a.fault); }
    }
    SweepingEndsTheSame(hash, s.store, Exec(hash, rules, home, s, run));
  }
}
