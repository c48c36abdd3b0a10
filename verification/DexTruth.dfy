// What a ClusterDex says about itself is true, and it leaves no child behind.
module DexTruth {
  import opened Kube
  import opened Names
  import opened Policy
  import opened Dex

  /** Child i is there, with the rendered content and the tenant's label. */
  ghost predicate Matches(hash: string -> string, children: map<ID, Child>, spec: Spec, i: nat) {
    var id := NameOf(hash, spec, i);
    && id in children && children[id].content == ContentOf(hash, spec, i)
    && TENANT in children[id].labels && children[id].labels[TENANT] == spec.tenantID
  }

  ghost predicate Right(hash: string -> string, children: map<ID, Child>, spec: Spec, removing: bool, i: nat) {
    if removing then NameOf(hash, spec, i) !in children else Matches(hash, children, spec, i)
  }

  /** The first n children are as the spec asks: rendered if it is to be there, absent if not. */
  ghost predicate InOrder(hash: string -> string, children: map<ID, Child>, spec: Spec, removing: bool, n: nat) {
    forall i: nat | i < n :: Right(hash, children, spec, removing, i)
  }

  /** All three children equal the rendering of an enabled spec, and none exists for a disabled one. */
  ghost predicate Truth(hash: string -> string, st: Store, spec: Spec) {
    && (IsEnabled(spec) ==> Renderable(spec))
    && InOrder(hash, st.children, spec, !IsEnabled(spec), 3)
  }

  /** Ready=True at the current generation. */
  ghost predicate SaysReady(st: Store) {
    st.cr.Some? && st.cr.value.status.mark == Ready(st.cr.value.generation)
  }

  ghost predicate Holds(pc: PC) {
    !pc.Idle? && !pc.Load?
  }

  /** Where the worker is, and what it has done to the children so far. */
  ghost predicate Progress(hash: string -> string, children: map<ID, Child>, pc: PC) {
    match pc
    case AddFinalizer(cr) => !cr.deleting && FINALIZER !in cr.finalizers
    case CheckClient(cr) => !Removing(cr) && FINALIZER in cr.finalizers
    case CheckConfig(cr) => !Removing(cr) && FINALIZER in cr.finalizers
    case ActAs(cr) => (Removing(cr) || Renderable(cr.spec)) && FINALIZER in cr.finalizers
    case Delete(cr, i) => i < 3 && Removing(cr) && FINALIZER in cr.finalizers && InOrder(hash, children, cr.spec, true, i)
    case DropFinalizer(cr) => cr.deleting && FINALIZER in cr.finalizers && InOrder(hash, children, cr.spec, true, 3)
    case Read(cr, i) => Writing(hash, children, cr, i)
    case Create(cr, i) => Writing(hash, children, cr, i)
    case Update(cr, i, _) => Writing(hash, children, cr, i)
    case MarkReady(cr) =>
      && !cr.deleting && FINALIZER in cr.finalizers && (IsEnabled(cr.spec) ==> Renderable(cr.spec))
      && InOrder(hash, children, cr.spec, !IsEnabled(cr.spec), 3)
    case MarkFailed(cr) => !Removing(cr) && FINALIZER in cr.finalizers
    case _ => true
  }

  ghost predicate Writing(hash: string -> string, children: map<ID, Child>, cr: CR, i: nat) {
    i < 3 && !Removing(cr) && Renderable(cr.spec) && FINALIZER in cr.finalizers && InOrder(hash, children, cr.spec, false, i)
  }

  /** The worker's copy is no newer than the store, and the stored object if it has its revision. */
  ghost predicate Snapshot(st: Store, pc: PC) {
    Holds(pc) ==> pc.cr.revision <= st.revision && (st.cr.Some? && st.cr.value.revision == pc.cr.revision ==> st.cr.value == pc.cr)
  }

  ghost predicate MarkedBefore(st: Store) {
    st.cr.Some? ==>
      && st.cr.value.revision <= st.revision
      && var mark := st.cr.value.status.mark;
         mark.Ready? ==> mark.generation <= st.cr.value.generation
  }

  ghost predicate Inv(hash: string -> string, s: State) {
    && MarkedBefore(s.store) && Snapshot(s.store, s.pc) && Progress(hash, s.store.children, s.pc)
    && (SaysReady(s.store) ==>
          && !s.store.cr.value.deleting && s.store.cr.value.status == ReadyStatus(hash, s.store.cr.value)
          && Truth(hash, s.store, s.store.cr.value.spec)
          && (Holds(s.pc) ==> s.pc.cr.spec == s.store.cr.value.spec && !s.pc.cr.deleting))
  }

  /** The same children, with the same content and tenant. */
  ghost predicate Kin(a: map<ID, Child>, b: map<ID, Child>) {
    a.Keys == b.Keys && forall id | id in a :: a[id].content == b[id].content && SameTenant(a[id].labels, b[id].labels)
  }

  lemma KinKeepOrder(hash: string -> string, a: map<ID, Child>, b: map<ID, Child>, spec: Spec, removing: bool, n: nat)
    requires Kin(a, b) && InOrder(hash, a, spec, removing, n)
    ensures InOrder(hash, b, spec, removing, n)
  {
    forall i: nat | i < n ensures Right(hash, b, spec, removing, i) {
      assert Right(hash, a, spec, removing, i);
    }
  }

  lemma KinKeepProgress(hash: string -> string, a: map<ID, Child>, b: map<ID, Child>, pc: PC)
    requires Kin(a, b) && Progress(hash, a, pc)
    ensures Progress(hash, b, pc)
  {
    match pc {
      case Delete(cr, i) => KinKeepOrder(hash, a, b, cr.spec, true, i);
      case DropFinalizer(cr) => KinKeepOrder(hash, a, b, cr.spec, true, 3);
      case Read(cr, i) => KinKeepOrder(hash, a, b, cr.spec, false, i);
      case Create(cr, i) => KinKeepOrder(hash, a, b, cr.spec, false, i);
      case Update(cr, i, _) => KinKeepOrder(hash, a, b, cr.spec, false, i);
      case MarkReady(cr) => KinKeepOrder(hash, a, b, cr.spec, !IsEnabled(cr.spec), 3);
      case _ =>
    }
  }

  /** Child i written as the spec asks: one more in order, and none put out of order. */
  ghost predicate Writes(hash: string -> string, a: map<ID, Child>, b: map<ID, Child>, spec: Spec, removing: bool, i: nat) {
    && Right(hash, b, spec, removing, i)
    && forall id | id != NameOf(hash, spec, i) :: (id in a <==> id in b) && (id in a ==> a[id] == b[id])
  }

  lemma WriteAdvances(hash: string -> string, a: map<ID, Child>, b: map<ID, Child>, spec: Spec, removing: bool, i: nat, n: nat)
    requires i < 3 && n <= 3 && Writes(hash, a, b, spec, removing, i)
    ensures InOrder(hash, a, spec, removing, n) ==> InOrder(hash, b, spec, removing, n)
    ensures InOrder(hash, a, spec, removing, i) ==> InOrder(hash, b, spec, removing, i + 1)
  {
    forall j: nat | j < 3 && j != i && Right(hash, a, spec, removing, j) ensures Right(hash, b, spec, removing, j) {
      assert NameOf(hash, spec, j) != NameOf(hash, spec, i);
    }
  }

  lemma OneMore(hash: string -> string, a: map<ID, Child>, spec: Spec, removing: bool, i: nat)
    requires InOrder(hash, a, spec, removing, i) && Right(hash, a, spec, removing, i)
    ensures InOrder(hash, a, spec, removing, i + 1)
  {
  }

  ghost predicate WritesChild(pc: PC) {
    pc.Delete? || pc.Create? || pc.Update?
  }

  /** A call that writes a child, took effect or not. */
  lemma ChildWrite(hash: string -> string, st: Store, pc: PC, fault: Fault)
    requires WritesChild(pc) && Progress(hash, st.children, pc)
    ensures var (st', answer) := Perform(st, CallOf(hash, pc), fault);
      && st'.cr == st.cr && st.revision <= st'.revision
      && (st'.children == st.children || Writes(hash, st.children, st'.children, pc.cr.spec, pc.Delete?, pc.i))
      && (answer.Done? || (answer.Missing? && pc.Delete?) ==> Right(hash, st'.children, pc.cr.spec, pc.Delete?, pc.i))
  {
    if pc.Delete? { ChildDeleted(hash, st, pc, fault); } else { ChildStored(hash, st, pc, fault); }
  }

  lemma ChildDeleted(hash: string -> string, st: Store, pc: PC, fault: Fault)
    requires pc.Delete?
    ensures var (st', answer) := Perform(st, CallOf(hash, pc), fault);
      && st'.cr == st.cr && st.revision == st'.revision
      && (st'.children == st.children || Writes(hash, st.children, st'.children, pc.cr.spec, true, pc.i))
      && (answer.Done? || answer.Missing? ==> Right(hash, st'.children, pc.cr.spec, true, pc.i))
  {
  }

  lemma ChildStored(hash: string -> string, st: Store, pc: PC, fault: Fault)
    requires pc.Create? || pc.Update?
    ensures var (st', answer) := Perform(st, CallOf(hash, pc), fault);
      && st'.cr == st.cr && st.revision <= st'.revision
      && (st'.children == st.children || Writes(hash, st.children, st'.children, pc.cr.spec, false, pc.i))
      && (answer.Done? ==> Right(hash, st'.children, pc.cr.spec, false, pc.i))
  {
    var id, call := NameOf(hash, pc.cr.spec, pc.i), CallOf(hash, pc);
    var (st', answer) := Perform(st, call, fault);
    PutIfAny(st, call, fault);
    if st' != st {
      assert st'.children[id].content == ContentOf(hash, pc.cr.spec, pc.i);
      assert Matches(hash, st'.children, pc.cr.spec, pc.i);
    }
  }

  /** A create or update puts the child it carries, or does nothing. */
  lemma PutIfAny(st: Store, call: Call, fault: Fault)
    requires call.CreateChild? || call.UpdateChild?
    ensures var (st', answer) := Perform(st, call, fault);
      st' in {st, PutChild(st, call.id, call.child)} && (answer.Done? ==> st' == PutChild(st, call.id, call.child))
  {
  }

  lemma StepKeeps(hash: string -> string, s: State, fault: Fault)
    requires Inv(hash, s)
    ensures Inv(hash, StepWorker(hash, s, fault))
  {
    if WritesChild(s.pc) {
      ChildStepKeeps(hash, s, fault);
    } else if s.pc.Read? {
      ReadStepKeeps(hash, s, fault);
    } else {
      OtherStepKeeps(hash, s, fault);
    }
  }

  lemma ChildStepKeeps(hash: string -> string, s: State, fault: Fault)
    requires Inv(hash, s) && WritesChild(s.pc)
    ensures Inv(hash, StepWorker(hash, s, fault))
  {
    ChildWrite(hash, s.store, s.pc, fault);
    ChildStepProgress(hash, s, fault);
    if SaysReady(s.store) { ChildStepTruth(hash, s, fault); }
  }

  /** One child more is in order, or the worker gives up. */
  lemma ChildStepProgress(hash: string -> string, s: State, fault: Fault)
    requires WritesChild(s.pc) && Progress(hash, s.store.children, s.pc)
    ensures var s' := StepWorker(hash, s, fault);
      && Progress(hash, s'.store.children, s'.pc)
      && (Holds(s'.pc) ==> s'.pc.cr == s.pc.cr)
  {
    var st, pc, st' := s.store, s.pc, StepWorker(hash, s, fault).store;
    ChildWrite(hash, st, pc, fault);
    if st'.children != st.children {
      WriteAdvances(hash, st.children, st'.children, pc.cr.spec, pc.Delete?, pc.i, 3);
    } else if Right(hash, st.children, pc.cr.spec, pc.Delete?, pc.i) {
      OneMore(hash, st.children, pc.cr.spec, pc.Delete?, pc.i);
    }
  }

  /** A worker that holds the current spec keeps its truth. */
  lemma ChildStepTruth(hash: string -> string, s: State, fault: Fault)
    requires Inv(hash, s) && WritesChild(s.pc) && SaysReady(s.store)
    ensures Truth(hash, StepWorker(hash, s, fault).store, s.store.cr.value.spec)
  {
    var st, pc, st' := s.store, s.pc, StepWorker(hash, s, fault).store;
    ChildWrite(hash, st, pc, fault);
    if st'.children != st.children {
      WriteAdvances(hash, st.children, st'.children, pc.cr.spec, pc.Delete?, pc.i, 3);
    }
  }

  lemma ReadStepKeeps(hash: string -> string, s: State, fault: Fault)
    requires Inv(hash, s) && s.pc.Read?
    ensures Inv(hash, StepWorker(hash, s, fault))
  {
    ReadEffect(hash, s, fault);
    ReadStepProgress(hash, s, fault);
  }

  /** A child that needs no write is in order. */
  lemma ReadStepProgress(hash: string -> string, s: State, fault: Fault)
    requires s.pc.Read? && Progress(hash, s.store.children, s.pc)
    ensures var s' := StepWorker(hash, s, fault);
      && Progress(hash, s.store.children, s'.pc) && (Holds(s'.pc) ==> s'.pc.cr == s.pc.cr)
  {
    if Right(hash, s.store.children, s.pc.cr.spec, false, s.pc.i) {
      OneMore(hash, s.store.children, s.pc.cr.spec, false, s.pc.i);
    }
  }

  ghost predicate WritesCR(pc: PC) {
    pc.AddFinalizer? || pc.DropFinalizer? || pc.MarkReady? || pc.MarkFailed?
  }

  /** A write either has no effect or meets the object exactly as it was read. */
  lemma CREffect(hash: string -> string, s: State, fault: Fault)
    requires WritesCR(s.pc) && Snapshot(s.store, s.pc)
    ensures var s' := StepWorker(hash, s, fault);
      && s'.pc.Idle?
      && (s'.store == s.store || (s.store.cr == Some(s.pc.cr) && s'.store == PutCR(s.store, CallOf(hash, s.pc).cr)))
  {
  }

  lemma ReadEffect(hash: string -> string, s: State, fault: Fault)
    requires !WritesChild(s.pc) && !WritesCR(s.pc)
    ensures StepWorker(hash, s, fault).store == s.store
  {
  }

  lemma OtherStepKeeps(hash: string -> string, s: State, fault: Fault)
    requires Inv(hash, s) && !WritesChild(s.pc) && !s.pc.Read?
    ensures Inv(hash, StepWorker(hash, s, fault))
  {
    if WritesCR(s.pc) {
      CREffect(hash, s, fault);
    } else {
      ReadEffect(hash, s, fault);
    }
  }

  lemma OthersKeep(hash: string -> string, rules: Rules, home: Spec, s: State, a: Action)
    requires Inv(hash, s) && Allowed(hash, rules, home, s.store, a)
    ensures Inv(hash, s.(store := Users(hash, rules, home, s.store, a)))
  {
    var children, after := s.store.children, Users(hash, rules, home, s.store, a).children;
    assert Kin(children, after);
    KinKeepProgress(hash, children, after, s.pc);
    if SaysReady(s.store) {
      KinKeepOrder(hash, children, after, s.store.cr.value.spec, !IsEnabled(s.store.cr.value.spec), 3);
    }
  }

  lemma {:induction false} RunKeeps(hash: string -> string, rules: Rules, home: Spec, children: map<ID, Child>, run: seq<Action>)
    ensures Inv(hash, Exec(hash, rules, home, Begin(children), run))
  {
    if run != [] {
      var last := |run| - 1;
      RunKeeps(hash, rules, home, children, run[..last]);
      var s, a := Exec(hash, rules, home, Begin(children), run[..last]), run[last];
      if a.Step? {
        StepKeeps(hash, s, a.fault);
      } else if !a.Crash? && Allowed(hash, rules, home, s.store, a) {
        OthersKeep(hash, rules, home, s, a);
      }
    }
  }

  /** In every reachable state, whatever edits, failures and crashes came before:
      Ready=True at the current generation means that the children are exactly
      what the current spec asks for. */
  lemma {:induction false} ReadyTellsTheTruth(hash: string -> string, rules: Rules, home: Spec, s: State)
    requires Reachable(hash, rules, home, s) && SaysReady(s.store)
    ensures !s.store.cr.value.deleting && Truth(hash, s.store, s.store.cr.value.spec)
    ensures s.store.cr.value.status == ReadyStatus(hash, s.store.cr.value)
  {
    var children, run :| s == Exec(hash, rules, home, Begin(children), run);
    RunKeeps(hash, rules, home, children, run);
  }

  // ---------- No orphans ----------

  ghost predicate HasFinalizer(st: Store) {
    st.cr.Some? && FINALIZER in st.cr.value.finalizers
  }

  ghost predicate Home(hash: string -> string, home: Spec, id: ID) {
    exists i: nat | i < 3 :: NameOf(hash, home, i) == id
  }

  /** Names fixed and finalizers left alone: children and a worker past the
      finalizer check both need the finalizer to be there. */
  ghost predicate Tied(hash: string -> string, home: Spec, s: State) {
    && Inv(hash, s)
    && (s.store.cr.Some? ==> SameNames(hash, s.store.cr.value.spec, home))
    && (Holds(s.pc) ==> SameNames(hash, s.pc.cr.spec, home))
    && (Holds(s.pc) && FINALIZER in s.pc.cr.finalizers ==> HasFinalizer(s.store))
    && (HasFinalizer(s.store) || InOrder(hash, s.store.children, home, true, 3))
  }

  /** Children of other names are nobody's business. */
  ghost predicate Foreign(hash: string -> string, home: Spec, a: map<ID, Child>, b: map<ID, Child>) {
    forall id | !Home(hash, home, id) ::
      (id in a <==> id in b) && (id in a ==> a[id].content == b[id].content && SameTenant(a[id].labels, b[id].labels))
  }

  lemma SameNamesNameTheSame(hash: string -> string, a: Spec, b: Spec, children: map<ID, Child>)
    requires SameNames(hash, a, b)
    ensures forall i: nat :: NameOf(hash, a, i) == NameOf(hash, b, i)
    ensures InOrder(hash, children, a, true, 3) ==> InOrder(hash, children, b, true, 3)
  {
    if InOrder(hash, children, a, true, 3) {
      forall i: nat | i < 3 ensures Right(hash, children, b, true, i) {
        assert Right(hash, children, a, true, i);
      }
    }
  }

  lemma TiedStep(hash: string -> string, home: Spec, s: State, fault: Fault)
    requires Tied(hash, home, s)
    ensures Tied(hash, home, StepWorker(hash, s, fault))
    ensures Foreign(hash, home, s.store.children, StepWorker(hash, s, fault).store.children)
  {
    StepKeeps(hash, s, fault);
    if Holds(s.pc) {
      SameNamesNameTheSame(hash, s.pc.cr.spec, home, s.store.children);
    }
    if WritesChild(s.pc) {
      TiedChildStep(hash, home, s, fault);
    } else {
      TiedOtherStep(hash, home, s, fault);
    }
  }

  lemma TiedChildStep(hash: string -> string, home: Spec, s: State, fault: Fault)
    requires Tied(hash, home, s) && WritesChild(s.pc) && Inv(hash, StepWorker(hash, s, fault))
    requires forall i: nat :: NameOf(hash, s.pc.cr.spec, i) == NameOf(hash, home, i)
    ensures Tied(hash, home, StepWorker(hash, s, fault))
    ensures Foreign(hash, home, s.store.children, StepWorker(hash, s, fault).store.children)
  {
    ChildWrite(hash, s.store, s.pc, fault);
    assert Home(hash, home, NameOf(hash, home, s.pc.i));
  }

  lemma TiedOtherStep(hash: string -> string, home: Spec, s: State, fault: Fault)
    requires Tied(hash, home, s) && !WritesChild(s.pc) && Inv(hash, StepWorker(hash, s, fault))
    requires Holds(s.pc) && InOrder(hash, s.store.children, s.pc.cr.spec, true, 3) ==> InOrder(hash, s.store.children, home, true, 3)
    ensures Tied(hash, home, StepWorker(hash, s, fault))
    ensures Foreign(hash, home, s.store.children, StepWorker(hash, s, fault).store.children)
  {
    if WritesCR(s.pc) {
      CREffect(hash, s, fault);
    } else {
      ReadEffect(hash, s, fault);
    }
  }

  lemma TiedOthers(hash: string -> string, rules: Rules, home: Spec, s: State, a: Action)
    requires rules == Rules(true, false) && Tied(hash, home, s) && Allowed(hash, rules, home, s.store, a)
    ensures var s' := s.(store := Users(hash, rules, home, s.store, a));
      Tied(hash, home, s') && Foreign(hash, home, s.store.children, s'.store.children)
  {
    OthersKeep(hash, rules, home, s, a);
    if a.Decorate? {
      TiedDecorate(hash, rules, home, s, a);
    } else {
      TiedUser(hash, rules, home, s, a);
    }
  }

  /** Others change labels and annotations of a child. */
  lemma TiedDecorate(hash: string -> string, rules: Rules, home: Spec, s: State, a: Action)
    requires Tied(hash, home, s) && Allowed(hash, rules, home, s.store, a) && a.Decorate?
    requires Inv(hash, s.(store := Users(hash, rules, home, s.store, a)))
    ensures var s' := s.(store := Users(hash, rules, home, s.store, a));
      Tied(hash, home, s') && Foreign(hash, home, s.store.children, s'.store.children)
  {
    var after := Users(hash, rules, home, s.store, a).children;
    assert Kin(s.store.children, after);
    if InOrder(hash, s.store.children, home, true, 3) {
      KinKeepOrder(hash, s.store.children, after, home, true, 3);
    }
  }

  /** Users change the resource, or secrets change. */
  lemma TiedUser(hash: string -> string, rules: Rules, home: Spec, s: State, a: Action)
    requires rules == Rules(true, false) && Tied(hash, home, s) && Allowed(hash, rules, home, s.store, a) && !a.Decorate?
    requires Inv(hash, s.(store := Users(hash, rules, home, s.store, a)))
    ensures var s' := s.(store := Users(hash, rules, home, s.store, a));
      Tied(hash, home, s') && s'.store.children == s.store.children
  {
  }

  /** With the names fixed and no finalizer removed by hand, in every run with
      failures at any call: a child exists only while the resource exists with
      its finalizer, and no other object is ever touched. */
  lemma {:induction false} NoDexOrphans(hash: string -> string, home: Spec, children: map<ID, Child>, run: seq<Action>)
    requires InOrder(hash, children, home, true, 3)
    ensures var s := Exec(hash, Rules(true, false), home, Begin(children), run);
      && Tied(hash, home, s)
      && (forall i: nat | i < 3 && NameOf(hash, home, i) in s.store.children :: HasFinalizer(s.store))
      && Foreign(hash, home, children, s.store.children)
  {
    var rules := Rules(true, false);
    var s := Exec(hash, rules, home, Begin(children), run);
    if run != [] {
      var last := |run| - 1;
      NoDexOrphans(hash, home, children, run[..last]);
      var before, a := Exec(hash, rules, home, Begin(children), run[..last]), run[last];
      if a.Step? {
        TiedStep(hash, home, before, a.fault);
      } else if !a.Crash? && Allowed(hash, rules, home, before.store, a) {
        TiedOthers(hash, rules, home, before, a);
      }
    }
    forall i: nat | i < 3 && NameOf(hash, home, i) in s.store.children ensures HasFinalizer(s.store) {
      assert !Right(hash, s.store.children, home, true, i);
    }
  }
}
