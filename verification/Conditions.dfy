// The condition list every Catalog Item carries in its status, and the three
// setters that update it.
module Conditions {
  import opened Kube

  const READY := "Ready"
  const RECONCILING := "Reconciling"
  const FAILED := "Failed"
  const REASON_ERROR := "ReconcileError"

  datatype Condition = Condition(kind: string, isTrue: bool, generation: nat, reason: string, message: string)

  /** The first condition of a kind (meta.FindStatusCondition). */
  function Find(list: seq<Condition>, kind: string): Option<Condition> {
    if list == [] then None
    else if list[0].kind == kind then Some(list[0])
    else Find(list[1..], kind)
  }

  /** Overwrites the first condition of the same kind, or appends (meta.SetStatusCondition). */
  function Set(list: seq<Condition>, c: Condition): seq<Condition> {
    if list == [] then [c]
    else if list[0].kind == c.kind then [c] + list[1..]
    else [list[0]] + Set(list[1..], c)
  }

  /** Drops every condition of a kind (meta.RemoveStatusCondition). */
  function Remove(list: seq<Condition>, kind: string): seq<Condition> {
    if list == [] then []
    else if list[0].kind == kind then Remove(list[1..], kind)
    else [list[0]] + Remove(list[1..], kind)
  }

  predicate UniqueKinds(list: seq<Condition>) {
    forall i, j | 0 <= i < j < |list| :: list[i].kind != list[j].kind
  }

  predicate Has(list: seq<Condition>, kind: string) {
    Find(list, kind).Some?
  }

  /** Ready=True is recorded for this very generation (statusConditionsReady). */
  predicate ReadyFor(list: seq<Condition>, generation: nat) {
    TrueFor(list, "Ready", generation)
  }

  predicate TrueFor(list: seq<Condition>, kind: string, generation: nat) {
    var c := Find(list, kind);
    c.Some? && c.value.isTrue && c.value.generation == generation
  }

  predicate IsReady(list: seq<Condition>) {
    var c := Find(list, "Ready");
    c.Some? && c.value.isTrue
  }

  lemma {:induction false} FindSet(list: seq<Condition>, c: Condition, kind: string)
    ensures Find(Set(list, c), kind) == if kind == c.kind then Some(c) else Find(list, kind)
  {
    if list != [] && list[0].kind != c.kind {
      FindSet(list[1..], c, kind);
    }
  }

  lemma {:induction false} FindRemove(list: seq<Condition>, gone: string, kind: string)
    ensures Find(Remove(list, gone), kind) == if kind == gone then None else Find(list, kind)
  {
    if list != [] {
      FindRemove(list[1..], gone, kind);
    }
  }

  lemma {:induction false} FindMember(list: seq<Condition>, i: nat)
    requires i < |list|
    ensures Has(list, list[i].kind)
  {
    if list[0].kind != list[i].kind {
      FindMember(list[1..], i - 1);
    }
  }

  lemma {:induction false} FoundIsMember(list: seq<Condition>, kind: string)
    requires Has(list, kind)
    ensures exists i | 0 <= i < |list| :: list[i] == Find(list, kind).value && list[i].kind == kind
  {
    if list[0].kind == kind {
    } else {
      FoundIsMember(list[1..], kind);
      var i :| 0 <= i < |list[1..]| && list[1..][i] == Find(list[1..], kind).value && list[1..][i].kind == kind;
      assert list[i + 1] == list[1..][i];
    }
  }

  lemma {:induction false} SetKeepsUnique(list: seq<Condition>, c: Condition)
    requires UniqueKinds(list)
    ensures UniqueKinds(Set(list, c))
  {
    if list != [] && list[0].kind != c.kind {
      var rest := Set(list[1..], c);
      SetKeepsUnique(list[1..], c);
      forall j | 0 <= j < |rest| ensures rest[j].kind != list[0].kind {
        FindMember(rest, j);
        FindSet(list[1..], c, rest[j].kind);
        if rest[j].kind != c.kind {
          FoundIsMember(list[1..], rest[j].kind);
        }
      }
    }
  }

  lemma {:induction false} RemoveKeepsUnique(list: seq<Condition>, kind: string)
    requires UniqueKinds(list)
    ensures UniqueKinds(Remove(list, kind))
  {
    if list != [] {
      var rest := Remove(list[1..], kind);
      RemoveKeepsUnique(list[1..], kind);
      forall j | 0 <= j < |rest| ensures rest[j].kind != list[0].kind {
        FindMember(rest, j);
        FindRemove(list[1..], kind, rest[j].kind);
        FoundIsMember(list[1..], rest[j].kind);
      }
    }
  }

  /** One call of a setter. */
  datatype Call =
    | SetReady(generation: nat, reason: string, message: string)
    | SetReconciling(generation: nat, message: string)
    | SetFailed(generation: nat, message: string)

  function MarkOf(call: Call): Mark {
    match call
    case SetReady(g, _, _) => Ready(g)
    case SetReconciling(g, _) => Reconciling(g)
    case SetFailed(g, _) => Failed(g)
  }

  /** What the documentation of the setters promises of the list they leave. */
  ghost predicate Records(before: seq<Condition>, call: Call, after: seq<Condition>) {
    && (match call
        case SetReady(g, reason, message) =>
          Find(after, "Ready") == Some(Condition("Ready", true, g, reason, message)) && !Has(after, "Failed") && !Has(after, "Reconciling")
        case SetReconciling(g, message) =>
          && Find(after, "Ready") == Some(Condition("Ready", false, g, "Reconciling", message))
          && Find(after, "Reconciling") == Some(Condition("Reconciling", true, g, "Reconciling", message))
          && Find(after, "Failed") == Find(before, "Failed")
        case SetFailed(g, message) =>
          && Find(after, "Ready") == Some(Condition("Ready", false, g, "ReconcileError", message))
          && Find(after, "Failed") == Some(Condition("Failed", true, g, "ReconcileError", message))
          && Find(after, "Reconciling") == Find(before, "Reconciling"))
    && (forall kind | kind !in {"Ready", "Failed", "Reconciling"} :: Find(after, kind) == Find(before, kind))
    && (UniqueKinds(before) ==> UniqueKinds(after))
  }

  lemma SetTwice(before: seq<Condition>, c: Condition, d: Condition)
    requires c.kind != d.kind
    ensures var after := Set(Set(before, c), d);
      && (UniqueKinds(before) ==> UniqueKinds(after))
      && Find(after, c.kind) == Some(c) && Find(after, d.kind) == Some(d)
      && forall kind :: Find(after, kind) ==
           if kind == d.kind then Some(d) else if kind == c.kind then Some(c) else Find(before, kind)
  {
    var mid := Set(before, c);
    var after := Set(mid, d);
    forall kind ensures Find(after, kind) ==
        if kind == d.kind then Some(d) else if kind == c.kind then Some(c) else Find(before, kind) {
      FindSet(before, c, kind);
      FindSet(mid, d, kind);
    }
    if UniqueKinds(before) {
      SetKeepsUnique(before, c);
      SetKeepsUnique(mid, d);
    }
  }

  lemma SetAndClear(before: seq<Condition>, c: Condition)
    requires c.kind == READY
    ensures var after := Remove(Remove(Set(before, c), FAILED), RECONCILING);
      && (UniqueKinds(before) ==> UniqueKinds(after))
      && Find(after, READY) == Some(c) && !Has(after, FAILED) && !Has(after, RECONCILING)
      && forall kind :: Find(after, kind) ==
           if kind == READY then Some(c) else if kind in {FAILED, RECONCILING} then None else Find(before, kind)
  {
    var set1 := Set(before, c);
    var set2 := Remove(set1, FAILED);
    forall kind ensures Find(Remove(set2, RECONCILING), kind) ==
        if kind == READY then Some(c) else if kind in {FAILED, RECONCILING} then None else Find(before, kind) {
      FindSet(before, c, kind);
      FindRemove(set1, FAILED, kind);
      FindRemove(set2, RECONCILING, kind);
    }
    if UniqueKinds(before) {
      SetKeepsUnique(before, c);
      RemoveKeepsUnique(set1, FAILED);
      RemoveKeepsUnique(set2, RECONCILING);
    }
  }

  /** The lists a sequence of calls can leave behind, starting from an empty one. */
  ghost predicate Leaves(calls: seq<Call>, list: seq<Condition>) {
    if calls == [] then list == []
    else
      var last := |calls| - 1;
      exists before :: Leaves(calls[..last], before) && Records(before, calls[last], list)
  }

  /** Over any calls, kinds stay unique, Ready=True excludes the other two
      kinds, and readiness is decided by the last call alone. */
  lemma {:induction false} LastCallDecides(calls: seq<Call>, list: seq<Condition>)
    requires Leaves(calls, list)
    ensures UniqueKinds(list)
    ensures IsReady(list) ==> !Has(list, "Failed") && !Has(list, "Reconciling")
    ensures IsReady(list) <==> calls != [] && calls[|calls| - 1].SetReady?
    ensures forall g: nat :: ReadyFor(list, g) <==> calls != [] && calls[|calls| - 1].SetReady? && calls[|calls| - 1].generation == g
    ensures forall g: nat :: ReadyFor(list, g) <==> LastMark(calls) == Ready(g)
    ensures LastMark(calls).Failed? ==> TrueFor(list, "Failed", LastMark(calls).generation)
    ensures LastMark(calls).Reconciling? ==> TrueFor(list, "Reconciling", LastMark(calls).generation)
  {
    if calls != [] {
      var last := |calls| - 1;
      var before :| Leaves(calls[..last], before) && Records(before, calls[last], list);
      LastCallDecides(calls[..last], before);
    }
  }

  function LastMark(calls: seq<Call>): Mark {
    if calls == [] then Unmarked else MarkOf(calls[|calls| - 1])
  }

  /** Every sequence of calls leaves some list. */
  lemma {:induction false} EveryRunLeavesAList(calls: seq<Call>) returns (list: seq<Condition>)
    ensures Leaves(calls, list)
  {
    list := [];
    if calls != [] {
      var last := |calls| - 1;
      var before := EveryRunLeavesAList(calls[..last]);
      match calls[last] {
        case SetReady(g, reason, message) =>
          SetAndClear(before, Condition(READY, true, g, reason, message));
          list := Remove(Remove(Set(before, Condition(READY, true, g, reason, message)), FAILED), RECONCILING);
        case SetReconciling(g, message) =>
          var c, d := Condition(RECONCILING, true, g, RECONCILING, message), Condition(READY, false, g, RECONCILING, message);
          SetTwice(before, c, d);
          list := Set(Set(before, c), d);
        case SetFailed(g, message) =>
          var c, d := Condition(FAILED, true, g, REASON_ERROR, message), Condition(READY, false, g, REASON_ERROR, message);
          SetTwice(before, c, d);
          list := Set(Set(before, c), d);
      }
      assert Records(before, calls[last], list);
    }
  }

  /** Failed and Reconciling entries do coexist: neither setter clears the other's. */
  lemma FailedAndReconcilingCoexist(g: nat, h: nat) returns (list: seq<Condition>)
    ensures Leaves([SetReconciling(g, "waiting"), SetFailed(h, "lost")], list)
    ensures Has(list, "Failed") && Has(list, "Reconciling") && !IsReady(list)
  {
    var calls := [SetReconciling(g, "waiting"), SetFailed(h, "lost")];
    list := EveryRunLeavesAList(calls);
    assert calls[..1] == [calls[0]];
    var before :| Leaves(calls[..1], before) && Records(before, calls[1], list);
    var first :| Leaves(calls[..1][..0], first) && Records(first, calls[..1][0], before);
  }

  /** A status condition list, updated in place by the reconcilers. */
  class Status {
    var list: seq<Condition>

    method SetReady(generation: nat, reason: string, message: string)
      modifies this
      ensures Records(old(list), Call.SetReady(generation, reason, message), list)
    {
      SetAndClear(list, Condition(READY, true, generation, reason, message));
      list := Set(list, Condition(READY, true, generation, reason, message));
      list := Remove(list, FAILED);
      list := Remove(list, RECONCILING);
    }

    method SetReconciling(generation: nat, message: string)
      modifies this
      ensures Records(old(list), Call.SetReconciling(generation, message), list)
    {
      SetTwice(list, Condition(RECONCILING, true, generation, RECONCILING, message),
               Condition(READY, false, generation, RECONCILING, message));
      list := Set(list, Condition(RECONCILING, true, generation, RECONCILING, message));
      list := Set(list, Condition(READY, false, generation, RECONCILING, message));
    }

    method SetFailed(generation: nat, message: string)
      modifies this
      ensures Records(old(list), Call.SetFailed(generation, message), list)
    {
      SetTwice(list, Condition(FAILED, true, generation, REASON_ERROR, message),
               Condition(READY, false, generation, REASON_ERROR, message));
      list := Set(list, Condition(FAILED, true, generation, REASON_ERROR, message));
      list := Set(list, Condition(READY, false, generation, REASON_ERROR, message));
    }
  }
}
