// The DNSRecord reconcile loop as it is written: the check loop over the
// entries, the loops that render them, and the writes, over a store that
// others keep changing between the calls.
module DnsReconciler {
  import opened Kube
  import opened Names
  import opened Dns

  function Marked(st: Store, mark: Mark): Store
    requires st.record.Some?
  {
    var rec := st.record.value;
    PutRecord(st, rec.(status := if mark.Ready? then Status(rec.generation, mark) else rec.status.(mark := mark)))
  }

  /** The endpoint as the record asks; one left by an earlier record is taken over. */
  function WithEndpoint(st: Store, rec: Record): Store {
    if st.endpoint.None? then PutEndpoint(st, NewEndpoint(rec))
    else if Mutated(st.endpoint.value, rec) == st.endpoint.value then st
    else PutEndpoint(st, Mutated(st.endpoint.value, rec))
  }

  predicate Acceptable(st: Store, rec: Record) {
    rec.spec.zoneRef in st.zones && AllInZone(rec.spec.entries, st.zones[rec.spec.zoneRef])
  }

  function PublishResult(st: Store, rec: Record): Result {
    if rec.spec.zoneRef !in st.zones then RequeueAfter(30)
    else Finished
  }

  predicate Judged(st: Store) {
    st.record.Some? && !st.record.value.deleting && FINALIZER in st.record.value.finalizers
  }

  /** What an undisturbed reconcile returns. */
  function RecordResult(st: Store): Result {
    if Judged(st) then PublishResult(st, st.record.value) else Finished
  }

  /** Some entry lies outside the zone: a user error, reported in the status alone. */
  predicate Rejected(st: Store) {
    Judged(st) && !Acceptable(st, st.record.value)
  }

  /** One undisturbed reconcile. */
  function RecordPass(st: Store): Store {
    if st.record.None? then st
    else
      var rec := st.record.value;
      if rec.deleting then
        if FINALIZER in rec.finalizers then PutRecord(st, rec.(finalizers := rec.finalizers - {FINALIZER})) else st
      else if FINALIZER !in rec.finalizers then PutRecord(st, rec.(finalizers := rec.finalizers + {FINALIZER}))
      else if !Acceptable(st, rec) then Marked(st, Failed(rec.generation))
      else Marked(WithEndpoint(st, rec), Ready(rec.generation))
  }

  /** What a pass leaves: an acceptable record is shown and Ready; a record with
      any entry outside its zone, or without a zone, changes no endpoint. */
  lemma PassMeans(st: Store)
    requires st.record.Some? && !st.record.value.deleting && FINALIZER in st.record.value.finalizers
    ensures var rec, st' := st.record.value, RecordPass(st);
      && (Acceptable(st, rec) <==> SaysReady(st'))
      && (SaysReady(st') ==> Shows(st', rec) && st'.record.value.spec == rec.spec)
      && (!Acceptable(st, rec) ==> st'.endpoint == st.endpoint)
      && (st.endpoint.Some? && st'.endpoint.Some? ==>
            st'.endpoint.value.labels - {TENANT} == st.endpoint.value.labels - {TENANT})
  {
  }

  /** In the terms of the specification: if the zone is there and every entry's
      name lies in it, the endpoint says exactly what the entries say, belongs to
      the record and carries the tenant's label; if not, the failure is reported
      and the endpoint stays. Only a missing zone is worth another try. */
  lemma RecordIsShown(st: Store)
    requires st.record.Some? && !st.record.value.deleting && "platform.inari.io/finalizer" in st.record.value.finalizers
    ensures var rec, st' := st.record.value, RecordPass(st);
      var ref := rec.spec.zoneRef;
      && st'.zones == st.zones && st'.record.Some? && st'.record.value.spec == rec.spec
      && RecordResult(st) == (if ref in st.zones then Finished else RequeueAfter(30))
      && (if ref in st.zones && forall i | 0 <= i < |rec.spec.entries| :: NameInZone(rec.spec.entries[i].dnsName, st.zones[ref]) then
            && st'.record.value.status == Status(rec.generation, Ready(rec.generation))
            && st'.endpoint.Some? && st'.endpoint.value.owner == rec.uid
            && AllSay(st'.endpoint.value.entries, rec.spec.entries)
            && "platform.inari.io/tenant" in st'.endpoint.value.labels
            && st'.endpoint.value.labels["platform.inari.io/tenant"] == rec.spec.tenantID
          else st'.record.value.status.mark == Failed(rec.generation) && st'.endpoint == st.endpoint)
  {
    RenderedSays(st.record.value.spec.entries);
  }

  /** A deleted record is let go at once; its endpoint is left to the garbage collector. */
  lemma RecordIsReleased(st: Store)
    requires st.record.Some? && st.record.value.deleting && "platform.inari.io/finalizer" in st.record.value.finalizers
    ensures var rec, st' := st.record.value, RecordPass(st);
      && st'.endpoint == st.endpoint && st'.zones == st.zones && RecordResult(st) == Finished
      && (st'.record.Some? <==> rec.finalizers != {"platform.inari.io/finalizer"})
      && (st'.record.Some? ==> st'.record.value.finalizers == rec.finalizers - {"platform.inari.io/finalizer"})
  {
    var fs := st.record.value.finalizers;
    assert fs - {FINALIZER} == {} <==> fs == {FINALIZER};
  }

  class DNSRecordReconciler {
    var st: State
    var schedule: seq<Tick<Action, ()>>
    ghost var log: seq<Action>

    /** The state is the one the logged run leads to. */
    ghost predicate Valid()
      reads this
    {
      st == Exec(START, log)
    }

    constructor (schedule: seq<Tick<Action, ()>>)
      ensures Valid() && this.schedule == schedule && st == START && log == []
    {
      this.schedule, st, log := schedule, START, [];
    }

    method Act(a: Action)
      requires Valid()
      modifies this`st, this`log
      ensures Valid() && st == Apply(old(st), a) && log == old(log) + [a]
    {
      st := Apply(st, a);
      log := log + [a];
      assert log[..|log| - 1] == old(log);
    }

    method LetOthersAct(others: seq<Action>)
      requires Valid()
      modifies this`st, this`log
      ensures Valid() && old(log) <= log && st.pc == old(st.pc)
      ensures others == [] ==> st == old(st)
    {
      for i := 0 to |others|
        invariant Valid() && old(log) <= log && st.pc == old(st.pc)
        invariant i == 0 ==> st == old(st)
      {
        if !others[i].Step? && !others[i].Crash? {
          Act(others[i]);
        }
      }
    }

    /** One call of the worker. */
    method Make(call: Call) returns (answer: Answer)
      requires Valid() && !st.pc.Idle? && call == CallOf(st.pc)
      modifies this
      ensures Valid() && old(log) <= log && st.pc == Resume(old(st.pc), answer)
      ensures Calm(old(schedule)) ==>
        Calm(schedule) && (!answer.Refused? ==> Perform(old(st.store), call, Fine) == (st.store, answer))
      ensures Quiet(old(schedule)) ==> Quiet(schedule) && Perform(old(st.store), call, Fine) == (st.store, answer)
    {
      var t := Tick([], Fine, ());
      if schedule != [] {
        t := schedule[0];
        schedule := schedule[1..];
      }
      LetOthersAct(t.others);
      answer := Perform(st.store, call, t.fault).1;
      Act(Step(t.fault));
    }

    /** The check loop: the first entry outside the zone, if any. */
    method FindOutside(entries: seq<Entry>, zone: string) returns (outside: Option<Entry>)
      ensures outside.None? <==> AllInZone(entries, zone)
      ensures outside.Some? ==> outside.value in entries && !NameInZone(outside.value.dnsName, zone)
    {
      for i := 0 to |entries|
        invariant AllInZone(entries[..i], zone)
      {
        if !NameInZone(entries[i].dnsName, zone) {
          return Some(entries[i]);
        }
      }
      assert entries[..|entries|] == entries;
      return None;
    }

    method RenderTargets(e: Entry) returns (targets: seq<string>)
      ensures targets == e.targets
    {
      targets := [];
      for i := 0 to |e.targets|
        invariant targets == e.targets[..i]
      {
        targets := targets + [e.targets[i]];
      }
    }

    /** The render loop. */
    method RenderEntries(entries: seq<Entry>) returns (r: seq<map<string, Value>>)
      ensures r == Rendered(entries) && AllSay(r, entries)
    {
      RenderedSays(entries);
      r := [];
      for i := 0 to |entries|
        invariant r == Rendered(entries)[..i]
      {
        var e := entries[i];
        var targets := RenderTargets(e);
        r := r + [map["dnsName" := Text(e.dnsName), "recordType" := Text(e.recordType),
                      "targets" := Texts(targets), "recordTTL" := Number(e.ttl)]];
      }
    }

    method Fail(rec: Record)
      requires Valid() && st.pc == MarkFailed(rec)
      modifies this
      ensures Valid() && old(log) <= log && st.pc.Idle? && (Quiet(old(schedule)) ==> Quiet(schedule))
      ensures Quiet(old(schedule)) && old(st.store.record) == Some(rec) ==> st.store == Marked(old(st.store), Failed(rec.generation))
    {
      var answer := Make(StatusRecord(rec.(status := rec.status.(mark := Failed(rec.generation)))));
    }

    /** CreateOrUpdate of the endpoint, owned by the record afterwards. */
    method ApplyEndpoint(rec: Record, zone: string) returns (ok: bool)
      requires Valid() && st.pc == ReadEndpoint(rec, zone)
      modifies this
      ensures Valid() && old(log) <= log && st.pc == if ok then MarkReady(rec, zone) else MarkFailed(rec)
      ensures Calm(old(schedule)) ==> Calm(schedule) && (ok ==> st.store == WithEndpoint(old(st.store), rec))
      ensures Quiet(old(schedule)) ==> Quiet(schedule) && ok
    {
      var got := Make(GetEndpoint);
      if !got.Missing? && !got.GotEndpoint? {
        return false;
      }
      var was := if got.Missing? then Endpoint(0, rec.uid, map[], []) else got.endpoint;
      var entries := RenderEntries(rec.spec.entries);
      var now := was.(owner := rec.uid, labels := was.labels[TENANT := rec.spec.tenantID], entries := entries);
      var answer;
      if got.Missing? {
        answer := Make(CreateEndpoint(now));
      } else if now == was {
        return true;
      } else {
        answer := Make(UpdateEndpoint(now));
      }
      return answer.Done?;
    }

    /** The endpoint, then the status. */
    method Show(rec: Record, zone: string) returns (res: Result)
      requires Valid() && st.pc == ReadEndpoint(rec, zone)
      modifies this
      ensures Valid() && old(log) <= log && st.pc.Idle?
      ensures Calm(old(schedule)) && old(st.store.record) == Some(rec) && res.Finished? ==>
        st.store == Marked(WithEndpoint(old(st.store), rec), Ready(rec.generation))
      ensures Quiet(old(schedule)) && old(st.store.record) == Some(rec) ==> Quiet(schedule) && res.Finished?
    {
      var ok := ApplyEndpoint(rec, zone);
      if !ok {
        Fail(rec);
        return Errored;
      }
      var answer := Make(StatusRecord(rec.(status := Status(rec.generation, Ready(rec.generation)))));
      return if answer.Refused? then Errored else Finished;
    }

    /** From the zone lookup to the status. */
    method Publish(rec: Record) returns (res: Result)
      requires Valid() && st.pc == ReadZone(rec)
      modifies this
      ensures Valid() && old(log) <= log && st.pc.Idle?
      ensures Calm(old(schedule)) && old(st.store.record) == Some(rec) && res.Finished? && Acceptable(old(st.store), rec) ==>
        st.store == Marked(WithEndpoint(old(st.store), rec), Ready(rec.generation))
      ensures Quiet(old(schedule)) && old(st.store.record) == Some(rec) ==>
        && Quiet(schedule) && res == PublishResult(old(st.store), rec)
        && st.store == (if !Acceptable(old(st.store), rec) then Marked(old(st.store), Failed(rec.generation))
                        else Marked(WithEndpoint(old(st.store), rec), Ready(rec.generation)))
    {
      var got := Make(GetZone(rec.spec.zoneRef));
      if !got.GotZone? {
        Fail(rec);
        return if got.Missing? then RequeueAfter(30) else Errored;
      }
      var outside := FindOutside(rec.spec.entries, got.zone);
      if outside.Some? {
        Fail(rec);
        return Finished;
      }
      res := Show(rec, got.zone);
    }

    /** DNSRecordReconciler.Reconcile. Whatever happens around its calls, the
        endpoint is a copy of what some run read and found inside the zone; and
        with nobody else writing, success means that all its work was done. */
    method Reconcile() returns (res: Result)
      requires Valid() && st.pc.Idle?
      modifies this
      ensures Valid() && old(log) <= log && st.pc.Idle?
      ensures st.store.endpoint.Some? ==> Copied(st, st.store.endpoint.value.entries)
      ensures SaysReady(st.store) ==>
        Shows(st.store, st.store.record.value) && AllSay(st.store.endpoint.value.entries, st.store.record.value.spec.entries)
      ensures Calm(old(schedule)) && res.Finished? ==> Rejected(old(st.store)) || st.store == RecordPass(old(st.store))
      ensures Quiet(old(schedule)) ==>
        Quiet(schedule) && st.store == RecordPass(old(st.store)) && res == RecordResult(old(st.store))
    {
      Act(Step(Fine));
      res := Run();
      RunKeeps(log);
      if SaysReady(st.store) { RenderedSays(st.store.record.value.spec.entries); }
    }

    method Run() returns (res: Result)
      requires Valid() && st.pc.Load?
      modifies this
      ensures Valid() && old(log) <= log && st.pc.Idle?
      ensures Calm(old(schedule)) && res.Finished? ==> Rejected(old(st.store)) || st.store == RecordPass(old(st.store))
      ensures Quiet(old(schedule)) ==>
        Quiet(schedule) && st.store == RecordPass(old(st.store)) && res == RecordResult(old(st.store))
    {
      var got := Make(GetRecord);
      if !got.GotRecord? {
        return if got.Missing? then Finished else Errored;
      }
      var rec := got.record;
      if rec.deleting {
        if FINALIZER !in rec.finalizers {
          return Finished;
        }
        var freed := Make(UpdateRecord(rec.(finalizers := rec.finalizers - {FINALIZER})));
        return if freed.Done? then Finished else Errored;
      }
      if FINALIZER !in rec.finalizers {
        var kept := Make(UpdateRecord(rec.(finalizers := rec.finalizers + {FINALIZER})));
        return if kept.Done? then Finished else Errored;
      }
      res := Publish(rec);
    }
  }
}
