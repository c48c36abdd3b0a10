// What the reconcilers share: object keys, the platform finalizer, and the
// three outcomes a remote call can have.
module Kube {
  datatype Option<+T> = None | Some(value: T)

  /** Namespaced name of an API object. */
  datatype Key = Key(namespace: string, name: string)

  /** A remote call takes effect and answers, never arrives, or takes effect
      while the answer is lost (time-out, dropped connection, crashed caller). */
  datatype Fault = Fine | Lost | ReplyLost

  /** What happens around one remote call: actions of others before it, its
      outcome, and whatever choice the server leaves open. */
  datatype Tick<A, P> = Tick(others: seq<A>, fault: Fault, pick: P)

  /** Nobody interferes, but calls may fail. */
  ghost predicate Calm<A, P>(schedule: seq<Tick<A, P>>) {
    forall t | t in schedule :: t.others == []
  }

  /** Nobody interferes and no call fails. */
  ghost predicate Quiet<A, P>(schedule: seq<Tick<A, P>>) {
    forall t | t in schedule :: t.others == [] && t.fault.Fine?
  }

  /** What a reconcile returns: nothing more to do, try again later, or an error. */
  datatype Result = Finished | RequeueAfter(seconds: nat) | Errored

  const FINALIZER: string := "platform.inari.io/finalizer"

  /** The last of SetReady, SetReconciling and SetFailed applied to an object's
      conditions, with the generation it stamped. Module Conditions proves that
      this is all the Ready condition depends on. */
  datatype Mark = Unmarked | Ready(generation: nat) | Reconciling(generation: nat) | Failed(generation: nat)
}
