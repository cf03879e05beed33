/** Per-attempt compute admission: the closure state of core/runtime.py between the
    first admission and the final release, with the ledger calls it makes.

    The governor, the inventory and the clock are the environment: each call takes
    what they answer as an argument. */
module Admission {
  import opened Sequences
  import opened Wrappers

  datatype Verdict = Cpu | Gpu | Hybrid | Background | Rejected | Deferred

  datatype Device = CpuDevice | Cuda | NoDevice

  /** Something the ledger handed out and that has to be given back. */
  datatype Handle = Lease(id: nat) | Job(id: nat)

  /** `tag` is the model named in the decision's workload. */
  datatype Decision = Decision(
    verdict: Verdict, device: Device, tag: string, lease: Option<nat>, reservation: Option<nat>)

  datatype AttemptReceipt = AttemptReceipt(tag: string, verdict: Verdict, lease: Option<nat>, reservation: Option<nat>)

  /** The governor's answer to one request; the ledger assigns fresh identifiers. */
  datatype Grant = Grant(verdict: Verdict, device: Device, lease: bool, reservation: bool)

  /** What one re-admission meets: a stop request, a failure of the inventory or
      resource readings, a qualified private profile, a missing estimate. */
  datatype Weather = Weather(stopped: bool, readingFails: bool, profile: bool, estimateKnown: bool, grant: Grant)

  datatype Prepared =
    | Admitted(cpuOnly: bool, profileTag: Option<string>)
    | Refused
    | Crashed

  /** At most one lease and at most one reservation. */
  function Handles(d: Decision): (r: set<Handle>)
    ensures forall h :: h in r <==> if h.Lease? then d.lease == Some(h.id) else d.reservation == Some(h.id)
    ensures forall a, b :: a in r && b in r && a.Lease? == b.Lease? ==> a == b
  {
    (if d.lease.Some? then {Lease(d.lease.value)} else {})
    + (if d.reservation.Some? then {Job(d.reservation.value)} else {})
  }

  /** The handles in the order in which they are given back. */
  function HandleList(d: Decision): (r: seq<Handle>)
    ensures NoRepeats(r) && forall h :: h in r <==> h in Handles(d)
  {
    (if d.lease.Some? then [Lease(d.lease.value)] else [])
    + (if d.reservation.Some? then [Job(d.reservation.value)] else [])
  }

  predicate Refuses(d: Decision) {
    d.verdict == Rejected || d.verdict == Deferred
  }

  // ------------------------------------------------------------ specification

  /** What decides the next admission: the current decision, the model it was last
      made for, the qualified private profile and the next ledger identifier. */
  datatype Account = Account(decision: Decision, admittedTag: string, profile: Option<string>, nextId: nat)

  /** A reading fails while the model of the attempt is not the admitted one. */
  predicate ReadingCrashes(a: Account, tag: string, weather: Weather) {
    !weather.stopped && tag != a.admittedTag && weather.readingFails
  }

  /** `decide_compute`, with identifiers never seen before. */
  function Decided(tag: string, grant: Grant, nextId: nat): Decision {
    Decision(grant.verdict, grant.device, tag, if grant.lease then Some(nextId) else None,
             if grant.reservation then Some(nextId + 1) else None)
  }

  /** The account once the machine has been read again for another model. */
  function Readmitted(a: Account, tag: string, weather: Weather): Account {
    if weather.profile || weather.estimateKnown then
      Account(Decided(tag, weather.grant, a.nextId), tag, if weather.profile then Some(tag) else None, a.nextId + 2)
    else
      a.(decision := Decision(Rejected, NoDevice, tag, None, None), profile := None)
  }

  function AfterPrepare(a: Account, tag: string, weather: Weather): Account {
    if weather.stopped || tag == a.admittedTag || weather.readingFails then a else Readmitted(a, tag, weather)
  }

  /** The answer to an attempt, read off the account that preparing leaves. */
  function PrepareResult(a: Account, tag: string, weather: Weather): Prepared {
    var after := AfterPrepare(a, tag, weather);
    if ReadingCrashes(a, tag, weather) then Crashed
    else if weather.stopped || Refuses(after.decision) then Refused
    else if after.profile.Some? && after.decision.device != Cuda then Refused
    else Admitted(after.profile.None? && after.decision.device == CpuDevice, after.profile)
  }

  /** The decision was made for the admitted model unless it refuses, and a private
      profile is one of that model. */
  predicate Settled(a: Account) {
    && (a.decision.tag == a.admittedTag || Refuses(a.decision))
    && (a.profile.Some? ==> a.profile.value == a.admittedTag)
  }

  /** No attempt borrows the admission of another model. */
  lemma {:induction false} NeverBorrowed(a: Account, tag: string, weather: Weather)
    requires Settled(a)
    ensures Settled(AfterPrepare(a, tag, weather))
    ensures PrepareResult(a, tag, weather).Admitted? ==>
              var after := AfterPrepare(a, tag, weather);
              && after.decision.tag == tag == after.admittedTag
              && !after.decision.verdict.Rejected? && !after.decision.verdict.Deferred?
              && (after.profile.Some? ==> after.profile.value == tag && after.decision.device == Cuda)
  {
  }

  class RequestCompute {
    var decision: Decision
    var admittedTag: string
    var ownedProfile: Option<string>
    var receipts: seq<AttemptReceipt>
    // The ledger as this request uses it: handles acquired and `release` calls made.
    var acquired: seq<Handle>
    var released: seq<Handle>
    var nextId: nat
    /** A reading failed after the old handles were given back and before the
        decision was replaced. */
    ghost var faulted: bool

    function Live(): set<Handle>
      reads this
    {
      set h | h in acquired && h !in released
    }

    ghost predicate Ledger()
      reads this
    {
      && NoRepeats(acquired) && NoRepeats(released)
      && (forall h :: h in acquired ==> h.id < nextId)
      && (forall h :: h in released ==> h in acquired)
    }

    function Current(): Account
      reads this
    {
      Account(decision, admittedTag, ownedProfile, nextId)
    }

    /** The live handles are those of the current decision, and that decision was
        made for the admitted model unless it refuses. */
    ghost predicate Inv()
      reads this
    {
      Ledger() && !faulted && Live() == Handles(decision) && Settled(Current())
    }

    /** After a failed reading: everything was given back, but the decision still
        names the handles it no longer has. */
    ghost predicate FaultedInv()
      reads this
    {
      && Ledger() && faulted
      && Live() == {} && Handles(decision) != {}
      && (forall h :: h in Handles(decision) ==> h in released)
    }

    /** Every acquired handle was given back exactly once. */
    ghost predicate Balanced()
      reads this
    {
      multiset(acquired) == multiset(released)
    }

    /** The first admission, made for the routed model and not refused. */
    constructor (tag: string, grant: Grant, profile: bool)
      requires grant.verdict != Rejected && grant.verdict != Deferred
      ensures Inv() && decision.tag == admittedTag == tag && decision.verdict == grant.verdict
      ensures Current() == Account(Decided(tag, grant, 0), tag, if profile then Some(tag) else None, 2)
      ensures released == [] && receipts == []
      ensures fresh(this)
    {
      admittedTag := tag;
      ownedProfile := if profile then Some(tag) else None;
      receipts, released := [], [];
      acquired := (if grant.lease then [Lease(0)] else []) + (if grant.reservation then [Job(1)] else []);
      decision := Decided(tag, grant, 0);
      nextId := 2;
      faulted := false;
    }

    /** Gives back what the decision holds, as each exit path does. */
    method ReleaseHandles()
      modifies this`released
      ensures released == old(released) + HandleList(decision)
      ensures forall h :: h in released <==> h in old(released) || h in Handles(decision)
    {
      if decision.lease.Some? {
        released := released + [Lease(decision.lease.value)];
      }
      if decision.reservation.Some? {
        released := released + [Job(decision.reservation.value)];
      }
    }

    /** `decide_compute`: a new decision for `tag` with handles never seen before. */
    method Decide(tag: string, grant: Grant)
      requires Ledger() && Live() == {}
      modifies this`decision, this`acquired, this`nextId
      ensures Ledger() && Live() == Handles(decision)
      ensures decision.tag == tag && decision.verdict == grant.verdict && decision.device == grant.device
      ensures decision == Decided(tag, grant, old(nextId)) && nextId == old(nextId) + 2
      ensures old(acquired) <= acquired
    {
      decision := Decided(tag, grant, nextId);
      if grant.lease {
        acquired := acquired + [Lease(nextId)];
      }
      if grant.reservation {
        acquired := acquired + [Job(nextId + 1)];
      }
      nextId := nextId + 2;
    }

    /** The branch for another model: retire the old handles, read the machine
        again and decide afresh. `false` means that no estimate was available. */
    method Readmit(tag: string, weather: Weather) returns (decided: bool)
      requires Inv() && tag != admittedTag && !weather.readingFails
      modifies this
      ensures Inv() && old(released) <= released && old(acquired) <= acquired
      ensures Current() == Readmitted(old(Current()), tag, weather)
      ensures decided <==> weather.profile || weather.estimateKnown
      ensures decided ==>
                && admittedTag == tag
                && decision.verdict == weather.grant.verdict && decision.device == weather.grant.device
      ensures decision.tag == tag && ownedProfile == (if weather.profile then Some(tag) else None)
      ensures !decided ==> admittedTag == old(admittedTag) && decision == Decision(Rejected, NoDevice, tag, None, None)
      ensures receipts == old(receipts) + (if decided then [] else [AttemptReceipt(tag, Rejected, None, None)])
    {
      ReleaseHandles();
      assert Live() == {};
      ownedProfile := if weather.profile then Some(tag) else None;
      decided := weather.profile || weather.estimateKnown;
      if decided {
        Decide(tag, weather.grant);
        admittedTag := tag;
      } else {
        decision := Decision(Rejected, NoDevice, tag, None, None);
        receipts := receipts + [AttemptReceipt(tag, Rejected, None, None)];
      }
    }

    /** The same branch when a reading fails after the old handles were retired. */
    method FailReadmission(tag: string)
      requires Inv() && tag != admittedTag
      modifies this`released, this`faulted
      ensures Handles(decision) == {} ==> Inv()
      ensures Handles(decision) != {} ==> FaultedInv()
      ensures faulted <==> Handles(decision) != {}
      ensures old(released) <= released
    {
      ReleaseHandles();
      assert Live() == {};
      faulted := Handles(decision) != {};
    }

    /** `prepare_model_attempt`: re-admits when the model changes, and lets an
        attempt pass only on a decision made for that very model. */
    method Prepare(tag: string, weather: Weather) returns (r: Prepared)
      requires Inv()
      modifies this
      ensures r == PrepareResult(old(Current()), tag, weather)
      ensures Current() == AfterPrepare(old(Current()), tag, weather)
      ensures if r.Crashed? && Handles(old(decision)) != {} then FaultedInv() else Inv()
      ensures r.Crashed? ==> decision == old(decision)
      ensures weather.stopped ==>
                && r.Refused? && decision == old(decision) && acquired == old(acquired) && released == old(released)
                && receipts == old(receipts)
      ensures !weather.stopped && !r.Crashed? ==>
                receipts == old(receipts) + [AttemptReceipt(tag, decision.verdict, decision.lease, decision.reservation)]
      ensures !weather.stopped && !r.Crashed? && tag != old(admittedTag) ==>
                && decision.tag == tag && ownedProfile == (if weather.profile then Some(tag) else None)
                && (if weather.profile || weather.estimateKnown
                    then decision.verdict == weather.grant.verdict && decision.device == weather.grant.device
                    else decision.verdict == Rejected)
      ensures r.Crashed? <==> tag != old(admittedTag) && weather.readingFails && !weather.stopped
      ensures r.Admitted? ==>
                decision.tag == tag == admittedTag && !decision.verdict.Rejected? && !decision.verdict.Deferred?
      ensures r.Admitted? ==> r.cpuOnly == (decision.device == CpuDevice && r.profileTag.None?)
      ensures r.Admitted? && r.profileTag.Some? ==> r.profileTag.value == tag && decision.device == Cuda
      ensures !r.Crashed? && tag == old(admittedTag) ==> decision == old(decision) && admittedTag == tag
      ensures r.Refused? <==>
                && !r.Crashed?
                && (|| weather.stopped || decision.verdict.Rejected? || decision.verdict.Deferred?
                    || (ownedProfile.Some? && decision.device != Cuda))
      ensures tag == old(admittedTag) && Refuses(old(decision)) ==> r.Refused?
      ensures old(released) <= released && old(acquired) <= acquired
    {
      if weather.stopped {
        return Refused;
      }
      if tag != admittedTag {
        if weather.readingFails {
          FailReadmission(tag);
          return Crashed;
        }
        var decided := Readmit(tag, weather);
        if !decided {
          return Refused;
        }
      }
      receipts := receipts + [AttemptReceipt(tag, decision.verdict, decision.lease, decision.reservation)];
      if Refuses(decision) {
        return Refused;
      }
      if ownedProfile.Some? {
        if decision.device != Cuda {
          return Refused;
        }
        return Admitted(false, ownedProfile);
      }
      return Admitted(decision.device == CpuDevice, None);
    }
  }
}
