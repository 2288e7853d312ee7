/**
 Leader election by a timed lease in one database row.

 Time is the database's clock, in whole seconds, as `now()` in every statement. The election loop
 of each node is a cycle of three moments that others may come between: the lease statement, the
 query for the leader, and the local note of the outcome.
 */
module Election {

  const EXPIRE_SECONDS := 5

  type ServiceId = string

  datatype Lease = NoLease | Lease(owner: ServiceId, lastSeenActive: int)

  /**
   The lease statement. Its assignments run left to right: the second one sees the service_id that
   the first one has just written.
   */
  function Attempt(lease: Lease, me: ServiceId, now: int): Lease {
    match lease
    case NoLease => Lease(me, now)
    case Lease(owner, lastSeenActive) =>
      var newOwner := if lastSeenActive < now - EXPIRE_SECONDS then me else owner;
      var newLastSeen := if newOwner == me then now else lastSeenActive;
      Lease(newOwner, newLastSeen)
  }

  /** `ifnull(max(service_id), '')` */
  function Leader(lease: Lease): ServiceId {
    match lease
    case NoLease => ""
    case Lease(owner, _) => owner
  }

  class ElectionTable {
    var lease: Lease
    var now: int

    constructor ()
      ensures lease == NoLease
    {
      lease, now := NoLease, 0;
    }
  }

  class Backend {
    const serviceId: ServiceId
    const table: ElectionTable
    var leaderState: int
    var healthState: int

    constructor (serviceId: ServiceId, table: ElectionTable)
      ensures this.serviceId == serviceId && this.table == table && leaderState == healthState == 0
    {
      this.serviceId, this.table := serviceId, table;
      leaderState, healthState := 0, 0;
    }

    method AttemptLeadership()
      modifies table`lease
      ensures table.lease == Attempt(old(table.lease), serviceId, table.now)
    {
      match table.lease {
        case NoLease =>
          table.lease := Lease(serviceId, table.now);
        case Lease(_, _) =>
          if table.lease.lastSeenActive < table.now - EXPIRE_SECONDS {
            table.lease := table.lease.(owner := serviceId);
          }
          if table.lease.owner == serviceId {
            table.lease := table.lease.(lastSeenActive := table.now);
          }
      }
    }

    /**
     An empty table answers with the empty id, so that no node takes itself for the leader there,
     provided its own id is not empty. A node that reads itself cannot be replaced before its lease
     expires.
     */
    method ReadLeadership() returns (state: int, leader: ServiceId)
      ensures state == 0 || state == 1
      ensures table.lease.NoLease? ==> leader == "" && (state == 1 <==> serviceId == "")
      ensures table.lease.Lease? ==> leader == table.lease.owner && (state == 1 <==> table.lease.owner == serviceId)
      ensures state == 1 && serviceId != "" ==> table.lease.Lease?
      ensures state == 1 && serviceId != "" ==>
        forall other, later :: later <= table.lease.lastSeenActive + EXPIRE_SECONDS ==>
          Leader(Attempt(table.lease, other, later)) == serviceId
    {
      leader := Leader(table.lease);
      state := if leader == serviceId then 1 else 0;
    }

    /** One round of the election loop; either statement may fail. */
    method ElectionRound(attemptFails: bool, readFails: bool)
      modifies table`lease, this`leaderState, this`healthState
      ensures table.lease == if attemptFails then old(table.lease) else Attempt(old(table.lease), serviceId, table.now)
      ensures healthState == if readFails then 0 else 1
      ensures leaderState == if readFails then old(leaderState)
                             else if Leader(table.lease) == serviceId then 1 else 0
    {
      if !attemptFails {
        AttemptLeadership();
      }
      if !readFails {
        var newLeaderState, _ := ReadLeadership();
        healthState := 1;
        if newLeaderState != leaderState {
          leaderState := newLeaderState;
        }
      } else {
        healthState := 0;
      }
    }
  }

  // ---------- all nodes together ----------

  datatype Phase = Waiting | Attempted | Read(isMe: bool)

  /** `lastAttempt` is when the node's latest lease statement ran. */
  datatype Node = Node(phase: Phase, leads: bool, lastAttempt: int)

  /** `used` holds every service id ever taken; an id contains its start time and is not reused. */
  datatype System = System(now: int, lease: Lease, nodes: map<ServiceId, Node>, used: set<ServiceId>)

  datatype Step =
    | Tick(seconds: nat)
    | Join(id: ServiceId)
    | Leave(id: ServiceId)
    | AttemptRuns(id: ServiceId)
    | AttemptFails(id: ServiceId)
    | ReadRuns(id: ServiceId)
    | ReadFails(id: ServiceId)
    | Note(id: ServiceId)

  predicate Enabled(s: System, step: Step) {
    match step
    case Tick(_) => true
    case Join(id) => id !in s.used && id != ""
    case Leave(id) => id in s.nodes
    case AttemptRuns(id) => id in s.nodes && s.nodes[id].phase.Waiting?
    case AttemptFails(id) => id in s.nodes && s.nodes[id].phase.Waiting?
    case ReadRuns(id) => id in s.nodes && s.nodes[id].phase.Attempted?
    case ReadFails(id) => id in s.nodes && s.nodes[id].phase.Attempted?
    case Note(id) => id in s.nodes && s.nodes[id].phase.Read?
  }

  function Next(s: System, step: Step): System
    requires Enabled(s, step)
  {
    match step
    case Tick(seconds) => s.(now := s.now + seconds)
    case Join(id) => s.(nodes := s.nodes[id := Node(Waiting, false, s.now)], used := s.used + {id})
    case Leave(id) => s.(nodes := s.nodes - {id})
    case AttemptRuns(id) =>
      s.(lease := Attempt(s.lease, id, s.now),
         nodes := s.nodes[id := s.nodes[id].(phase := Attempted, lastAttempt := s.now)])
    case AttemptFails(id) => s.(nodes := s.nodes[id := s.nodes[id].(phase := Attempted)])
    case ReadRuns(id) => s.(nodes := s.nodes[id := s.nodes[id].(phase := Read(Leader(s.lease) == id))])
    case ReadFails(id) => s.(nodes := s.nodes[id := s.nodes[id].(phase := Waiting)])
    case Note(id) =>
      s.(nodes := s.nodes[id := s.nodes[id].(phase := Waiting, leads := s.nodes[id].phase.isMe)])
  }

  predicate Init(s: System) {
    s.lease == NoLease && s.nodes == map[] && s.used == {}
  }

  /** Every node that believes it leads has run its lease statement within the last 5 seconds. */
  predicate Renewing(s: System) {
    forall id :: id in s.nodes && s.nodes[id].leads ==> Recent(s, id)
  }

  predicate Recent(s: System, id: ServiceId)
    requires id in s.nodes
  {
    s.now <= s.nodes[id].lastAttempt + EXPIRE_SECONDS
  }

  predicate AtMostOneLeader(s: System) {
    forall a, b :: a in s.nodes && b in s.nodes && s.nodes[a].leads && s.nodes[b].leads ==> a == b
  }

  /** The lease records its owner's latest attempt, and only the owner leads or is about to. */
  predicate Inv(s: System) {
    && s.nodes.Keys <= s.used && "" !in s.used
    && (s.lease.Lease? ==> s.lease.owner in s.used && s.lease.lastSeenActive <= s.now)
    && (s.lease.Lease? && s.lease.owner in s.nodes ==>
          s.lease.lastSeenActive == s.nodes[s.lease.owner].lastAttempt)
    && (forall id :: id in s.nodes ==> s.nodes[id].lastAttempt <= s.now)
    && (forall id :: id in s.nodes && s.nodes[id].leads ==> Leader(s.lease) == id)
    && (forall id :: id in s.nodes && s.nodes[id].phase == Read(true) && Recent(s, id) ==> Leader(s.lease) == id)
  }

  lemma StepKeepsInv(s: System, step: Step)
    requires Inv(s) && Renewing(s) && Enabled(s, step) && Renewing(Next(s, step))
    ensures Inv(Next(s, step))
  {
    var t := Next(s, step);
    if step.AttemptRuns? {
      if s.lease.Lease? && s.lease.owner in s.nodes && s.nodes[s.lease.owner].leads {
        assert t.lease.owner == s.lease.owner;
      }
      assert forall x :: x in t.nodes && x != step.id ==> t.nodes[x] == s.nodes[x];
    } else if step.Note? {
      assert t.nodes[step.id].leads ==> t.now <= t.nodes[step.id].lastAttempt + EXPIRE_SECONDS;
    }
  }

  predicate IsRun(run: seq<System>, steps: seq<Step>) {
    && |run| == |steps| + 1
    && Init(run[0])
    && forall i :: 0 <= i < |steps| ==> Enabled(run[i], steps[i]) && run[i + 1] == Next(run[i], steps[i])
  }

  /** On every run in which believed leaders keep renewing, there is never a second leader. */
  lemma {:induction false} LeaderExclusion(run: seq<System>, steps: seq<Step>, n: nat)
    requires IsRun(run, steps) && n < |run|
    requires forall i :: 0 <= i < |run| ==> Renewing(run[i])
    ensures Inv(run[n]) && AtMostOneLeader(run[n])
  {
    if n > 0 {
      LeaderExclusion(run, steps, n - 1);
      assert Enabled(run[n - 1], steps[n - 1]) && run[n] == run[(n - 1) + 1];
      StepKeepsInv(run[n - 1], steps[n - 1]);
    }
  }

  /** A lease just taken or renewed cannot be taken by anyone else for 5 seconds. */
  lemma LeaseHolds(lease: Lease, me: ServiceId, now: int, other: ServiceId, later: int)
    requires Leader(Attempt(lease, me, now)) == me && other != me
    requires now <= later
    ensures Leader(Attempt(Attempt(lease, me, now), other, later)) == me <==> later <= now + EXPIRE_SECONDS
  {
  }

  /** The statement with its two assignments in the other order. */
  function AttemptReordered(lease: Lease, me: ServiceId, now: int): Lease {
    match lease
    case NoLease => Lease(me, now)
    case Lease(owner, lastSeenActive) =>
      var newLastSeen := if owner == me then now else lastSeenActive;
      var newOwner := if newLastSeen < now - EXPIRE_SECONDS then me else owner;
      Lease(newOwner, newLastSeen)
  }

  /** In the other order the lease does not hold: two nodes take it in the same second. */
  lemma OrderOfAssignmentsMatters()
    ensures var taken := AttemptReordered(Lease("a", 0), "b", 10);
      Leader(taken) == "b" && Leader(AttemptReordered(taken, "c", 10)) == "c"
  {
  }

  /**
   The renewal assumption is needed: as soon as a leader is more than 5 seconds past its latest
   lease statement, any other node can become a second leader in three steps.
   */
  lemma RenewalIsNeeded(s: System, a: ServiceId, b: ServiceId)
    requires Inv(s) && a in s.nodes && b in s.nodes && a != b
    requires s.nodes[a].leads && s.nodes[a].lastAttempt + EXPIRE_SECONDS < s.now
    requires s.nodes[b].phase.Waiting?
    ensures Enabled(s, AttemptRuns(b))
    ensures var s1 := Next(s, AttemptRuns(b));
            && Enabled(s1, ReadRuns(b))
            && var s2 := Next(s1, ReadRuns(b));
            && Enabled(s2, Note(b))
            && !AtMostOneLeader(Next(s2, Note(b)))
  {
    var s1 := Next(s, AttemptRuns(b));
    var s2 := Next(s1, ReadRuns(b));
    var s3 := Next(s2, Note(b));
    assert s3.nodes[a].leads && s3.nodes[b].leads;
  }

  /** Such a leader is reachable: between two rounds, or while its statements fail, it keeps its note. */
  lemma StaleLeaderRun() returns (run: seq<System>, steps: seq<Step>)
    ensures IsRun(run, steps) && |run| == 6 && Inv(run[5])
    ensures "a" in run[5].nodes && run[5].nodes["a"].leads && !Recent(run[5], "a")
  {
    hide Inv, Recent;
    steps := [Join("a"), AttemptRuns("a"), ReadRuns("a"), Note("a"), Tick(6)];
    run := [
      System(0, NoLease, map[], {}),
      System(0, NoLease, map["a" := Node(Waiting, false, 0)], {"a"}),
      System(0, Lease("a", 0), map["a" := Node(Attempted, false, 0)], {"a"}),
      System(0, Lease("a", 0), map["a" := Node(Read(true), false, 0)], {"a"}),
      System(0, Lease("a", 0), map["a" := Node(Waiting, true, 0)], {"a"}),
      System(6, Lease("a", 0), map["a" := Node(Waiting, true, 0)], {"a"})
    ];
    StaleLeader(run[5]);
    forall i | 0 <= i < 5 ensures Enabled(run[i], steps[i]) && run[i + 1] == Next(run[i], steps[i]) {
      match i {
        case 0 => case 1 => case 2 => case 3 => case _ =>
      }
    }
  }

  lemma StaleLeader(s: System)
    requires s == System(6, Lease("a", 0), map["a" := Node(Waiting, true, 0)], {"a"})
    ensures Inv(s) && s.nodes["a"].leads && !Recent(s, "a")
  {
  }
}
