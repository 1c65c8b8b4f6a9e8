/** Any number of consumer processes over the partitions of one topic (kafka-consumer.ts): failed
    commits, crashes, rebalances, and members that go on with a partition they no longer own. */
module ConsumerGroup {
  import opened KafkaConsumer

  /** A member's place in a partition: about to handle a message, or waiting for the commit of one
      it is done with. */
  datatype Place = Ready(at: nat) | Committing(at: nat)

  /** A stretch of time for which a member was given the partition. What it began in one can end after
      the partition was taken away, or taken away and given back. */
  datatype Tenure = Tenure(p: nat, number: nat)

  /** One process: its places, and what its runner remembers per partition. */
  datatype Member = Member(places: map<Tenure, Place>, trackers: map<nat, Tracker>)

  /** `resolved` and `parked` are the messages whose handler resolved, and those acknowledged on the
      dead-letter topic. */
  datatype Group = Group(
    committed: map<nat, nat>,
    members: map<nat, Member>,
    resolved: set<(nat, nat)>,
    parked: set<(nat, nat)>)

  datatype Step =
    | Join(m: nat)
    /** A rebalance hands the partition to the member, which starts at the committed offset. Its earlier
        places there stay, for what is still in flight, until they are revoked. */
    | Assign(m: nat, t: Tenure)
    | Revoke(m: nat, t: Tenure)
    /** One call of the handler, with the verdict of the runner on it. A message that was not moved
        past comes again: a thrown eachMessage brings the same message. */
    | Handle(m: nat, t: Tenure, delivery: Delivery)
    /** The commit is over: it took effect, or it failed and the error was swallowed. */
    | CommitEnds(m: nat, t: Tenure, took: bool)
    | Crash(m: nat)

  function TrackerIn(member: Member, p: nat): Tracker {
    if p in member.trackers then member.trackers[p] else FRESH
  }

  /** auto.offset.reset=earliest, the registry default: no commit means from the start. */
  function CommittedOf(g: Group, p: nat): nat {
    if p in g.committed then g.committed[p] else 0
  }

  predicate Holds(g: Group, m: nat, t: Tenure) {
    m in g.members && t in g.members[m].places
  }

  /** `ends` are the log-end offsets of the partitions. */
  predicate Enabled(ends: seq<nat>, g: Group, step: Step) {
    match step
    case Join(m) => m !in g.members
    case Assign(m, t) => m in g.members && t.p < |ends| && !Holds(g, m, t)
    case Revoke(m, t) => Holds(g, m, t)
    case Handle(m, t, delivery) =>
      Holds(g, m, t) && g.members[m].places[t].Ready? && t.p < |ends| && g.members[m].places[t].at < ends[t.p]
    case CommitEnds(m, t, took) => Holds(g, m, t) && g.members[m].places[t].Committing?
    case Crash(m) => m in g.members
  }

  function Put(g: Group, m: nat, t: Tenure, place: Place, tracker: Tracker): Group
    requires m in g.members
  {
    g.(members := g.members[m := Member(g.members[m].places[t := place], g.members[m].trackers[t.p := tracker])])
  }

  function Next(c: Config, ends: seq<nat>, g: Group, step: Step): Group
    requires Enabled(ends, g, step)
  {
    match step
    case Join(m) => g.(members := g.members[m := Member(map[], map[])])
    case Assign(m, t) => Put(g, m, t, Ready(CommittedOf(g, t.p)), TrackerIn(g.members[m], t.p))
    case Revoke(m, t) =>
      g.(members := g.members[m := g.members[m].(places := g.members[m].places - {t})])
    case Handle(m, t, delivery) =>
      var at := g.members[m].places[t].at;
      var (verdict, tracker) := Judge(c, TrackerIn(g.members[m], t.p), at, delivery);
      var g' := Put(g, m, t, if Moves(verdict) then Committing(at) else Ready(at), tracker);
      if verdict.Done? then g'.(resolved := g.resolved + {(t.p, at)})
      else if verdict.Parked? then g'.(parked := g.parked + {(t.p, at)})
      else g'
    case CommitEnds(m, t, took) =>
      var at := g.members[m].places[t].at;
      var g' := Put(g, m, t, Ready(at + 1), TrackerIn(g.members[m], t.p));
      if took then g'.(committed := g.committed[t.p := at + 1]) else g'
    case Crash(m) => g.(members := g.members - {m})
  }

  ghost predicate Init(g: Group) {
    g.committed == map[] && g.members == map[] && g.resolved == {} == g.parked
  }

  /** Every message of the partition below `offset` was resolved or parked. */
  ghost predicate SettledBelow(g: Group, p: nat, offset: nat) {
    forall o: nat :: o < offset ==> (p, o) in g.resolved || (p, o) in g.parked
  }

  /** How far the member has come. */
  function Reached(place: Place): nat {
    match place
    case Ready(at) => at
    case Committing(at) => at + 1
  }

  ghost predicate Inv(g: Group) {
    && (forall p :: p in g.committed ==> SettledBelow(g, p, g.committed[p]))
    && (forall m, t :: Holds(g, m, t) ==> SettledBelow(g, t.p, Reached(g.members[m].places[t])))
  }

  lemma StepKeeps(c: Config, ends: seq<nat>, g: Group, step: Step)
    requires Inv(g) && Enabled(ends, g, step)
    ensures Inv(Next(c, ends, g, step))
    ensures g.resolved <= Next(c, ends, g, step).resolved && g.parked <= Next(c, ends, g, step).parked
  {
    var g' := Next(c, ends, g, step);
    assert g.resolved <= g'.resolved && g.parked <= g'.parked;
    forall p, o | SettledBelow(g, p, o) ensures SettledBelow(g', p, o) {
    }
    forall m, t | Holds(g', m, t) ensures SettledBelow(g', t.p, Reached(g'.members[m].places[t])) {
      if Holds(g, m, t) {
        assert SettledBelow(g, t.p, Reached(g.members[m].places[t]));
      }
    }
    forall p | p in g'.committed ensures SettledBelow(g', p, g'.committed[p]) {
      if step.CommitEnds? && step.t.p == p {
        assert Holds(g, step.m, step.t);
      }
    }
  }

  /** A message whose handler resolves, or that is parked, is moved past, and a commit that takes effect says so;
      any other stays where it is, and nothing is committed for it. */
  lemma MovesOn(c: Config, ends: seq<nat>, g: Group, m: nat, t: Tenure, d: Delivery, took: bool)
    requires Enabled(ends, g, Step.Handle(m, t, d))
    ensures var at, handled := g.members[m].places[t].at, Next(c, ends, g, Step.Handle(m, t, d));
      && handled.committed == g.committed
      && (Enabled(ends, handled, CommitEnds(m, t, took)) <==> handled.members[m].places[t] == Committing(at))
      && (d.end.Resolved? ==> handled.members[m].places[t] == Committing(at) && (t.p, at) in handled.resolved)
      && (d.end.Backpressure? ==> handled.members[m].places[t] == Ready(at))
      && (d.end.Permanent? ==>
            (handled.members[m].places[t] == Committing(at) <==> c.canPark && d.sendOk)
            && (c.canPark && d.sendOk ==> (t.p, at) in handled.parked))
      && (Enabled(ends, handled, CommitEnds(m, t, took)) ==>
            var moved := Next(c, ends, handled, CommitEnds(m, t, took));
            && moved.members[m].places[t] == Ready(at + 1)
            && (took ==> CommittedOf(moved, t.p) == at + 1)
            && (!took ==> moved.committed == g.committed))
  {
  }

  /** `ends[i]` are the log-end offsets when the i-th step is taken: the topic may grow meanwhile. */
  ghost predicate Run(c: Config, ends: seq<seq<nat>>, states: seq<Group>, steps: seq<Step>) {
    && |ends| == |steps| && |states| == |steps| + 1 && Init(states[0])
    && forall i :: 0 <= i < |steps| ==>
      Enabled(ends[i], states[i], steps[i]) && states[i + 1] == Next(c, ends[i], states[i], steps[i])
  }

  /** At least once: at every point of every run, each message below a partition's committed offset
      was resolved by the handler or acknowledged on the dead-letter topic. */
  lemma {:induction false} NothingSkipped(c: Config, ends: seq<seq<nat>>, states: seq<Group>, steps: seq<Step>, i: nat)
    requires Run(c, ends, states, steps) && i < |states|
    ensures forall p :: p in states[i].committed ==> SettledBelow(states[i], p, states[i].committed[p])
    ensures Inv(states[i])
  {
    if i > 0 {
      NothingSkipped(c, ends, states, steps, i - 1);
      StepKeeps(c, ends[i - 1], states[i - 1], steps[i - 1]);
    }
  }
}
