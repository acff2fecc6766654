/** While the server runs, connections below the limit are queued and queued connections get served. */
module QueueService {
  import opened Base
  import opened Counting
  import opened ConnectionQueue

  // ---------------------------------------------------------------- paths

  ghost predicate Leads(max: nat, s: State, t: State) {
    exists states: seq<State>, actions: seq<Action> ::
      Run(max, states, actions) && states[0] == s && states[|actions|] == t
  }

  lemma Stays(max: nat, s: State)
    ensures Leads(max, s, s)
  {
    var none: seq<Action> := [];
    assert Run(max, [s], none);
  }

  lemma Onward(max: nat, o: State, s: State, a: Action, t: State)
    requires Leads(max, o, s) && Step(max, s, a, t)
    ensures Leads(max, o, t)
  {
    var states: seq<State>, actions: seq<Action> :|
      Run(max, states, actions) && states[0] == o && states[|actions|] == s;
    var longer, more := states + [t], actions + [a];
    assert Run(max, longer, more) by {
      forall k | 0 <= k < |more|
        ensures Step(max, longer[k], more[k], longer[k + 1])
      {
        if k < |actions| {
          assert longer[k] == states[k] && more[k] == actions[k] && longer[k + 1] == states[k + 1];
        }
      }
    }
    assert longer[|more|] == t;
  }

  lemma WorkerMoves(max: nat, o: State, s: State, a: Action, t: State)
    requires Leads(max, o, s) && Inv(max, s) && WorkerStep(s, a, t)
    ensures Leads(max, o, t) && Inv(max, t)
  {
    Onward(max, o, s, a, t);
    StepKeepsInv(max, s, a, t);
  }

  lemma AcceptorMoves(max: nat, o: State, s: State, a: Action, t: State)
    requires Leads(max, o, s) && Inv(max, s) && AcceptorStep(max, s, a, t)
    ensures Leads(max, o, t) && Inv(max, t)
  {
    Onward(max, o, s, a, t);
    StepKeepsInv(max, s, a, t);
  }

  /** Running, with the queue as it was and nothing taken meanwhile. */
  ghost predicate Waiting(o: State, s: State) {
    s.running && o.queue != [] && s.taken == o.taken && s.queue != [] && s.queue[0] == o.queue[0]
  }

  /** The connection that was first in the queue has been taken by a worker, which serves it. */
  ghost predicate FrontServed(o: State, t: State, i: nat) {
    && o.queue != [] && t.taken == o.taken + [o.queue[0]]
    && i < |t.workers| && t.workers[i] == Serving(o.queue[0])
  }

  // ---------------------------------------------------------------- a worker takes the front

  lemma FromPopping(max: nat, o: State, s: State, i: nat) returns (t: State)
    requires Leads(max, o, s) && Inv(max, s) && Waiting(o, s) && i < |s.workers| && s.workers[i].Popping?
    ensures Leads(max, o, t) && Inv(max, t) && FrontServed(o, t, i)
  {
    t := SetWorker(s, i, Serving(s.queue[0])).(queue := s.queue[1..], taken := s.taken + [s.queue[0]], lock := Free);
    WorkerMoves(max, o, s, Pop(i), t);
  }

  lemma FromReady(max: nat, o: State, s: State, i: nat) returns (t: State)
    requires Leads(max, o, s) && Inv(max, s) && Waiting(o, s) && i < |s.workers| && s.workers[i].Ready?
    ensures Leads(max, o, t) && Inv(max, t) && FrontServed(o, t, i)
  {
    var u := SetWorker(s, i, Popping);
    WorkerMoves(max, o, s, Recheck(i), u);
    t := FromPopping(max, o, u, i);
  }

  lemma FromTesting(max: nat, o: State, s: State, i: nat) returns (t: State)
    requires Leads(max, o, s) && Inv(max, s) && Waiting(o, s) && i < |s.workers| && s.workers[i].Testing?
    ensures Leads(max, o, t) && Inv(max, t) && FrontServed(o, t, i)
  {
    var u := SetWorker(s, i, Ready);
    WorkerMoves(max, o, s, Test(i), u);
    t := FromReady(max, o, u, i);
  }

  lemma FromWants(max: nat, o: State, s: State, i: nat) returns (t: State)
    requires Leads(max, o, s) && Inv(max, s) && Waiting(o, s) && s.lock.Free? && i < |s.workers| && s.workers[i].Wants?
    ensures Leads(max, o, t) && Inv(max, t) && FrontServed(o, t, i)
  {
    var u := SetWorker(s, i, Testing).(lock := ByWorker(i));
    WorkerMoves(max, o, s, WorkerLocks(i), u);
    t := FromTesting(max, o, u, i);
  }

  lemma FromServing(max: nat, o: State, s: State, i: nat) returns (t: State)
    requires Leads(max, o, s) && Inv(max, s) && Waiting(o, s) && s.lock.Free? && i < |s.workers| && s.workers[i].Serving?
    ensures Leads(max, o, t) && Inv(max, t) && FrontServed(o, t, i)
  {
    CounterNeverUnderflows(max, s);
    var u := SetWorker(s, i, Wants).(count := s.count - 1);
    WorkerMoves(max, o, s, Finish(i), u);
    t := FromWants(max, o, u, i);
  }

  lemma FromHolder(max: nat, o: State, s: State) returns (t: State, i: nat)
    requires Leads(max, o, s) && Inv(max, s) && Waiting(o, s) && s.lock.ByWorker?
    ensures Leads(max, o, t) && Inv(max, t) && FrontServed(o, t, i)
  {
    i := s.lock.index;
    match s.workers[i]
    case Testing => t := FromTesting(max, o, s, i);
    case Ready => t := FromReady(max, o, s, i);
    case Popping => t := FromPopping(max, o, s, i);
    case _ => assert false;
  }

  lemma FromAwake(max: nat, o: State, s: State, i: nat) returns (t: State)
    requires Leads(max, o, s) && Inv(max, s) && Waiting(o, s) && s.lock.Free? && i < |s.workers| && Awake(s.workers[i])
    ensures Leads(max, o, t) && Inv(max, t) && FrontServed(o, t, i)
  {
    match s.workers[i]
    case Wants => t := FromWants(max, o, s, i);
    case Serving(_) => t := FromServing(max, o, s, i);
    case _ => assert false;
  }

  /** The acceptor leaves its critical section and delivers its notification. */
  lemma AcceptorSteps(max: nat, o: State, s: State) returns (t: State)
    requires Leads(max, o, s) && Inv(max, s) && Waiting(o, s) && !s.lock.ByWorker?
    ensures Leads(max, o, t) && Inv(max, t) && Waiting(o, t) && t.lock.Free? && !t.acceptor.Notifying?
  {
    t := s;
    if t.acceptor.Inside? {
      var u := t.(acceptor := Pushing(t.acceptor.c));
      AcceptorMoves(max, o, t, AcceptorChecks, u);
      t := u;
    }
    if t.acceptor.Pushing? {
      t := Pushes(max, o, t);
    }
    if t.acceptor.Notifying? {
      t := Notifies(max, o, t);
    }
  }

  lemma Pushes(max: nat, o: State, s: State) returns (t: State)
    requires Leads(max, o, s) && Inv(max, s) && Waiting(o, s) && s.acceptor.Pushing?
    ensures Leads(max, o, t) && Inv(max, t) && Waiting(o, t) && t.lock.Free? && t.acceptor.Notifying?
  {
    var c := s.acceptor.c;
    t := s.(acceptor := Notifying, queue := s.queue + [c], pushed := s.pushed + [c], lock := Free);
    AcceptorMoves(max, o, s, Push, t);
  }

  lemma Notifies(max: nat, o: State, s: State) returns (t: State)
    requires Leads(max, o, s) && Inv(max, s) && Waiting(o, s) && s.acceptor.Notifying? && !s.lock.ByWorker?
    ensures Leads(max, o, t) && Inv(max, t) && Waiting(o, t) && t.lock.Free? && !t.acceptor.Notifying?
  {
    if i :| 0 <= i < |s.workers| && s.workers[i] == Asleep {
      t := SetWorker(s, i, Wants).(acceptor := Top);
      AcceptorMoves(max, o, s, NotifyOne(Some(i)), t);
    } else {
      t := s.(acceptor := Top);
      AcceptorMoves(max, o, s, NotifyOne(None), t);
    }
  }

  /** In every reachable state of a running server the connection at the front of the queue can get served. */
  lemma QueuedIsServed(max: nat, states: seq<State>, actions: seq<Action>, workers: nat) returns (t: State, i: nat)
    requires Run(max, states, actions) && Init(states[0], workers) && workers > 0
    requires states[|actions|].running && states[|actions|].queue != []
    ensures Leads(max, states[|actions|], t) && FrontServed(states[|actions|], t, i)
  {
    RunKeepsInv(max, states, actions, workers, |actions|);
    t, i := FrontCanBeServed(max, states[|actions|]);
  }

  lemma FrontCanBeServed(max: nat, o: State) returns (t: State, i: nat)
    requires Inv(max, o) && o.running && o.queue != []
    ensures Leads(max, o, t) && Inv(max, t) && FrontServed(o, t, i)
  {
    Stays(max, o);
    if o.lock.ByWorker? {
      t, i := FromHolder(max, o, o);
    } else {
      var s := AcceptorSteps(max, o, o);
      i :| 0 <= i < |s.workers| && Awake(s.workers[i]);
      t := FromAwake(max, o, s, i);
    }
  }

  // ---------------------------------------------------------------- a connection is queued

  /** A client that connects to a running server with a free slot is queued behind those already there. */
  lemma NewcomerIsQueued(max: nat, states: seq<State>, actions: seq<Action>, workers: nat, c: Connection)
    returns (t: State)
    requires Run(max, states, actions) && Init(states[0], workers) && workers > 0
    requires var s := states[|actions|];
             s.running && s.acceptor.Accepting? && s.lock.Free? && |s.queue| + BeingServed(s) < max
    ensures var s := states[|actions|];
            Leads(max, s, t) && t.queue == s.queue + [c] && t.pushed == s.pushed + [c] && t.running
  {
    RunKeepsInv(max, states, actions, workers, |actions|);
    t := CanBeQueued(max, states[|actions|], c);
  }

  lemma CanBeQueued(max: nat, s: State, c: Connection) returns (t: State)
    requires Inv(max, s) && s.running && s.acceptor.Accepting? && s.lock.Free? && |s.queue| + BeingServed(s) < max
    ensures Leads(max, s, t) && Inv(max, t)
    ensures t.queue == s.queue + [c] && t.pushed == s.pushed + [c] && t.running && t.taken == s.taken
  {
    Stays(max, s);
    var s1 := s.(acceptor := Got(c));
    AcceptorMoves(max, s, s, AcceptOk(c), s1);
    var s2 := s1.(acceptor := Counted(c, s.count), count := s.count + 1);
    AcceptorMoves(max, s, s1, CountUp, s2);
    t := Admitted(max, s, s2, c);
  }

  lemma Admitted(max: nat, o: State, s: State, c: Connection) returns (t: State)
    requires Leads(max, o, s) && Inv(max, s) && s.running && s.acceptor.Counted? && s.acceptor.c == c
    requires s.acceptor.before < max && s.lock.Free?
    ensures Leads(max, o, t) && Inv(max, t)
    ensures t.queue == s.queue + [c] && t.pushed == s.pushed + [c] && t.running && t.taken == s.taken
  {
    var s1 := s.(acceptor := WantsLock(c));
    AcceptorMoves(max, o, s, Compare, s1);
    var s2 := s1.(acceptor := Inside(c), lock := ByAcceptor);
    AcceptorMoves(max, o, s1, AcceptorLocks, s2);
    var s3 := s2.(acceptor := Pushing(c));
    AcceptorMoves(max, o, s2, AcceptorChecks, s3);
    t := s3.(acceptor := Notifying, queue := s3.queue + [c], pushed := s3.pushed + [c], lock := Free);
    AcceptorMoves(max, o, s3, Push, t);
  }

  /** From the start, for every positive limit and any number of workers: a client connects and is served. */
  lemma FirstClientIsServed(max: nat, workers: nat, o: State, c: Connection) returns (s: State, t: State, i: nat)
    requires Init(o, workers) && workers > 0 && max > 0
    ensures Leads(max, o, s) && s.pushed == s.queue == [c] && Leads(max, s, t)
    ensures i < |t.workers| && t.workers[i] == Serving(c) && t.taken == [c]
  {
    InitEstablishesInv(max, o, workers);
    TotalZero(ServingWeight, o.workers);
    Stays(max, o);
    var u := o.(acceptor := Accepting);
    AcceptorMoves(max, o, o, Loop, u);
    s := QueuedFrom(max, o, u, c);
    t, i := FrontCanBeServed(max, s);
  }

  lemma QueuedFrom(max: nat, o: State, s: State, c: Connection) returns (t: State)
    requires Leads(max, o, s) && Inv(max, s) && s.running && s.acceptor.Accepting? && s.lock.Free?
    requires |s.queue| + BeingServed(s) < max
    ensures Leads(max, o, t) && Inv(max, t)
    ensures t.queue == s.queue + [c] && t.pushed == s.pushed + [c] && t.running && t.taken == s.taken
  {
    t := CanBeQueued(max, s, c);
    Together(max, o, s, t);
  }

  lemma Together(max: nat, o: State, s: State, t: State)
    requires Leads(max, o, s) && Leads(max, s, t)
    ensures Leads(max, o, t)
  {
    var xs: seq<State>, a: seq<Action> :| Run(max, xs, a) && xs[0] == o && xs[|a|] == s;
    var ys: seq<State>, b: seq<Action> :| Run(max, ys, b) && ys[0] == s && ys[|b|] == t;
    var zs, both := xs + ys[1..], a + b;
    assert Run(max, zs, both) by {
      forall k | 0 <= k < |both|
        ensures Step(max, zs[k], both[k], zs[k + 1])
      {
        if k < |a| {
          assert zs[k] == xs[k] && both[k] == a[k] && zs[k + 1] == xs[k + 1];
        } else {
          var j := k - |a|;
          assert zs[k] == ys[j] && both[k] == b[j] && zs[k + 1] == ys[j + 1];
        }
      }
    }
    assert zs[|both|] == t;
  }
}
