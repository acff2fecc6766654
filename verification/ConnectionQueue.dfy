/**
 The bounded connection queue shared by the tracker and the peer server: one acceptor, several workers, a
 condition variable and a stop sequence (src/peer_server.cpp:57-140, src/tracker.cpp:149-234).
 Every atomic access, lock operation and notification is a step of its own.
 */
module ConnectionQueue {
  import opened Base
  import opened Counting

  type Connection = nat

  datatype Holder = Free | ByAcceptor | ByWorker(index: nat) | ByStopper

  datatype Acceptor =
    | Top                                      // about to read running_
    | Accepting                                // in accept
    | Got(c: Connection)                       // accepted, not yet counted
    | Counted(c: Connection, before: nat)      // fetch_add returned `before`
    | Busy(c: Connection)                      // over the limit, about to give the slot back
    | WantsLock(c: Connection)
    | Inside(c: Connection)                    // holds the lock, about to read running_
    | Pushing(c: Connection)                   // holds the lock, will push
    | Notifying                                // pushed and unlocked, about to notify
    | GivingUp(c: Connection)                  // not queued, about to give the slot back
    | Left

  datatype Worker =
    | Wants                                    // needs the lock
    | Testing                                  // holds the lock, about to evaluate the wait predicate
    | Drowsy                                   // holds the lock, found the predicate false
    | Asleep                                   // waiting on the condition variable
    | Ready                                    // holds the lock, found the predicate true
    | Popping                                  // holds the lock, passed the second check
    | Serving(c: Connection)
    | Exited

  datatype Stopper =
    | NotCalled
    | Cleared                                  // running_ exchanged to false
    | AcceptorJoined
    | Emptying                                 // holds the lock
    | Owing(n: nat)                            // queue cleared, about to subtract n
    | Unlocked                                 // about to notify_all
    | Notified
    | Stopped

  /** `pushed`, `taken` and `dropped` record the queue's traffic. */
  datatype State = State(
    running: bool, count: nat, queue: seq<Connection>, lock: Holder,
    acceptor: Acceptor, workers: seq<Worker>, stopper: Stopper,
    pushed: seq<Connection>, taken: seq<Connection>, dropped: seq<Connection>)

  ghost predicate Init(s: State, workers: nat) {
    && s == State(true, 0, [], Free, Top, s.workers, NotCalled, [], [], [])
    && |s.workers| == workers && forall i | 0 <= i < workers :: s.workers[i] == Wants
  }

  // ---------------------------------------------------------------- steps

  datatype Action =
    | Loop | AcceptFails | AcceptOk(c: Connection) | CountUp | Compare | SendBusy | AcceptorLocks | AcceptorChecks
    | Push | NotifyOne(woken: Option<nat>) | GiveUp
    | WorkerLocks(i: nat) | Test(i: nat) | Sleep(i: nat) | SpuriousWake(i: nat) | Recheck(i: nat) | Pop(i: nat)
    | Finish(i: nat)
    | Stop | JoinAcceptor | StopperLocks | Clear | Subtract | NotifyAll | JoinWorkers

  function SetWorker(s: State, i: nat, w: Worker): State
    requires i < |s.workers|
  {
    s.(workers := s.workers[i := w])
  }

  ghost predicate AcceptorStep(max: nat, s: State, a: Action, s': State) {
    match a
    case Loop => s.acceptor.Top? && s' == s.(acceptor := if s.running then Accepting else Left)
    case AcceptFails => (s.acceptor.Accepting? || s.acceptor.Got?) && s' == s.(acceptor := Top)
    case AcceptOk(c) => s.acceptor.Accepting? && s' == s.(acceptor := Got(c))
    case CountUp =>
      s.acceptor.Got? && s' == s.(acceptor := Counted(s.acceptor.c, s.count), count := s.count + 1)
    case Compare =>
      s.acceptor.Counted?
      && s' == s.(acceptor := if s.acceptor.before >= max then Busy(s.acceptor.c) else WantsLock(s.acceptor.c))
    case SendBusy => s.acceptor.Busy? && s.count > 0 && s' == s.(acceptor := Top, count := s.count - 1)
    case AcceptorLocks =>
      s.acceptor.WantsLock? && s.lock.Free? && s' == s.(acceptor := Inside(s.acceptor.c), lock := ByAcceptor)
    case AcceptorChecks =>
      s.acceptor.Inside?
      && s' == if s.running then s.(acceptor := Pushing(s.acceptor.c))
               else s.(acceptor := GivingUp(s.acceptor.c), lock := Free)
    case Push =>
      s.acceptor.Pushing?
      && s' == s.(acceptor := Notifying, queue := s.queue + [s.acceptor.c], pushed := s.pushed + [s.acceptor.c],
                  lock := Free)
    case NotifyOne(None) =>
      && s.acceptor.Notifying? && (forall i | 0 <= i < |s.workers| :: s.workers[i] != Asleep)
      && s' == s.(acceptor := Top)
    case NotifyOne(Some(i)) =>
      && s.acceptor.Notifying? && i < |s.workers| && s.workers[i] == Asleep
      && s' == SetWorker(s, i, Wants).(acceptor := Top)
    case GiveUp => s.acceptor.GivingUp? && s.count > 0 && s' == s.(acceptor := Top, count := s.count - 1)
    case _ => false
  }

  ghost predicate WorkerStep(s: State, a: Action, s': State) {
    match a
    case WorkerLocks(i) =>
      i < |s.workers| && s.workers[i].Wants? && s.lock.Free? && s' == SetWorker(s, i, Testing).(lock := ByWorker(i))
    case Test(i) =>
      i < |s.workers| && s.workers[i].Testing?
      && s' == SetWorker(s, i, if !s.running || s.queue != [] then Ready else Drowsy)
    case Sleep(i) =>
      i < |s.workers| && s.workers[i].Drowsy? && s' == SetWorker(s, i, Asleep).(lock := Free)
    case SpuriousWake(i) =>
      i < |s.workers| && s.workers[i].Asleep? && s' == SetWorker(s, i, Wants)
    case Recheck(i) =>
      i < |s.workers| && s.workers[i].Ready?
      && s' == if !s.running || s.queue == [] then SetWorker(s, i, Exited).(lock := Free)
               else SetWorker(s, i, Popping)
    case Pop(i) =>
      && i < |s.workers| && s.workers[i].Popping? && s.queue != []
      && s' == SetWorker(s, i, Serving(s.queue[0])).(queue := s.queue[1..], taken := s.taken + [s.queue[0]],
                                                     lock := Free)
    case Finish(i) =>
      i < |s.workers| && s.workers[i].Serving? && s.count > 0
      && s' == SetWorker(s, i, Wants).(count := s.count - 1)
    case _ => false
  }

  function Woken(workers: seq<Worker>): (r: seq<Worker>)
    ensures |r| == |workers|
    ensures forall i | 0 <= i < |workers| :: r[i] == if workers[i] == Asleep then Wants else workers[i]
  {
    seq(|workers|, i requires 0 <= i < |workers| => if workers[i] == Asleep then Wants else workers[i])
  }

  ghost predicate StopperStep(s: State, a: Action, s': State) {
    match a
    case Stop => s.stopper.NotCalled? && s.running && s' == s.(stopper := Cleared, running := false)
    case JoinAcceptor => s.stopper.Cleared? && s.acceptor.Left? && s' == s.(stopper := AcceptorJoined)
    case StopperLocks =>
      s.stopper.AcceptorJoined? && s.lock.Free? && s' == s.(stopper := Emptying, lock := ByStopper)
    case Clear =>
      s.stopper.Emptying?
      && s' == s.(stopper := Owing(|s.queue|), queue := [], dropped := s.dropped + s.queue)
    case Subtract =>
      s.stopper.Owing? && s.count >= s.stopper.n
      && s' == s.(stopper := Unlocked, count := s.count - s.stopper.n, lock := Free)
    case NotifyAll => s.stopper.Unlocked? && s' == s.(stopper := Notified, workers := Woken(s.workers))
    case JoinWorkers =>
      && s.stopper.Notified? && (forall i | 0 <= i < |s.workers| :: s.workers[i] == Exited)
      && s' == s.(stopper := Stopped)
    case _ => false
  }

  ghost predicate Step(max: nat, s: State, a: Action, s': State) {
    AcceptorStep(max, s, a, s') || WorkerStep(s, a, s') || StopperStep(s, a, s')
  }

  // ---------------------------------------------------------------- invariants

  predicate WorkerHolds(w: Worker) {
    w.Testing? || w.Drowsy? || w.Ready? || w.Popping?
  }

  /** The lock word names exactly the thread that is inside a critical section. */
  ghost predicate LockInv(s: State) {
    && (s.lock == ByAcceptor <==> s.acceptor.Inside? || s.acceptor.Pushing?)
    && (s.lock == ByStopper <==> s.stopper.Emptying? || s.stopper.Owing?)
    && (forall i: nat | i < |s.workers| :: s.lock == ByWorker(i) <==> WorkerHolds(s.workers[i]))
    && (s.lock.ByWorker? ==> s.lock.index < |s.workers|)
  }

  /** What a thread inside the critical section may rely on. */
  ghost predicate LocalInv(s: State) {
    forall i | 0 <= i < |s.workers| ::
      && (s.workers[i].Drowsy? ==> s.queue == [])
      && (s.workers[i].Ready? ==> !s.running || s.queue != [])
      && (s.workers[i].Popping? ==> s.queue != [])
      && (s.workers[i].Exited? ==> !s.running)
  }

  predicate Joined(p: Stopper) {
    !p.NotCalled? && !p.Cleared?
  }

  predicate Drained(p: Stopper) {
    p.Owing? || p.Unlocked? || p.Notified? || p.Stopped?
  }

  /** How far the stop sequence has got, and what no thread can do any more. */
  ghost predicate StopInv(s: State) {
    && (s.running <==> s.stopper.NotCalled?)
    && (s.acceptor.Left? || s.acceptor.GivingUp? ==> !s.running)
    && (Joined(s.stopper) ==> s.acceptor.Left?)
    && (Drained(s.stopper) ==> s.queue == [])
    && (Drained(s.stopper) ==> forall i | 0 <= i < |s.workers| :: s.workers[i] != Drowsy)
    && (s.stopper.Notified? || s.stopper.Stopped? ==> forall i | 0 <= i < |s.workers| :: s.workers[i] != Asleep)
    && (s.stopper.Stopped? ==> forall i | 0 <= i < |s.workers| :: s.workers[i] == Exited)
  }

  predicate Awake(w: Worker) {
    !w.Asleep? && !w.Exited?
  }

  /** No lost wake-up: with something queued and no notification outstanding, some worker is awake. */
  ghost predicate WakeInv(s: State) {
    s.running && s.queue != [] && !s.acceptor.Notifying? ==> exists i :: 0 <= i < |s.workers| && Awake(s.workers[i])
  }

  ghost predicate ControlInv(s: State) {
    |s.workers| > 0 && LockInv(s) && LocalInv(s) && StopInv(s) && WakeInv(s)
  }

  lemma AcceptorKeepsControl(max: nat, s: State, a: Action, s': State)
    requires ControlInv(s) && AcceptorStep(max, s, a, s')
    ensures ControlInv(s')
  {
    match a
    case NotifyOne(woken) =>
      if woken.Some? {
        assert Awake(s'.workers[woken.value]);
      } else if s.running {
        assert Awake(s'.workers[0]);
      }
    case _ =>
  }

  lemma WorkerKeepsLock(s: State, a: Action, s': State)
    requires LockInv(s) && WorkerStep(s, a, s')
    ensures LockInv(s')
  {
  }

  lemma WorkerKeepsLocal(s: State, a: Action, s': State)
    requires LockInv(s) && LocalInv(s) && WorkerStep(s, a, s')
    ensures LocalInv(s')
  {
  }

  lemma WorkerKeepsStop(s: State, a: Action, s': State)
    requires LockInv(s) && LocalInv(s) && StopInv(s) && WorkerStep(s, a, s')
    ensures StopInv(s')
  {
  }

  lemma WorkerKeepsWake(s: State, a: Action, s': State)
    requires LocalInv(s) && WakeInv(s) && WorkerStep(s, a, s')
    ensures WakeInv(s')
  {
    // the stepping worker itself is awake, unless it just found the queue empty or the server stopped
    assert s'.running && s'.queue != [] ==> Awake(s'.workers[a.i]);
  }

  lemma WorkerKeepsControl(s: State, a: Action, s': State)
    requires ControlInv(s) && WorkerStep(s, a, s')
    ensures ControlInv(s')
  {
    WorkerKeepsLock(s, a, s');
    WorkerKeepsLocal(s, a, s');
    WorkerKeepsStop(s, a, s');
    WorkerKeepsWake(s, a, s');
  }

  lemma StopperKeepsControl(s: State, a: Action, s': State)
    requires ControlInv(s) && StopperStep(s, a, s')
    ensures ControlInv(s')
  {
  }

  // ---------------------------------------------------------------- accounting

  function ServingWeight(w: Worker): nat {
    if w.Serving? then 1 else 0
  }

  function BeingServed(s: State): nat {
    Total(ServingWeight, s.workers)
  }

  function AcceptorSlot(a: Acceptor): nat {
    if a.Top? || a.Accepting? || a.Got? || a.Notifying? || a.Left? then 0 else 1
  }

  function StopperSlots(p: Stopper): nat {
    if p.Owing? then p.n else 0
  }

  /** The counter is exactly the slots in use, so it can never go below zero. */
  ghost predicate CountInv(s: State) {
    s.count == |s.queue| + BeingServed(s) + AcceptorSlot(s.acceptor) + StopperSlots(s.stopper)
  }

  /** The limit, seen from where the acceptor stands. */
  ghost predicate LimitInv(max: nat, s: State) {
    match s.acceptor
    case Counted(_, before) => s.count <= before + 1 && before <= max
    case Busy(_) => s.count <= max + 1
    case _ => s.count <= max
  }

  /** Connections leave the queue in the order they entered it; what stop drops is the rest. */
  ghost predicate TrafficInv(s: State) {
    s.pushed == s.taken + s.dropped + s.queue && (s.dropped != [] ==> s.queue == [] && Drained(s.stopper))
  }

  ghost predicate CountingInv(max: nat, s: State) {
    CountInv(s) && LimitInv(max, s) && TrafficInv(s)
  }

  lemma AcceptorKeepsCount(max: nat, s: State, a: Action, s': State)
    requires CountInv(s) && LimitInv(max, s) && AcceptorStep(max, s, a, s')
    ensures CountInv(s') && LimitInv(max, s')
  {
    if a.NotifyOne? && a.woken.Some? {
      TotalUpdate(ServingWeight, s.workers, a.woken.value, Wants);
    }
  }

  lemma AcceptorKeepsTraffic(max: nat, s: State, a: Action, s': State)
    requires ControlInv(s) && TrafficInv(s) && AcceptorStep(max, s, a, s')
    ensures TrafficInv(s')
  {
    if a.Push? {
      var c := s.acceptor.c;
      assert s.taken + s.dropped + s.queue + [c] == s.taken + s.dropped + (s.queue + [c]);
    }
  }

  lemma AcceptorKeepsCounting(max: nat, s: State, a: Action, s': State)
    requires ControlInv(s) && CountingInv(max, s) && AcceptorStep(max, s, a, s')
    ensures CountingInv(max, s')
  {
    AcceptorKeepsCount(max, s, a, s');
    AcceptorKeepsTraffic(max, s, a, s');
  }

  lemma WorkerKeepsCount(max: nat, s: State, a: Action, s': State)
    requires CountInv(s) && LimitInv(max, s) && WorkerStep(s, a, s')
    ensures CountInv(s') && LimitInv(max, s')
  {
    TotalUpdate(ServingWeight, s.workers, a.i, s'.workers[a.i]);
  }

  lemma WorkerKeepsTraffic(s: State, a: Action, s': State)
    requires TrafficInv(s) && WorkerStep(s, a, s')
    ensures TrafficInv(s')
  {
    if a.Pop? {
      var c, rest := s.queue[0], s.queue[1..];
      assert s.queue == [c] + rest;
      assert s.taken + [] + ([c] + rest) == s.taken + [c] + [] + rest;
    }
  }

  lemma WorkerKeepsCounting(max: nat, s: State, a: Action, s': State)
    requires ControlInv(s) && CountingInv(max, s) && WorkerStep(s, a, s')
    ensures CountingInv(max, s')
  {
    WorkerKeepsCount(max, s, a, s');
    WorkerKeepsTraffic(s, a, s');
  }

  lemma StopperKeepsCounting(max: nat, s: State, a: Action, s': State)
    requires ControlInv(s) && CountingInv(max, s) && StopperStep(s, a, s')
    ensures CountingInv(max, s')
  {
    match a
    case NotifyAll => TotalSame(ServingWeight, s.workers, s'.workers);
    case Clear =>
      assert s.taken + s.dropped + s.queue == s.taken + (s.dropped + s.queue) + [];
    case _ =>
  }

  // ---------------------------------------------------------------- whole runs

  ghost predicate Inv(max: nat, s: State) {
    ControlInv(s) && CountingInv(max, s)
  }

  ghost predicate Run(max: nat, states: seq<State>, actions: seq<Action>) {
    && |states| == |actions| + 1
    && forall k | 0 <= k < |actions| :: Step(max, states[k], actions[k], states[k + 1])
  }

  lemma InitEstablishesInv(max: nat, s: State, workers: nat)
    requires Init(s, workers) && workers > 0
    ensures Inv(max, s)
  {
    TotalZero(ServingWeight, s.workers);
  }

  lemma StepKeepsInv(max: nat, s: State, a: Action, s': State)
    requires Inv(max, s) && Step(max, s, a, s')
    ensures Inv(max, s') && |s'.workers| == |s.workers|
  {
    if AcceptorStep(max, s, a, s') {
      AcceptorKeepsControl(max, s, a, s');
      AcceptorKeepsCounting(max, s, a, s');
    } else if WorkerStep(s, a, s') {
      WorkerKeepsControl(s, a, s');
      WorkerKeepsCounting(max, s, a, s');
    } else {
      StopperKeepsControl(s, a, s');
      StopperKeepsCounting(max, s, a, s');
    }
  }

  lemma {:induction false} RunKeepsInv(max: nat, states: seq<State>, actions: seq<Action>, workers: nat, k: nat)
    requires Run(max, states, actions) && Init(states[0], workers) && workers > 0 && k < |states|
    ensures Inv(max, states[k]) && |states[k].workers| == workers
  {
    if k == 0 {
      InitEstablishesInv(max, states[0], workers);
    } else {
      RunKeepsInv(max, states, actions, workers, k - 1);
      StepKeepsInv(max, states[k - 1], actions[k - 1], states[k]);
    }
  }

  /** In every reachable state: no lost wake-up while running, and none to lose once stop has notified. */
  lemma NoLostWakeUp(max: nat, states: seq<State>, actions: seq<Action>, workers: nat, k: nat)
    requires Run(max, states, actions) && Init(states[0], workers) && workers > 0 && k < |states|
    ensures var s := states[k];
            s.running && s.queue != [] && !s.acceptor.Notifying? ==>
              exists i :: 0 <= i < |s.workers| && Awake(s.workers[i])
    ensures var s := states[k];
            s.stopper.Notified? || s.stopper.Stopped? ==>
              forall i | 0 <= i < |s.workers| :: !s.workers[i].Asleep? && !s.workers[i].Drowsy?
  {
    RunKeepsInv(max, states, actions, workers, k);
  }

  /**
   In every reachable state the counter equals the slots in use, admitted connections never exceed the limit,
   and the counter itself exceeds it by at most the one connection being turned away.
   */
  lemma AccountingHolds(max: nat, states: seq<State>, actions: seq<Action>, workers: nat, k: nat)
    requires Run(max, states, actions) && Init(states[0], workers) && workers > 0 && k < |states|
    ensures var s := states[k];
            && CountInv(s) && s.count <= max + 1
            && |s.queue| + BeingServed(s) <= max
            && s.pushed == s.taken + s.dropped + s.queue
            && (s.stopper.Stopped? ==> s.count == 0 && s.queue == [] && s.acceptor.Left?)
  {
    RunKeepsInv(max, states, actions, workers, k);
    TotalZero(ServingWeight, states[k].workers);
  }

  /** The subtractions in the code are always possible: the guards on them in the steps exclude nothing. */
  lemma CounterNeverUnderflows(max: nat, s: State)
    requires Inv(max, s)
    ensures s.acceptor.Busy? || s.acceptor.GivingUp? ==> s.count > 0
    ensures forall i | 0 <= i < |s.workers| && s.workers[i].Serving? :: s.count > 0
    ensures s.stopper.Owing? ==> s.count >= s.stopper.n
  {
    TotalZero(ServingWeight, s.workers);
  }

  // ---------------------------------------------------------------- who is turned away, and who is served

  /** A connection is given up unqueued only once the server is stopping. */
  lemma GivenUpMeansStopping(max: nat, states: seq<State>, actions: seq<Action>, workers: nat, k: nat)
    requires Run(max, states, actions) && Init(states[0], workers) && workers > 0 && k < |states|
    ensures states[k].acceptor.GivingUp? ==> !states[k].running
  {
    RunKeepsInv(max, states, actions, workers, k);
  }

  /** Whoever is answered "busy" was counted when the server was full. */
  ghost predicate FullAt(max: nat, s: State, c: Connection) {
    s.acceptor == Got(c) && |s.queue| + BeingServed(s) >= max
  }

  /** The connection in the acceptor's hands, from being counted to being turned away. */
  ghost predicate TurnedAway(max: nat, s: State, c: Connection) {
    s.acceptor == Busy(c) || (s.acceptor.Counted? && s.acceptor.c == c && s.acceptor.before >= max)
  }

  lemma OthersKeepAcceptor(s: State, a: Action, s': State)
    requires WorkerStep(s, a, s') || StopperStep(s, a, s')
    ensures s'.acceptor == s.acceptor
  {
  }

  lemma AcceptorTurnsAway(max: nat, s: State, a: Action, s': State, c: Connection)
    requires CountInv(s) && StopInv(s) && AcceptorStep(max, s, a, s') && TurnedAway(max, s', c)
    ensures TurnedAway(max, s, c) || FullAt(max, s, c)
  {
  }

  lemma TurnedAwayBefore(max: nat, s: State, a: Action, s': State, c: Connection)
    requires Inv(max, s) && Step(max, s, a, s') && TurnedAway(max, s', c)
    ensures TurnedAway(max, s, c) || FullAt(max, s, c)
  {
    if AcceptorStep(max, s, a, s') {
      AcceptorTurnsAway(max, s, a, s', c);
    } else {
      OthersKeepAcceptor(s, a, s');
    }
  }

  lemma {:induction false} TurnedAwayWhenFull(
      max: nat, states: seq<State>, actions: seq<Action>, workers: nat, k: nat, c: Connection) returns (j: nat)
    requires Run(max, states, actions) && Init(states[0], workers) && workers > 0 && k < |states|
    requires TurnedAway(max, states[k], c)
    ensures j < k && FullAt(max, states[j], c)
  {
    if k == 0 {
      assert false;
    }
    RunKeepsInv(max, states, actions, workers, k - 1);
    TurnedAwayBefore(max, states[k - 1], actions[k - 1], states[k], c);
    if FullAt(max, states[k - 1], c) {
      j := k - 1;
    } else {
      j := TurnedAwayWhenFull(max, states, actions, workers, k - 1, c);
    }
  }

  /** Only a full server answers "busy": when the connection was counted, the limit was already reached. */
  lemma BusyOnlyWhenFull(max: nat, states: seq<State>, actions: seq<Action>, workers: nat, k: nat) returns (j: nat)
    requires Run(max, states, actions) && Init(states[0], workers) && workers > 0 && k < |states|
    requires states[k].acceptor.Busy?
    ensures j < k && states[j].acceptor == Got(states[k].acceptor.c)
    ensures |states[j].queue| + BeingServed(states[j]) >= max
  {
    j := TurnedAwayWhenFull(max, states, actions, workers, k, states[k].acceptor.c);
  }

  // ---------------------------------------------------------------- stop terminates

  /** Steps a thread may still take once `stop` has been called. */
  function StepsLeft(w: Worker): nat {
    match w
    case Exited => 0
    case Ready => 1
    case Testing => 2
    case Wants => 3
    case Serving(_) => 4
    case Asleep => 4
    case Drowsy => 5
    case Popping => 5
  }

  function AcceptorStepsLeft(a: Acceptor): nat {
    match a
    case Left => 0
    case Top => 1
    case Busy(_) => 2
    case GivingUp(_) => 2
    case Notifying => 2
    case Inside(_) => 3
    case Pushing(_) => 3
    case WantsLock(_) => 4
    case Counted(_, _) => 5
    case Got(_) => 6
    case Accepting => 7
  }

  function StopperStepsLeft(p: Stopper): nat {
    match p
    case Stopped => 0
    case Notified => 1
    case Unlocked => 2
    case Owing(_) => 3
    case Emptying => 4
    case AcceptorJoined => 5
    case Cleared => 6
    case NotCalled => 7
  }

  function Remaining(s: State): nat {
    Total(StepsLeft, s.workers) + AcceptorStepsLeft(s.acceptor) + StopperStepsLeft(s.stopper)
  }

  lemma {:induction false} TotalWoken(workers: seq<Worker>)
    ensures Total(StepsLeft, Woken(workers)) <= Total(StepsLeft, workers)
  {
    if workers != [] {
      assert Woken(workers)[1..] == Woken(workers[1..]);
      TotalWoken(workers[1..]);
    }
  }

  lemma AcceptorRunsOut(max: nat, s: State, a: Action, s': State)
    requires !s.running && AcceptorStep(max, s, a, s')
    ensures !s'.running && Remaining(s') < Remaining(s)
  {
    if a.NotifyOne? && a.woken.Some? {
      TotalUpdate(StepsLeft, s.workers, a.woken.value, Wants);
    }
  }

  lemma WorkerRunsOut(s: State, a: Action, s': State)
    requires !s.running && WorkerStep(s, a, s')
    ensures !s'.running && Remaining(s') < Remaining(s)
  {
    TotalUpdate(StepsLeft, s.workers, a.i, s'.workers[a.i]);
  }

  lemma StopperRunsOut(s: State, a: Action, s': State)
    requires !s.running && StopperStep(s, a, s')
    ensures !s'.running && Remaining(s') < Remaining(s)
  {
    if a.NotifyAll? {
      TotalWoken(s.workers);
    }
  }

  /** From the call of `stop`, every step of any thread is one fewer still to take. */
  lemma StepsRunOut(max: nat, s: State, a: Action, s': State)
    requires !s.running && Step(max, s, a, s')
    ensures !s'.running && Remaining(s') < Remaining(s)
  {
    if AcceptorStep(max, s, a, s') {
      AcceptorRunsOut(max, s, a, s');
    } else if WorkerStep(s, a, s') {
      WorkerRunsOut(s, a, s');
    } else {
      StopperRunsOut(s, a, s');
    }
  }

  lemma {:induction false} AtMostFiveEach(workers: seq<Worker>)
    ensures Total(StepsLeft, workers) <= 5 * |workers|
  {
    if workers != [] {
      AtMostFiveEach(workers[1..]);
    }
  }

  lemma {:induction false} StepsBounded(max: nat, states: seq<State>, actions: seq<Action>, j: nat, k: nat)
    requires Run(max, states, actions) && j <= k < |states| && !states[j].running
    ensures !states[k].running && Remaining(states[k]) + (k - j) <= Remaining(states[j])
  {
    if j < k {
      StepsBounded(max, states, actions, j, k - 1);
      StepsRunOut(max, states[k - 1], actions[k - 1], states[k]);
    }
  }

  /** Once `stop` has been called, all threads together take at most this many more steps, in every run. */
  lemma StopTerminates(max: nat, states: seq<State>, actions: seq<Action>, workers: nat, k: nat)
    requires Run(max, states, actions) && Init(states[0], workers) && workers > 0 && k < |states|
    requires !states[k].stopper.NotCalled?
    ensures |actions| - k <= 13 + 5 * workers
  {
    RunKeepsInv(max, states, actions, workers, k);
    StepsBounded(max, states, actions, k, |states| - 1);
    AtMostFiveEach(states[k].workers);
  }

  /** Whoever is inside the critical section can go on. */
  lemma HolderGoesOn(max: nat, s: State) returns (a: Action, s': State)
    requires Inv(max, s) && s.lock.ByWorker?
    ensures WorkerStep(s, a, s')
  {
    var i := s.lock.index;
    match s.workers[i]
    case Testing =>
      a, s' := Test(i), SetWorker(s, i, if !s.running || s.queue != [] then Ready else Drowsy);
    case Drowsy => a, s' := Sleep(i), SetWorker(s, i, Asleep).(lock := Free);
    case Ready =>
      a := Recheck(i);
      s' := if !s.running || s.queue == [] then SetWorker(s, i, Exited).(lock := Free) else SetWorker(s, i, Popping);
    case Popping =>
      a := Pop(i);
      s' := SetWorker(s, i, Serving(s.queue[0])).(queue := s.queue[1..], taken := s.taken + [s.queue[0]], lock := Free);
    case _ => assert false;
  }

  /** The acceptor can always go on, unless it waits for the lock or has left. */
  lemma AcceptorGoesOn(max: nat, s: State) returns (a: Action, s': State)
    requires Inv(max, s) && !s.running && !s.acceptor.Left? && (s.acceptor.WantsLock? ==> s.lock.Free?)
    ensures AcceptorStep(max, s, a, s')
  {
    CounterNeverUnderflows(max, s);
    match s.acceptor
    case Top => a, s' := Loop, s.(acceptor := Left);
    case Accepting => a, s' := AcceptFails, s.(acceptor := Top);
    case Got(c) => a, s' := CountUp, s.(acceptor := Counted(c, s.count), count := s.count + 1);
    case Counted(c, before) => a, s' := Compare, s.(acceptor := if before >= max then Busy(c) else WantsLock(c));
    case Busy(_) => a, s' := SendBusy, s.(acceptor := Top, count := s.count - 1);
    case WantsLock(c) => a, s' := AcceptorLocks, s.(acceptor := Inside(c), lock := ByAcceptor);
    case Inside(c) => a, s' := AcceptorChecks, s.(acceptor := GivingUp(c), lock := Free);
    case Pushing(c) =>
      a, s' := Push, s.(acceptor := Notifying, queue := s.queue + [c], pushed := s.pushed + [c], lock := Free);
    case Notifying =>
      if sleeper :| 0 <= sleeper < |s.workers| && s.workers[sleeper] == Asleep {
        a, s' := NotifyOne(Some(sleeper)), SetWorker(s, sleeper, Wants).(acceptor := Top);
      } else {
        a, s' := NotifyOne(None), s.(acceptor := Top);
      }
    case GivingUp(_) => a, s' := GiveUp, s.(acceptor := Top, count := s.count - 1);
  }

  /** A worker that has not left, once all have been notified and the lock is not another worker's. */
  lemma LastWorkersGoOn(max: nat, s: State, i: nat) returns (a: Action, s': State)
    requires Inv(max, s) && s.stopper.Notified? && s.lock.Free? && i < |s.workers| && s.workers[i] != Exited
    ensures WorkerStep(s, a, s')
  {
    CounterNeverUnderflows(max, s);
    match s.workers[i]
    case Wants => a, s' := WorkerLocks(i), SetWorker(s, i, Testing).(lock := ByWorker(i));
    case Serving(_) => a, s' := Finish(i), SetWorker(s, i, Wants).(count := s.count - 1);
    case _ => assert false;
  }

  lemma StopperGoesOn(max: nat, s: State) returns (a: Action, s': State)
    requires Inv(max, s) && Joined(s.stopper) && !s.stopper.Stopped? && !s.lock.ByWorker?
    requires s.stopper.Notified? ==> forall i | 0 <= i < |s.workers| :: s.workers[i] == Exited
    ensures StopperStep(s, a, s')
  {
    CounterNeverUnderflows(max, s);
    match s.stopper
    case AcceptorJoined => a, s' := StopperLocks, s.(stopper := Emptying, lock := ByStopper);
    case Emptying => a, s' := Clear, s.(stopper := Owing(|s.queue|), queue := [], dropped := s.dropped + s.queue);
    case Owing(n) => a, s' := Subtract, s.(stopper := Unlocked, count := s.count - n, lock := Free);
    case Unlocked => a, s' := NotifyAll, s.(stopper := Notified, workers := Woken(s.workers));
    case Notified => a, s' := JoinWorkers, s.(stopper := Stopped);
    case _ => assert false;
  }

  lemma SomeoneGoesOn(max: nat, s: State) returns (a: Action, s': State)
    requires Inv(max, s) && !s.stopper.NotCalled? && !s.stopper.Stopped?
    ensures Step(max, s, a, s')
  {
    if s.lock.ByWorker? {
      a, s' := HolderGoesOn(max, s);
    } else if s.stopper.Cleared? {
      if s.acceptor.Left? {
        a, s' := JoinAcceptor, s.(stopper := AcceptorJoined);
      } else {
        a, s' := AcceptorGoesOn(max, s);
      }
    } else if i: nat :| s.stopper.Notified? && i < |s.workers| && s.workers[i] != Exited {
      a, s' := LastWorkersGoOn(max, s, i);
    } else {
      a, s' := StopperGoesOn(max, s);
    }
  }

  /** And until it returns some thread can always take a step: no deadlock, so `stop` returns. */
  lemma StopCannotDeadlock(max: nat, states: seq<State>, actions: seq<Action>, workers: nat, k: nat)
    returns (a: Action, s': State)
    requires Run(max, states, actions) && Init(states[0], workers) && workers > 0 && k < |states|
    requires !states[k].stopper.NotCalled? && !states[k].stopper.Stopped?
    ensures Step(max, states[k], a, s')
  {
    RunKeepsInv(max, states, actions, workers, k);
    a, s' := SomeoneGoesOn(max, states[k]);
  }
}
