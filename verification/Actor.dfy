/** The actor lifecycle: sends, stops, joins and jobs racing over one actor. */
module Actor {
  import opened Wrappers

  type Msg = nat
  type Code = int

  const OK: Code := 0
  const EIO: Code := 5
  const EINVAL: Code := 22
  const EPIPE: Code := 32
  const EDEADLK: Code := 35

  // ---- The fields of the actor and its lock sections

  /** `owner` tells whether the owner pointer is set; `jobs` is the dispatch group counter. */
  datatype Fields = Fields(closing: bool, joined: bool, failed: bool, owner: bool, joinResult: Code, jobs: nat)

  function Spawned(): Fields {
    Fields(false, false, false, true, OK, 0)
  }

  /** The lock section of a send: the job is counted unless the actor is closing. */
  function SendSection(f: Fields): (Fields, bool) {
    if f.closing then (f, false) else (f.(jobs := f.jobs + 1), true)
  }

  function StopSection(f: Fields): Fields {
    f.(closing := true)
  }

  function FailSection(f: Fields): Fields {
    f.(failed := true, closing := true)
  }

  /** The first lock section of a join: the stored result if there is one. */
  function JoinSection(f: Fields): (Fields, Option<Code>) {
    if f.joined then (f, Some(f.joinResult)) else (f.(closing := true), None)
  }

  /** The second lock section of a join: the result, and whether the owner was taken. */
  function FinishSection(f: Fields): (Fields, Code, bool) {
    if f.joined then (f, f.joinResult, false)
    else
      var result := if f.failed then EIO else OK;
      (f.(joined := true, joinResult := result, owner := false), result, f.owner)
  }

  // ---- The system: one actor, any number of threads, a serial queue

  datatype Call = SendCall | StopCall | JoinCall(closer: bool) | NestedJoinCall

  /** Where a thread is inside a call. */
  datatype Phase =
    | Idle
    | Rejecting(msg: Msg)       // send was refused, message not freed yet
    | Enqueuing(msg: Msg)       // job counted, not on the queue yet
    | Waiting                   // join waits for the group
    | Woken                     // join found the group empty
    | Closing(result: Code)     // join took the owner, close not called yet
    | Returned(call: Call, code: Code)

  /** Where the running job is. */
  datatype JobPhase =
    | Started
    | Dispatching(ownerSeen: bool)
    | Ended(failed: bool)
    | Marked
    | Freed
    | Left

  datatype Job = Job(msg: Msg, phase: JobPhase)

  /** Where a message that was passed to send is. */
  datatype Place = AtReject(thread: nat) | AtEnqueue(thread: nat) | OnQueue | InJob | Done

  /** `place`, `accepted`, `outstanding`, `failures`, `freed`, `closes` and `closeCode` record what has happened. */
  datatype System = System(
    actor: Fields,
    threads: seq<Phase>,
    queue: seq<Msg>,
    running: Option<Job>,
    place: map<Msg, Place>,
    accepted: set<Msg>,
    outstanding: set<Msg>,
    failures: set<Msg>,
    freed: multiset<Msg>,
    closes: nat,
    closeCode: Code)

  datatype Action =
    | SendNull(t: nat)
    | Send(t: nat, msg: Msg)
    | FreeRejected(t: nat)
    | Enqueue(t: nat)
    | Stop(t: nat)
    | Join(t: nat)
    | JoinFromJob(t: nat)
    | Wake(t: nat)
    | Finish(t: nat)
    | Close(t: nat, rc: Code)
    | Resume(t: nat)
    | JobStart
    | JobAttach(ok: bool)
    | JobEnd(failed: bool)
    | JobMark
    | JobFree
    | JobLeave
    | JobReturn

  ghost predicate At(s: System, t: nat, p: Phase) {
    t < |s.threads| && s.threads[t] == p
  }

  predicate JobAt(s: System, p: JobPhase) {
    s.running.Some? && s.running.value.phase == p
  }

  predicate Enabled(s: System, act: Action) {
    match act
    case SendNull(t) => t < |s.threads| && s.threads[t].Idle?
    case Send(t, msg) => t < |s.threads| && s.threads[t].Idle? && msg !in s.place
    case FreeRejected(t) => t < |s.threads| && s.threads[t].Rejecting?
    case Enqueue(t) => t < |s.threads| && s.threads[t].Enqueuing?
    case Stop(t) => t < |s.threads| && s.threads[t].Idle?
    case Join(t) => t < |s.threads| && s.threads[t].Idle?
    case JoinFromJob(t) => t < |s.threads| && s.threads[t].Idle? && s.running.Some?
    case Wake(t) => t < |s.threads| && s.threads[t].Waiting? && s.actor.jobs == 0
    case Finish(t) => t < |s.threads| && s.threads[t].Woken?
    case Close(t, _) => t < |s.threads| && s.threads[t].Closing?
    case Resume(t) => t < |s.threads| && s.threads[t].Returned?
    case JobStart => s.running.None? && s.queue != []
    case JobAttach(_) => JobAt(s, Started)
    case JobEnd(_) => s.running.Some? && s.running.value.phase.Dispatching?
    case JobMark => s.running.Some? && s.running.value.phase.Ended?
    case JobFree => JobAt(s, Marked)
    case JobLeave => JobAt(s, Freed) && s.actor.jobs > 0
    case JobReturn => JobAt(s, Left)
  }

  function To(s: System, t: nat, p: Phase): System
    requires t < |s.threads|
  {
    s.(threads := s.threads[t := p])
  }

  function JobTo(s: System, p: JobPhase): System
    requires s.running.Some?
  {
    s.(running := Some(Job(s.running.value.msg, p)))
  }

  function DoSend(s: System, t: nat, msg: Msg): System
    requires t < |s.threads|
  {
    var (actor, accepted) := SendSection(s.actor);
    if accepted then
      To(s.(actor := actor, place := s.place[msg := AtEnqueue(t)], accepted := s.accepted + {msg},
            outstanding := s.outstanding + {msg}), t, Enqueuing(msg))
    else
      To(s.(actor := actor, place := s.place[msg := AtReject(t)]), t, Rejecting(msg))
  }

  function DoJoin(s: System, t: nat): System
    requires t < |s.threads|
  {
    var (actor, result) := JoinSection(s.actor);
    To(s.(actor := actor), t, if result.Some? then Returned(JoinCall(false), result.value) else Waiting)
  }

  function DoFinish(s: System, t: nat): System
    requires t < |s.threads|
  {
    var (actor, result, taken) := FinishSection(s.actor);
    To(s.(actor := actor), t, if taken then Closing(result) else Returned(JoinCall(false), result))
  }

  function Apply(s: System, act: Action): System
    requires Enabled(s, act)
  {
    match act
    case SendNull(t) => To(s, t, Returned(SendCall, EINVAL))
    case Send(t, msg) => DoSend(s, t, msg)
    case FreeRejected(t) =>
      var msg := s.threads[t].msg;
      To(s.(freed := s.freed + multiset{msg}, place := s.place[msg := Done]), t, Returned(SendCall, EPIPE))
    case Enqueue(t) =>
      var msg := s.threads[t].msg;
      To(s.(queue := s.queue + [msg], place := s.place[msg := OnQueue]), t, Returned(SendCall, OK))
    case Stop(t) => To(s.(actor := StopSection(s.actor)), t, Returned(StopCall, OK))
    case Join(t) => DoJoin(s, t)
    case JoinFromJob(t) => To(s, t, Returned(NestedJoinCall, EDEADLK))
    case Wake(t) => To(s, t, Woken)
    case Finish(t) => DoFinish(s, t)
    case Close(t, rc) =>
      var result := s.threads[t].result;
      To(s.(closes := s.closes + 1, closeCode := rc), t,
         Returned(JoinCall(true), if result == OK && rc != OK then rc else result))
    case Resume(t) => To(s, t, Idle)
    case JobStart =>
      s.(queue := s.queue[1..], running := Some(Job(s.queue[0], Started)), place := s.place[s.queue[0] := InJob])
    case JobAttach(ok) =>
      if ok then JobTo(s, Dispatching(s.actor.owner))
      else JobTo(s.(failures := s.failures + {s.running.value.msg}), Ended(true))
    case JobEnd(failed) =>
      if failed then JobTo(s.(failures := s.failures + {s.running.value.msg}), Ended(true))
      else JobTo(s, Ended(false))
    case JobMark =>
      JobTo(if s.running.value.phase.failed then s.(actor := FailSection(s.actor)) else s, Marked)
    case JobFree => JobTo(s.(freed := s.freed + multiset{s.running.value.msg}), Freed)
    case JobLeave =>
      var msg := s.running.value.msg;
      JobTo(s.(actor := s.actor.(jobs := s.actor.jobs - 1), outstanding := s.outstanding - {msg},
               place := s.place[msg := Done]), Left)
    case JobReturn => s.(running := None)
  }

  ghost predicate Init(s: System) {
    && s.actor == Spawned()
    && (forall t :: 0 <= t < |s.threads| ==> s.threads[t] == Idle)
    && s.queue == [] && s.running == None && s.place == map[]
    && s.accepted == {} && s.outstanding == {} && s.failures == {}
    && s.freed == multiset{} && s.closes == 0
  }

  // ---- The invariant

  predicate Unfinished(p: Place) {
    p.AtEnqueue? || p.OnQueue? || p.InJob?
  }

  /** A thread that holds a message is where the record says the message is. */
  ghost predicate ThreadsInv(s: System) {
    forall t :: 0 <= t < |s.threads| ==>
      && (s.threads[t].Rejecting? ==> s.threads[t].msg in s.place && s.place[s.threads[t].msg] == AtReject(t))
      && (s.threads[t].Enqueuing? ==> s.threads[t].msg in s.place && s.place[s.threads[t].msg] == AtEnqueue(t))
  }

  /** Every recorded place is real. */
  ghost predicate PlacesInv(s: System) {
    forall m :: m in s.place ==>
      match s.place[m]
      case AtReject(t) => At(s, t, Rejecting(m))
      case AtEnqueue(t) => At(s, t, Enqueuing(m))
      case OnQueue => m in s.queue
      case InJob => s.running.Some? && s.running.value.msg == m && s.running.value.phase != Left
      case Done => true
  }

  ghost predicate QueueInv(s: System) {
    && (forall i :: 0 <= i < |s.queue| ==> s.queue[i] in s.place && s.place[s.queue[i]] == OnQueue)
    && (forall i, j :: 0 <= i < j < |s.queue| ==> s.queue[i] != s.queue[j])
  }

  /** The running job is the one recorded, and a job that dispatches saw the owner. */
  ghost predicate JobInv(s: System) {
    s.running.Some? ==>
      && s.running.value.msg in s.place
      && (if s.running.value.phase == Left then s.place[s.running.value.msg] == Done
          else s.place[s.running.value.msg] == InJob)
      && (s.running.value.phase.Dispatching? ==> s.running.value.phase.ownerSeen)
  }

  /** The group counter counts the accepted jobs that have not left. */
  ghost predicate GroupInv(s: System) {
    && s.actor.jobs == |s.outstanding|
    && forall m :: m in s.outstanding <==> m in s.place && Unfinished(s.place[m])
  }

  /** An accepted job that is no longer outstanding is over. */
  ghost predicate AcceptInv(s: System) {
    && s.outstanding <= s.accepted && s.failures <= s.accepted
    && forall m :: m in s.accepted ==> m in s.place && (m in s.outstanding || s.place[m] == Done)
  }

  /** Past the wait of a join the actor is closing and no job is outstanding. */
  ghost predicate JoinInv(s: System) {
    && (s.actor.joined <==> !s.actor.owner)
    && (s.actor.joined ==> s.actor.closing && s.actor.jobs == 0)
    && (forall t :: 0 <= t < |s.threads| ==>
          && (s.threads[t].Waiting? ==> s.actor.closing)
          && (s.threads[t].Woken? ==> s.actor.closing && s.actor.jobs == 0)
          && (s.threads[t].Closing? ==> s.actor.joined))
  }

  /** The owner is closed once, by the join that took it. */
  ghost predicate CloseInv(s: System) {
    && s.closes <= 1
    && (s.closes == 1 ==> s.actor.joined)
    && (forall t :: 0 <= t < |s.threads| && s.threads[t].Closing? ==> s.closes == 0)
    && (forall t, u :: 0 <= t < u < |s.threads| ==> !(s.threads[t].Closing? && s.threads[u].Closing?))
  }

  /** A message is freed exactly when nobody holds it any more, and only once. */
  ghost predicate FreeInv(s: System) {
    forall m :: s.freed[m] == if m in s.place && IsFreed(s, m) then 1 else 0
  }

  ghost predicate IsFreed(s: System, m: Msg)
    requires m in s.place
  {
    s.place[m].Done? || (s.place[m].InJob? && JobAt(s, Freed))
  }

  /** The failure flag records the failures of all jobs that have got past reporting them. */
  ghost predicate FailInv(s: System) {
    && (s.actor.failed ==> s.failures != {})
    && (s.failures != {} ==> s.actor.failed || JobAt(s, Ended(true)))
    && (JobAt(s, Ended(true)) ==> s.failures != {})
  }

  /** What joins return. */
  ghost predicate ResultInv(s: System) {
    && (s.actor.joined ==> s.actor.joinResult == if s.actor.failed then EIO else OK)
    && forall t :: 0 <= t < |s.threads| ==>
         && (s.threads[t].Closing? ==> s.threads[t].result == s.actor.joinResult)
         && (s.threads[t].Returned? && s.threads[t].call.JoinCall? ==>
               && s.actor.joined
               && (if !s.threads[t].call.closer then s.threads[t].code == s.actor.joinResult
                   else s.closes == 1 && s.threads[t].code == if s.actor.failed then EIO else s.closeCode))
  }

  ghost predicate Inv(s: System) {
    && ThreadsInv(s) && PlacesInv(s) && QueueInv(s) && JobInv(s) && GroupInv(s) && AcceptInv(s)
    && JoinInv(s) && CloseInv(s) && FreeInv(s) && FailInv(s) && ResultInv(s)
  }

  // ---- Every step keeps the invariant

  predicate JobAction(act: Action) {
    act.JobStart? || act.JobAttach? || act.JobEnd? || act.JobMark? || act.JobFree? || act.JobLeave? || act.JobReturn?
  }

  lemma ThreadsKeptByThread(s: System, act: Action)
    requires ThreadsInv(s) && QueueInv(s) && JobInv(s)
    requires Enabled(s, act) && !JobAction(act)
    ensures ThreadsInv(Apply(s, act))
  {
  }

  lemma ThreadsKeptByJob(s: System, act: Action)
    requires ThreadsInv(s) && QueueInv(s) && JobInv(s)
    requires Enabled(s, act) && JobAction(act)
    ensures ThreadsInv(Apply(s, act))
  {
  }

  lemma PlacesKeptBySend(s: System, t: nat, msg: Msg)
    requires PlacesInv(s) && Enabled(s, Send(t, msg))
    ensures PlacesInv(Apply(s, Send(t, msg)))
  {
  }

  lemma PlacesKeptByEnqueue(s: System, t: nat)
    requires ThreadsInv(s) && PlacesInv(s) && Enabled(s, Enqueue(t))
    ensures PlacesInv(Apply(s, Enqueue(t)))
  {
  }

  lemma PlacesKeptByThread(s: System, act: Action)
    requires ThreadsInv(s) && PlacesInv(s) && QueueInv(s) && JobInv(s)
    requires Enabled(s, act) && !JobAction(act)
    ensures PlacesInv(Apply(s, act))
  {
    if act.Send? {
      PlacesKeptBySend(s, act.t, act.msg);
    } else if act.Enqueue? {
      PlacesKeptByEnqueue(s, act.t);
    }
  }

  lemma PlacesKeptByJob(s: System, act: Action)
    requires ThreadsInv(s) && PlacesInv(s) && QueueInv(s) && JobInv(s)
    requires Enabled(s, act) && JobAction(act)
    ensures PlacesInv(Apply(s, act))
  {
  }

  lemma QueueKeptByThread(s: System, act: Action)
    requires ThreadsInv(s) && QueueInv(s) && JobInv(s)
    requires Enabled(s, act) && !JobAction(act)
    ensures QueueInv(Apply(s, act))
  {
  }

  lemma QueueKeptByJob(s: System, act: Action)
    requires ThreadsInv(s) && QueueInv(s) && JobInv(s)
    requires Enabled(s, act) && JobAction(act)
    ensures QueueInv(Apply(s, act))
  {
  }

  lemma JobKeptByThread(s: System, act: Action)
    requires ThreadsInv(s) && QueueInv(s) && JobInv(s) && GroupInv(s) && JoinInv(s)
    requires Enabled(s, act) && !JobAction(act)
    ensures JobInv(Apply(s, act))
  {
  }

  lemma JobKeptByJob(s: System, act: Action)
    requires ThreadsInv(s) && QueueInv(s) && JobInv(s) && GroupInv(s) && JoinInv(s)
    requires Enabled(s, act) && JobAction(act)
    ensures JobInv(Apply(s, act))
  {
  }

  lemma GroupKeptBySend(s: System, t: nat, msg: Msg)
    requires GroupInv(s) && t < |s.threads| && msg !in s.place
    ensures GroupInv(DoSend(s, t, msg))
  {
    assert msg !in s.outstanding;
  }

  lemma GroupKeptByThread(s: System, act: Action)
    requires ThreadsInv(s) && QueueInv(s) && JobInv(s) && GroupInv(s)
    requires Enabled(s, act) && !JobAction(act)
    ensures GroupInv(Apply(s, act))
  {
    if act.Send? {
      GroupKeptBySend(s, act.t, act.msg);
    }
  }

  lemma GroupKeptByJob(s: System, act: Action)
    requires ThreadsInv(s) && QueueInv(s) && JobInv(s) && GroupInv(s)
    requires Enabled(s, act) && JobAction(act)
    ensures GroupInv(Apply(s, act))
  {
  }

  lemma AcceptKeptByThread(s: System, act: Action)
    requires ThreadsInv(s) && QueueInv(s) && JobInv(s) && GroupInv(s) && AcceptInv(s)
    requires Enabled(s, act) && !JobAction(act)
    ensures AcceptInv(Apply(s, act))
  {
  }

  lemma AcceptKeptByJob(s: System, act: Action)
    requires ThreadsInv(s) && QueueInv(s) && JobInv(s) && GroupInv(s) && AcceptInv(s)
    requires Enabled(s, act) && JobAction(act)
    ensures AcceptInv(Apply(s, act))
  {
  }

  lemma JoinKeptByThread(s: System, act: Action)
    requires JoinInv(s)
    requires Enabled(s, act) && !JobAction(act)
    ensures JoinInv(Apply(s, act))
  {
  }

  lemma JoinKeptByJob(s: System, act: Action)
    requires JoinInv(s)
    requires Enabled(s, act) && JobAction(act)
    ensures JoinInv(Apply(s, act))
  {
  }

  lemma CloseKeptByThread(s: System, act: Action)
    requires JoinInv(s) && CloseInv(s)
    requires Enabled(s, act) && !JobAction(act)
    ensures CloseInv(Apply(s, act))
  {
  }

  lemma CloseKeptByJob(s: System, act: Action)
    requires JoinInv(s) && CloseInv(s)
    requires Enabled(s, act) && JobAction(act)
    ensures CloseInv(Apply(s, act))
  {
  }

  lemma FreeKeptBySend(s: System, t: nat, msg: Msg)
    requires FreeInv(s) && Enabled(s, Send(t, msg))
    ensures FreeInv(Apply(s, Send(t, msg)))
  {
  }

  lemma FreeKeptByReject(s: System, t: nat)
    requires ThreadsInv(s) && FreeInv(s) && Enabled(s, FreeRejected(t))
    ensures FreeInv(Apply(s, FreeRejected(t)))
  {
  }

  lemma FreeKeptByThread(s: System, act: Action)
    requires ThreadsInv(s) && QueueInv(s) && JobInv(s) && FreeInv(s)
    requires Enabled(s, act) && !JobAction(act)
    ensures FreeInv(Apply(s, act))
  {
    if act.Send? {
      FreeKeptBySend(s, act.t, act.msg);
    } else if act.FreeRejected? {
      FreeKeptByReject(s, act.t);
    }
  }

  lemma FreeKeptByStart(s: System)
    requires QueueInv(s) && FreeInv(s) && Enabled(s, JobStart)
    ensures FreeInv(Apply(s, JobStart))
  {
  }

  lemma FreeKeptByFree(s: System)
    requires PlacesInv(s) && JobInv(s) && FreeInv(s) && Enabled(s, JobFree)
    ensures FreeInv(Apply(s, JobFree))
  {
  }

  lemma FreeKeptByLeave(s: System)
    requires PlacesInv(s) && JobInv(s) && FreeInv(s) && Enabled(s, JobLeave)
    ensures FreeInv(Apply(s, JobLeave))
  {
  }

  lemma FreeKeptByJob(s: System, act: Action)
    requires ThreadsInv(s) && PlacesInv(s) && QueueInv(s) && JobInv(s) && FreeInv(s)
    requires Enabled(s, act) && JobAction(act)
    ensures FreeInv(Apply(s, act))
  {
    if act.JobStart? {
      FreeKeptByStart(s);
    } else if act.JobFree? {
      FreeKeptByFree(s);
    } else if act.JobLeave? {
      FreeKeptByLeave(s);
    }
  }

  lemma FailKeptByThread(s: System, act: Action)
    requires FailInv(s)
    requires Enabled(s, act) && !JobAction(act)
    ensures FailInv(Apply(s, act))
  {
  }

  lemma FailKeptByJob(s: System, act: Action)
    requires FailInv(s)
    requires Enabled(s, act) && JobAction(act)
    ensures FailInv(Apply(s, act))
  {
  }

  lemma ResultKeptByThread(s: System, act: Action)
    requires ResultInv(s) && JoinInv(s) && CloseInv(s) && JobInv(s) && GroupInv(s)
    requires Enabled(s, act) && !JobAction(act)
    ensures ResultInv(Apply(s, act))
  {
  }

  lemma ResultKeptByJob(s: System, act: Action)
    requires ResultInv(s) && JoinInv(s) && JobInv(s) && GroupInv(s)
    requires Enabled(s, act) && JobAction(act)
    ensures ResultInv(Apply(s, act))
  {
  }

  lemma {:induction false} StepKeepsInv(s: System, act: Action)
    requires Inv(s) && Enabled(s, act)
    ensures Inv(Apply(s, act))
  {
    if JobAction(act) {
      ThreadsKeptByJob(s, act); PlacesKeptByJob(s, act); QueueKeptByJob(s, act); JobKeptByJob(s, act);
      GroupKeptByJob(s, act); AcceptKeptByJob(s, act); JoinKeptByJob(s, act); CloseKeptByJob(s, act);
      FreeKeptByJob(s, act);
      FailKeptByJob(s, act); ResultKeptByJob(s, act);
    } else {
      ThreadsKeptByThread(s, act); PlacesKeptByThread(s, act); QueueKeptByThread(s, act); JobKeptByThread(s, act);
      GroupKeptByThread(s, act); AcceptKeptByThread(s, act); JoinKeptByThread(s, act); CloseKeptByThread(s, act);
      FreeKeptByThread(s, act);
      FailKeptByThread(s, act); ResultKeptByThread(s, act);
    }
  }

  // ---- Runs

  /** `s'` is reached from `s` by the given actions, each enabled when it is taken. */
  ghost predicate Run(s: System, acts: seq<Action>, s': System)
    decreases |acts|
  {
    if acts == [] then s == s'
    else Enabled(s, acts[0]) && Run(Apply(s, acts[0]), acts[1..], s')
  }

  ghost predicate Reachable(s: System) {
    exists s0, acts :: Init(s0) && Run(s0, acts, s)
  }

  lemma {:induction false} RunKeepsInv(s: System, acts: seq<Action>, s': System)
    requires Inv(s) && Run(s, acts, s')
    ensures Inv(s')
    decreases |acts|
  {
    if acts != [] {
      StepKeepsInv(s, acts[0]);
      RunKeepsInv(Apply(s, acts[0]), acts[1..], s');
    }
  }

  lemma InitIsReachable(s: System)
    requires Init(s)
    ensures Reachable(s)
  {
    assert Run(s, [], s);
  }

  lemma {:induction false} RunThenStep(s: System, acts: seq<Action>, s': System, act: Action)
    requires Run(s, acts, s') && Enabled(s', act)
    ensures Run(s, acts + [act], Apply(s', act))
    decreases |acts|
  {
    if acts != [] {
      assert (acts + [act])[1..] == acts[1..] + [act];
      RunThenStep(Apply(s, acts[0]), acts[1..], s', act);
    }
  }

  lemma StepIsReachable(s: System, act: Action)
    requires Reachable(s) && Enabled(s, act)
    ensures Reachable(Apply(s, act)) && Inv(Apply(s, act))
  {
    var s0, acts :| Init(s0) && Run(s0, acts, s);
    RunThenStep(s0, acts, s, act);
    ReachableInv(Apply(s, act));
  }

  lemma ReachableInv(s: System)
    requires Reachable(s)
    ensures Inv(s)
  {
    var s0, acts :| Init(s0) && Run(s0, acts, s);
    RunKeepsInv(s0, acts, s);
  }

  // ---- Results over all runs

  /** The owner is closed at most once; once it is cleared or closed the actor is closing, no accepted
      job is outstanding and none is dispatching; a dispatching job always saw the owner. */
  lemma OwnerSafety(s: System)
    requires Reachable(s)
    ensures s.closes <= 1
    ensures !s.actor.owner || s.closes > 0 ==>
              && s.actor.closing && s.outstanding == {} && s.queue == []
              && !(s.running.Some? && s.running.value.phase != Left)
    ensures s.running.Some? && s.running.value.phase.Dispatching? ==>
              s.running.value.phase.ownerSeen && s.actor.owner && s.closes == 0
  {
    ReachableInv(s);
    if !s.actor.owner || s.closes > 0 {
      NothingOutstanding(s);
    } else if s.running.Some? && s.running.value.phase != Left {
      assert s.running.value.msg in s.outstanding;
    }
  }

  lemma NothingOutstanding(s: System)
    requires Inv(s) && s.actor.jobs == 0
    ensures s.outstanding == {} && s.queue == [] && !(s.running.Some? && s.running.value.phase != Left)
    ensures forall t :: 0 <= t < |s.threads| ==> !s.threads[t].Enqueuing?
  {
    QueueIsCounted(s);
  }

  lemma QueueIsCounted(s: System)
    requires QueueInv(s) && GroupInv(s)
    ensures s.queue != [] ==> s.outstanding != {}
  {
    if s.queue != [] {
      assert s.queue[0] in s.outstanding;
    }
  }

  /** Every message passed to send is freed at most once, and it has been freed exactly once as soon as
      no thread, queue or job holds it. */
  lemma FreedExactlyOnce(s: System, m: Msg)
    requires Reachable(s)
    ensures s.freed[m] <= 1
    ensures m in s.place ==> (s.freed[m] == 1 <==> !Held(s, m))
    ensures m !in s.place ==> s.freed[m] == 0
  {
    ReachableInv(s);
    if m in s.place && Held(s, m) {
      if t: nat :| At(s, t, Rejecting(m)) || At(s, t, Enqueuing(m)) {
      } else if m in s.queue {
        var i :| 0 <= i < |s.queue| && s.queue[i] == m;
      }
    }
  }

  /** Somebody still has the message: the thread that sent it, the queue, or its job before freeing it. */
  ghost predicate Held(s: System, m: Msg) {
    || (exists t: nat :: At(s, t, Rejecting(m)) || At(s, t, Enqueuing(m)))
    || m in s.queue
    || (s.running.Some? && s.running.value.msg == m && s.running.value.phase != Freed && s.running.value.phase != Left)
  }

  /** When a join has returned, every accepted job is over and its message freed, and the result is EIO if some
      job failed; otherwise it is success, or what closing the owner gave to the join that closed it. */
  lemma JoinResult(s: System, t: nat)
    requires Reachable(s) && t < |s.threads| && s.threads[t].Returned? && s.threads[t].call.JoinCall?
    ensures s.actor.closing && s.outstanding == {}
    ensures forall m :: m in s.accepted ==> m in s.place && s.place[m] == Done && s.freed[m] == 1
    ensures s.threads[t].call.closer ==> s.closes == 1
    ensures s.threads[t].code ==
            if s.failures != {} then EIO else if s.threads[t].call.closer then s.closeCode else OK
  {
    ReachableInv(s);
    NothingOutstanding(s);
  }

  lemma {:induction false} ClosedToSends(s: System, acts: seq<Action>, s': System)
    requires s.actor.closing && Run(s, acts, s')
    ensures s'.actor.closing && s'.accepted == s.accepted
    decreases |acts|
  {
    if acts != [] {
      ClosedToSends(Apply(s, acts[0]), acts[1..], s');
    }
  }

  /** The join that closes the owner answers what the close gave, unless a job failed. */
  lemma CloseAnswers(s: System, t: nat, rc: Code)
    requires Reachable(s) && t < |s.threads| && s.threads[t].Closing?
    ensures Apply(s, Close(t, rc)).threads[t] == Returned(JoinCall(true), if s.failures != {} then 5 else rc)
  {
    ReachableInv(s);
    NothingOutstanding(s);
  }

  /** What the other calls answer, in the numbers of errno. */
  lemma CallsAnswer(s: System, t: nat)
    requires t < |s.threads| && s.threads[t].Idle?
    ensures Apply(s, SendNull(t)) == To(s, t, Returned(SendCall, 22))
    ensures Apply(s, Stop(t)).threads[t] == Returned(StopCall, 0)
    ensures s.running.Some? ==> Apply(s, JoinFromJob(t)) == To(s, t, Returned(NestedJoinCall, 35))
  {
  }

  /** A refused send answers EPIPE, and its message is freed and never queued. */
  lemma RefusedAnswer(s: System, t: nat)
    requires Reachable(s) && t < |s.threads| && s.threads[t].Rejecting?
    ensures var s', msg := Apply(s, FreeRejected(t)), s.threads[t].msg;
            s'.threads[t] == Returned(SendCall, 32) && s'.freed[msg] == 1 && msg !in s'.queue && msg !in s'.outstanding
  {
    ReachableInv(s);
    StepIsReachable(s, FreeRejected(t));
  }

  /** An accepted send answers success, and its message is queued and not freed. */
  lemma AcceptedAnswer(s: System, t: nat)
    requires Reachable(s) && t < |s.threads| && s.threads[t].Enqueuing?
    ensures var s', msg := Apply(s, Enqueue(t)), s.threads[t].msg;
            s'.threads[t] == Returned(SendCall, 0) && s'.freed[msg] == 0 && msg in s'.queue && msg in s'.outstanding
  {
    ReachableInv(s);
    StepIsReachable(s, Enqueue(t));
  }

  // ---- Order of the jobs

  ghost function EnqueuedBy(s: System, act: Action): seq<Msg>
    requires Enabled(s, act)
  {
    if act.Enqueue? then [s.threads[act.t].msg] else []
  }

  /** The messages put on the queue during a run, in order. */
  ghost function EnqueuedIn(s: System, acts: seq<Action>): seq<Msg>
    decreases |acts|
  {
    if acts == [] || !Enabled(s, acts[0]) then []
    else EnqueuedBy(s, acts[0]) + EnqueuedIn(Apply(s, acts[0]), acts[1..])
  }

  ghost function StartedBy(s: System, act: Action): seq<Msg>
    requires Enabled(s, act)
  {
    var s' := Apply(s, act);
    if act.JobStart? && s'.running.Some? then [s'.running.value.msg] else []
  }

  /** The messages whose jobs start during a run, in order. */
  ghost function StartedIn(s: System, acts: seq<Action>): seq<Msg>
    decreases |acts|
  {
    if acts == [] || !Enabled(s, acts[0]) then []
    else StartedBy(s, acts[0]) + StartedIn(Apply(s, acts[0]), acts[1..])
  }

  /** What comes in and what goes out add up over a step and a run after it. */
  lemma AddUp(before: seq<Msg>, x: seq<Msg>, y: seq<Msg>, between: seq<Msg>,
              xs: seq<Msg>, ys: seq<Msg>, after: seq<Msg>)
    requires before + x == y + between && between + xs == ys + after
    ensures before + (x + xs) == (y + ys) + after
  {
    assert before + (x + xs) == (before + x) + xs;
    assert (y + between) + xs == y + (between + xs);
    assert y + (ys + after) == (y + ys) + after;
  }

  lemma OrderKept(s: System, act: Action)
    requires Enabled(s, act)
    ensures s.queue + EnqueuedBy(s, act) == StartedBy(s, act) + Apply(s, act).queue
  {
  }

  /** Jobs start in the order in which their messages were queued, and none is skipped. */
  lemma {:induction false} FirstInFirstOut(s: System, acts: seq<Action>, s': System)
    requires Run(s, acts, s')
    ensures s.queue + EnqueuedIn(s, acts) == StartedIn(s, acts) + s'.queue
    decreases |acts|
  {
    if acts != [] {
      var act, next := acts[0], Apply(s, acts[0]);
      OrderKept(s, act);
      FirstInFirstOut(next, acts[1..], s');
      AddUp(s.queue, EnqueuedBy(s, act), StartedBy(s, act), next.queue,
            EnqueuedIn(next, acts[1..]), StartedIn(next, acts[1..]), s'.queue);
    }
  }

  /** The message of the running job, if the job is in one of the given phases. */
  ghost function JobsAt(s: System, phases: set<JobPhase>): seq<Msg> {
    if s.running.Some? && s.running.value.phase in phases then [s.running.value.msg] else []
  }

  /** The message of the running job, if the step is one of the given ones. */
  ghost function SteppedBy(s: System, act: Action, kinds: set<Action>): seq<Msg> {
    if act in kinds && s.running.Some? then [s.running.value.msg] else []
  }

  /** The messages of the jobs that take one of the given steps during a run, in order. */
  ghost function SteppedIn(s: System, acts: seq<Action>, kinds: set<Action>): seq<Msg>
    decreases |acts|
  {
    if acts == [] || !Enabled(s, acts[0]) then []
    else SteppedBy(s, acts[0], kinds) + SteppedIn(Apply(s, acts[0]), acts[1..], kinds)
  }

  const ATTACHES: set<Action> := {JobAttach(true), JobAttach(false)}
  const ENDS: set<Action> := {JobEnd(true), JobEnd(false)}
  const IN_HANDLER: set<JobPhase> := {Dispatching(true), Dispatching(false)}

  lemma OnlyJobsMoveTheJob(s: System, act: Action)
    requires Enabled(s, act) && !JobAction(act)
    ensures Apply(s, act).running == s.running
  {
  }

  lemma AttachedOnce(s: System, act: Action)
    requires Enabled(s, act)
    ensures JobsAt(s, {Started}) + StartedBy(s, act) ==
            SteppedBy(s, act, ATTACHES) + JobsAt(Apply(s, act), {Started})
  {
    if !JobAction(act) {
      OnlyJobsMoveTheJob(s, act);
    }
  }

  lemma HandledOnce(s: System, act: Action)
    requires Enabled(s, act)
    ensures JobsAt(s, IN_HANDLER) + SteppedBy(s, act, {JobAttach(true)}) ==
            SteppedBy(s, act, ENDS) + JobsAt(Apply(s, act), IN_HANDLER)
  {
    if !JobAction(act) {
      OnlyJobsMoveTheJob(s, act);
    }
  }

  /** Every started job is attached once. */
  lemma {:induction false} JobsAreAttached(s: System, acts: seq<Action>, s': System)
    requires Run(s, acts, s')
    ensures JobsAt(s, {Started}) + StartedIn(s, acts) == SteppedIn(s, acts, ATTACHES) + JobsAt(s', {Started})
    decreases |acts|
  {
    if acts != [] {
      var act, next := acts[0], Apply(s, acts[0]);
      AttachedOnce(s, act);
      JobsAreAttached(next, acts[1..], s');
      AddUp(JobsAt(s, {Started}), StartedBy(s, act), SteppedBy(s, act, ATTACHES), JobsAt(next, {Started}),
            StartedIn(next, acts[1..]), SteppedIn(next, acts[1..], ATTACHES), JobsAt(s', {Started}));
    }
  }

  /** Every job that is attached enters its handler, and ends there once. */
  lemma {:induction false} JobsAreHandled(s: System, acts: seq<Action>, s': System)
    requires Run(s, acts, s')
    ensures JobsAt(s, IN_HANDLER) + SteppedIn(s, acts, {JobAttach(true)}) ==
            SteppedIn(s, acts, ENDS) + JobsAt(s', IN_HANDLER)
    decreases |acts|
  {
    if acts != [] {
      var act, next := acts[0], Apply(s, acts[0]);
      HandledOnce(s, act);
      JobsAreHandled(next, acts[1..], s');
      AddUp(JobsAt(s, IN_HANDLER), SteppedBy(s, act, {JobAttach(true)}), SteppedBy(s, act, ENDS),
            JobsAt(next, IN_HANDLER), SteppedIn(next, acts[1..], {JobAttach(true)}),
            SteppedIn(next, acts[1..], ENDS), JobsAt(s', IN_HANDLER));
    }
  }

  /** The failures on record are those of the jobs that could not attach or whose handler failed. */
  lemma {:induction false} FailuresAreRecorded(s: System, acts: seq<Action>, s': System, msg: Msg)
    requires Run(s, acts, s')
    ensures msg in s'.failures <==>
              msg in s.failures || msg in SteppedIn(s, acts, {JobAttach(false), JobEnd(true)})
    decreases |acts|
  {
    if acts != [] {
      FailuresAreRecorded(Apply(s, acts[0]), acts[1..], s', msg);
    }
  }

  /** A thread whose call has returned can make any call again. */
  lemma ThreadsCallAgain(s: System, t: nat, msg: Msg)
    requires t < |s.threads| && s.threads[t].Returned?
    ensures var s' := Apply(s, Resume(t));
            && Enabled(s', SendNull(t)) && Enabled(s', Stop(t)) && Enabled(s', Join(t))
            && (Enabled(s', Send(t, msg)) <==> msg !in s.place)
            && (Enabled(s', JoinFromJob(t)) <==> s.running.Some?)
  {
  }

  /** After a join has returned no later send is accepted: it is refused with EPIPE. */
  lemma SendsAfterJoin(s: System, t: nat, acts: seq<Action>, s': System, u: nat, msg: Msg)
    requires Reachable(s) && t < |s.threads| && s.threads[t].Returned? && s.threads[t].call.JoinCall?
    requires Run(s, acts, s')
    ensures s'.accepted == s.accepted
    ensures Enabled(s', Send(u, msg)) ==>
              var refused := Apply(s', Send(u, msg));
              && Enabled(refused, FreeRejected(u))
              && Apply(refused, FreeRejected(u)).threads[u] == Returned(SendCall, EPIPE)
  {
    JoinResult(s, t);
    ClosedToSends(s, acts, s');
  }

  // ---- Progress

  /** Steps that carry on with what has been started. */
  predicate Internal(act: Action) {
    JobAction(act) || act.FreeRejected? || act.Enqueue? || act.Wake? || act.Finish? || act.Close?
  }

  function PhaseWork(p: Phase): nat {
    match p
    case Rejecting(_) => 1
    case Enqueuing(_) => 8
    case Waiting => 3
    case Woken => 2
    case Closing(_) => 1
    case _ => 0
  }

  function JobWork(p: JobPhase): nat {
    match p
    case Started => 6
    case Dispatching(_) => 5
    case Ended(_) => 4
    case Marked => 3
    case Freed => 2
    case Left => 1
  }

  function ThreadWork(ps: seq<Phase>): nat {
    if ps == [] then 0 else PhaseWork(ps[0]) + ThreadWork(ps[1..])
  }

  function Work(s: System): nat {
    ThreadWork(s.threads) + 7 * |s.queue| + if s.running.Some? then JobWork(s.running.value.phase) else 0
  }

  lemma {:induction false} ThreadWorkUpdate(ps: seq<Phase>, t: nat, p: Phase)
    requires t < |ps|
    ensures ThreadWork(ps[t := p]) == ThreadWork(ps) - PhaseWork(ps[t]) + PhaseWork(p)
    decreases |ps|
  {
    if t == 0 {
      assert ps[0 := p][1..] == ps[1..];
    } else {
      ThreadWorkUpdate(ps[1..], t - 1, p);
      assert ps[t := p][1..] == ps[1..][t - 1 := p];
    }
  }

  lemma InternalStepsShrinkWork(s: System, act: Action)
    requires Enabled(s, act) && Internal(act)
    ensures Work(Apply(s, act)) < Work(s)
  {
    if !JobAction(act) {
      ThreadWorkUpdate(s.threads, act.t, Apply(s, act).threads[act.t]);
    }
  }

  ghost predicate Quiescent(s: System) {
    && (forall t :: 0 <= t < |s.threads| ==> s.threads[t].Idle? || s.threads[t].Returned?)
    && s.queue == [] && s.running == None
  }

  /** No deadlock: whatever has been started can always go on. */
  lemma SomethingEnabled(s: System) returns (act: Action)
    requires Inv(s) && !Quiescent(s)
    ensures Internal(act) && Enabled(s, act)
  {
    if s.running.Some? {
      act := NextJobAction(s);
    } else if s.queue != [] {
      act := JobStart;
    } else {
      var t :| 0 <= t < |s.threads| && !s.threads[t].Idle? && !s.threads[t].Returned?;
      if u :| 0 <= u < |s.threads| && s.threads[u].Enqueuing? {
        act := Enqueue(u);
      } else {
        match s.threads[t]
        case Rejecting(_) => act := FreeRejected(t);
        case Waiting =>
          AllLeft(s);
          act := Wake(t);
        case Woken => act := Finish(t);
        case Closing(_) => act := Close(t, OK);
      }
    }
  }

  lemma NextJobAction(s: System) returns (act: Action)
    requires Inv(s) && s.running.Some?
    ensures Internal(act) && Enabled(s, act)
  {
    match s.running.value.phase
    case Started => act := JobAttach(true);
    case Dispatching(_) => act := JobEnd(false);
    case Ended(_) => act := JobMark;
    case Marked => act := JobFree;
    case Freed =>
      assert s.running.value.msg in s.outstanding;
      act := JobLeave;
    case Left => act := JobReturn;
  }

  lemma AllLeft(s: System)
    requires Inv(s) && s.running.None? && s.queue == []
    requires forall t :: 0 <= t < |s.threads| ==> !s.threads[t].Enqueuing?
    ensures s.actor.jobs == 0
  {
    assert forall m :: m in s.place ==> !Unfinished(s.place[m]);
    assert s.outstanding == {};
  }

  /** What has been started finishes within `Work(s)` steps however it is scheduled, and then every
      message ever passed to send has been freed exactly once. */
  lemma {:induction false} StartedWorkFinishes(s: System) returns (acts: seq<Action>, s': System)
    requires Inv(s)
    ensures Run(s, acts, s') && Quiescent(s') && |acts| <= Work(s)
    ensures forall m :: m in s'.place ==> s'.freed[m] == 1
    decreases Work(s)
  {
    if Quiescent(s) {
      acts, s' := [], s;
    } else {
      var act := SomethingEnabled(s);
      InternalStepsShrinkWork(s, act);
      StepKeepsInv(s, act);
      var rest, last := StartedWorkFinishes(Apply(s, act));
      acts, s' := [act] + rest, last;
      assert acts[1..] == rest;
    }
  }

  lemma {:induction false} InternalRunsAreBounded(s: System, acts: seq<Action>, s': System)
    requires Run(s, acts, s') && forall i :: 0 <= i < |acts| ==> Internal(acts[i])
    ensures |acts| + Work(s') <= Work(s)
    decreases |acts|
  {
    if acts != [] {
      InternalStepsShrinkWork(s, acts[0]);
      InternalRunsAreBounded(Apply(s, acts[0]), acts[1..], s');
    }
  }

  // ---- The actor object

  /** Later sends are refused, whatever happens. */
  ghost predicate Sealed(s: System) {
    forall acts, s' :: Run(s, acts, s') ==> s'.accepted == s.accepted
  }

  /** Every join that has returned, now or later, reported the failure. */
  ghost predicate Doomed(s: System) {
    forall acts, s', t :: Run(s, acts, s') && t in JoinsDone(s') ==> s'.threads[t].code == EIO
  }

  ghost function JoinsDone(s: System): set<nat> {
    set t: nat | t < |s.threads| && s.threads[t].Returned? && s.threads[t].call.JoinCall?
  }

  ghost function Outcome(s: System): Code {
    if s.failures != {} then EIO else OK
  }

  lemma ClosingSeals(s: System)
    requires s.actor.closing
    ensures Sealed(s)
  {
    forall acts, s' | Run(s, acts, s')
      ensures s'.accepted == s.accepted
    {
      ClosedToSends(s, acts, s');
    }
  }

  lemma {:induction false} FailureStays(s: System, acts: seq<Action>, s': System)
    requires s.actor.failed && Run(s, acts, s')
    ensures s'.actor.failed
    decreases |acts|
  {
    if acts != [] {
      FailureStays(Apply(s, acts[0]), acts[1..], s');
    }
  }

  lemma FailureDooms(s: System)
    requires Inv(s) && s.actor.failed
    ensures Doomed(s)
  {
    forall acts, s', t | Run(s, acts, s') && t in JoinsDone(s')
      ensures s'.threads[t].code == EIO
    {
      FailureStays(s, acts, s');
      RunKeepsInv(s, acts, s');
    }
  }

  lemma JoinedOutcome(s: System)
    requires Inv(s) && s.actor.joined
    ensures s.outstanding == {} && s.actor.joinResult == Outcome(s)
  {
    NothingOutstanding(s);
  }

  lemma CloserIsFirst(s: System, t: nat)
    requires Inv(s)
    ensures t < |s.threads| && s.threads[t].Closing? ==> s.closes == 0
  {
  }

  /** The actor object. Each method is the body of one lock section, taken by a thread of the system around it. */
  class CielActor {
    var closing: bool
    var joined: bool
    var failed: bool
    var owner: bool
    var joinResult: Code
    var jobs: nat
    ghost var system: System

    ghost predicate Valid()
      reads this
    {
      Reachable(system) && system.actor == Fields(closing, joined, failed, owner, joinResult, jobs)
    }

    constructor (ghost threads: nat)
      ensures Valid() && Init(system) && |system.threads| == threads
    {
      closing, joined, failed, owner, joinResult, jobs := false, false, false, true, OK, 0;
      system := System(Spawned(), seq(threads, _ => Idle), [], None, map[], {}, {}, {}, multiset{}, 0, OK);
      new;
      InitIsReachable(system);
    }

    /** A step elsewhere in the system: a thread, the queue or the job goes on without touching the object. */
    ghost method Observe(act: Action)
      requires Valid() && Enabled(system, act) && Apply(system, act).actor == system.actor
      modifies this`system
      ensures Valid() && system == Apply(old(system), act)
    {
      StepIsReachable(system, act);
      system := Apply(system, act);
    }

    method EnterJob(ghost t: nat, ghost msg: Msg) returns (accepted: bool)
      requires Valid() && Enabled(system, Send(t, msg))
      modifies this
      ensures Valid() && system == Apply(old(system), Send(t, msg))
      ensures accepted <==> msg in system.outstanding
      ensures accepted ==> owner && system.closes == 0 && At(system, t, Enqueuing(msg))
      ensures !accepted ==> Sealed(system) && At(system, t, Rejecting(msg))
    {
      StepIsReachable(system, Send(t, msg));
      system := Apply(system, Send(t, msg));
      if closing {
        ClosingSeals(system);
        return false;
      }
      jobs := jobs + 1;
      return true;
    }

    /** A whole send, when nothing else happens meanwhile: the message is the last one queued, or it is freed. */
    method SendMessage(ghost t: nat, ghost msg: Msg) returns (code: Code)
      requires Valid() && Enabled(system, Send(t, msg))
      modifies this
      ensures Valid() && At(system, t, Returned(SendCall, code))
      ensures code == if old(closing) then EPIPE else OK
      ensures code == OK ==> system.queue == old(system).queue + [msg] && system.freed[msg] == 0
      ensures code == EPIPE ==> system.queue == old(system).queue && system.freed[msg] == 1
    {
      var accepted := EnterJob(t, msg);
      if accepted {
        Observe(Enqueue(t));
        code := OK;
      } else {
        Observe(FreeRejected(t));
        code := EPIPE;
      }
      ReachableInv(system);
    }

    method MarkClosing(ghost t: nat)
      requires Valid() && Enabled(system, Stop(t))
      modifies this
      ensures Valid() && system == Apply(old(system), Stop(t)) && Sealed(system)
    {
      StepIsReachable(system, Stop(t));
      system := Apply(system, Stop(t));
      closing := true;
      ClosingSeals(system);
    }

    method MarkFailed()
      requires Valid() && JobAt(system, Ended(true))
      modifies this
      ensures Valid() && system == Apply(old(system), JobMark) && Sealed(system) && Doomed(system)
    {
      StepIsReachable(system, JobMark);
      system := Apply(system, JobMark);
      failed := true;
      closing := true;
      ClosingSeals(system);
      FailureDooms(system);
    }

    /** The job leaves the group: the counter stays the number of accepted jobs that have not left. */
    method LeaveJob()
      requires Valid() && Enabled(system, JobLeave)
      modifies this
      ensures Valid() && system == Apply(old(system), JobLeave)
      ensures jobs == |system.outstanding| && old(system).running.value.msg !in system.outstanding
    {
      ReachableInv(system);
      assert system.running.value.msg in system.outstanding;
      StepIsReachable(system, JobLeave);
      system := Apply(system, JobLeave);
      jobs := jobs - 1;
    }

    method BeginJoin(ghost t: nat) returns (known: Option<Code>)
      requires Valid() && Enabled(system, Join(t))
      modifies this
      ensures Valid() && system == Apply(old(system), Join(t)) && Sealed(system)
      ensures known.Some? ==> system.outstanding == {} && known.value == Outcome(system) && t in JoinsDone(system)
      ensures known.None? ==> owner && system.closes == 0 && At(system, t, Waiting)
    {
      StepIsReachable(system, Join(t));
      system := Apply(system, Join(t));
      if joined {
        JoinedOutcome(system);
        ClosingSeals(system);
        return Some(joinResult);
      }
      closing := true;
      ClosingSeals(system);
      return None;
    }

    method EndJoin(ghost t: nat) returns (result: Code, taken: bool)
      requires Valid() && Enabled(system, Finish(t))
      modifies this
      ensures Valid() && system == Apply(old(system), Finish(t)) && Sealed(system)
      ensures system.outstanding == {} && result == Outcome(system)
      ensures taken <==> old(owner)
      ensures taken ==> !owner && system.closes == 0 && At(system, t, Closing(result))
      ensures !taken ==> t in JoinsDone(system)
    {
      StepIsReachable(system, Finish(t));
      system := Apply(system, Finish(t));
      taken := false;
      if !joined {
        joined := true;
        joinResult := if failed then EIO else OK;
        taken := owner;
        owner := false;
      }
      result := joinResult;
      assert if taken then At(system, t, Closing(result)) else At(system, t, Returned(JoinCall(false), result));
      JoinedOutcome(system);
      CloserIsFirst(system, t);
      ClosingSeals(system);
    }
  }
}
