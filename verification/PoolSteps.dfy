/** The thread pool, its waitable priority queue and the handshake that shuts threads down, as
    atomic steps of any number of pushing threads, any number of workers, and the one thread that
    calls resize. The pool only shrinks here and is never suspended. */
module PoolSteps {
  import opened Base

  const SYSTEM := 3

  datatype Task = User(id: nat, priority: nat) | KillMe

  function Priority(t: Task): nat {
    if t.KillMe? then SYSTEM else t.priority
  }

  /** Where a worker is in thread_func. */
  datatype Pc =
    | Popping             // before or in the timed wait of pop
    | Taking              // the wait succeeded, the queue not yet locked
    | Running(task: Task) // a task in hand
    | Flagged             // its own flag is false, the kill semaphore not yet posted
    | Checking            // a task is done, the flag not yet read
    | Exited              // thread_func has returned
    | Reaped              // joined and erased

  /** Where the caller of resize is in kill_thread. */
  datatype Killer =
    | Idle
    | Pushed           // KillMe is in the queue, its semaphore not yet posted
    | Waiting          // before or in m_sem.wait
    | Scanning         // looking for the false flag
    | Found(w: nat)    // before join
    | Joined(w: nat)   // before both erasures

  /** History: how far the one KillMe of the round has come. */
  datatype Token =
    | Absent
    | InQueue
    | Held(w: nat)
    | Marked(w: nat)
    | Posted(w: nat)
    | Claimed(w: nat)

  datatype State = State(
    queue: multiset<Task>,    // PriorityQueue::m_queue
    sem: nat,                 // PriorityQueue::m_sem
    posting: nat,             // threads in push, between the insertion and the post
    pcs: seq<Pc>,             // the workers; a thread's id is its position
    threads: seq<nat>,        // m_threads_vec
    flags: map<nat, bool>,    // m_flags_map
    killSem: nat,             // ThreadPool::m_sem
    killer: Killer,
    left: nat,                // kills that decrement still has to do
    target: nat,              // history: the size asked for
    token: Token,             // history
    added: multiset<Task>,    // history
    executed: multiset<Task>) // history

  datatype Step =
    | Add(task: Task)
    | Post
    | Expire(w: nat)
    | Wait(w: nat)
    | Take(w: nat, task: Task)
    | Execute(w: nat)
    | SetFlag(w: nat)
    | PostKill(w: nat)
    | Check(w: nat)
    | Resize(size: nat)
    | StartKill
    | FinishPush
    | Await
    | Scan(w: nat)
    | Join(w: nat)
    | Erase

  /** The pool as its constructor leaves it. */
  function Init(n: nat): State {
    var ids := seq(n, k requires 0 <= k < n => k);
    State(multiset{}, 0, 0, seq(n, _ => Popping), ids, map k | k in ids :: true, 0, Idle, 0, n, Absent,
          multiset{}, multiset{})
  }

  predicate Top(queue: multiset<Task>, t: Task) {
    t in queue && forall u :: u in queue ==> Priority(u) <= Priority(t)
  }

  predicate Enabled(s: State, step: Step) {
    match step
    case Add(task) => task.User? && task.priority < SYSTEM
    case Post => s.posting > 0
    case Expire(w) => w < |s.pcs| && s.pcs[w].Popping?
    case Wait(w) => w < |s.pcs| && s.pcs[w].Popping? && s.sem > 0
    case Take(w, task) => w < |s.pcs| && s.pcs[w].Taking? && Top(s.queue, task)
    case Execute(w) => w < |s.pcs| && s.pcs[w].Running? && s.pcs[w].task.User?
    case SetFlag(w) => w < |s.pcs| && s.pcs[w] == Running(KillMe)
    case PostKill(w) => w < |s.pcs| && s.pcs[w].Flagged?
    case Check(w) => w < |s.pcs| && s.pcs[w].Checking?
    case Resize(size) => s.killer.Idle? && s.left == 0 && size <= |s.threads|
    case StartKill => s.killer.Idle? && s.left > 0
    case FinishPush => s.killer.Pushed?
    case Await => s.killer.Waiting? && s.killSem > 0
    case Scan(w) => s.killer.Scanning? && w in s.flags && !s.flags[w]
    case Join(w) => s.killer == Found(w) && w < |s.pcs| && (w in s.threads ==> s.pcs[w].Exited?)
    case Erase => s.killer.Joined? && s.killer.w < |s.pcs|
  }

  /** A vector without one thread. */
  function Drop(threads: seq<nat>, w: nat): seq<nat> {
    if threads == [] then [] else if threads[0] == w then threads[1..] else [threads[0]] + Drop(threads[1..], w)
  }

  function DoTake(s: State, w: nat, task: Task): State
    requires w < |s.pcs|
  {
    s.(queue := s.queue - multiset{task}, pcs := s.pcs[w := Running(task)],
       token := if task.KillMe? then Held(w) else s.token)
  }

  function DoErase(s: State, w: nat): State
    requires w < |s.pcs| && s.left > 0
  {
    s.(threads := Drop(s.threads, w), flags := s.flags - {w}, pcs := s.pcs[w := Reaped],
       killer := Idle, token := Absent, left := s.left - 1)
  }

  function Apply(s: State, step: Step): State
    requires Enabled(s, step)
  {
    match step
    case Add(task) => s.(queue := s.queue + multiset{task}, posting := s.posting + 1, added := s.added + multiset{task})
    case Post => s.(posting := s.posting - 1, sem := s.sem + 1)
    case Expire(_) => s
    case Wait(w) => s.(sem := s.sem - 1, pcs := s.pcs[w := Taking])
    case Take(w, task) => DoTake(s, w, task)
    case Execute(w) => s.(pcs := s.pcs[w := Checking], executed := s.executed + multiset{s.pcs[w].task})
    case SetFlag(w) =>
      s.(flags := if w in s.flags then s.flags[w := false] else s.flags, pcs := s.pcs[w := Flagged],
         token := Marked(w), executed := s.executed + multiset{KillMe})
    case PostKill(w) => s.(killSem := s.killSem + 1, pcs := s.pcs[w := Checking], token := Posted(w))
    case Check(w) => s.(pcs := s.pcs[w := if w in s.flags && s.flags[w] then Popping else Exited])
    case Resize(size) => s.(left := |s.threads| - size, target := size)
    case StartKill =>
      if s.threads == [] then s.(left := s.left - 1)
      else s.(queue := s.queue + multiset{KillMe}, added := s.added + multiset{KillMe}, killer := Pushed,
            token := InQueue)
    case FinishPush => s.(sem := s.sem + 1, killer := Waiting)
    case Await =>
      s.(killSem := s.killSem - 1, killer := Scanning, token := if s.token.Posted? then Claimed(s.token.w) else s.token)
    case Scan(w) => s.(killer := Found(w))
    case Join(w) =>
      if w in s.threads then s.(killer := Joined(w))
      else s.(killer := Idle, left := if s.left > 0 then s.left - 1 else 0)
    case Erase => if s.left > 0 then DoErase(s, s.killer.w) else s
  }

  predicate Legal(n: nat, steps: seq<Step>)
    decreases |steps|, 0
  {
    steps == [] || (Legal(n, steps[..|steps| - 1]) && Enabled(Run(n, steps[..|steps| - 1]), steps[|steps| - 1]))
  }

  function Run(n: nat, steps: seq<Step>): State
    requires Legal(n, steps)
    decreases |steps|, 1
  {
    if steps == [] then Init(n) else Apply(Run(n, steps[..|steps| - 1]), steps[|steps| - 1])
  }

  lemma LastStep(n: nat, steps: seq<Step>)
    requires Legal(n, steps) && steps != []
    ensures Legal(n, steps[..|steps| - 1]) && Enabled(Run(n, steps[..|steps| - 1]), steps[|steps| - 1])
    ensures Run(n, steps) == Apply(Run(n, steps[..|steps| - 1]), steps[|steps| - 1])
  {
  }

  // ----------------------------------------------------------------- tallies

  /** The sum of a weight over all workers. */
  function Tally(weight: Pc -> nat, pcs: seq<Pc>): nat {
    if pcs == [] then 0 else weight(pcs[0]) + Tally(weight, pcs[1..])
  }

  lemma {:induction false} TallyUpdate(weight: Pc -> nat, pcs: seq<Pc>, w: nat, pc: Pc)
    requires w < |pcs|
    ensures Tally(weight, pcs[w := pc]) == Tally(weight, pcs) - weight(pcs[w]) + weight(pc)
  {
    if w == 0 {
      assert pcs[w := pc][1..] == pcs[1..];
    } else {
      TallyUpdate(weight, pcs[1..], w - 1, pc);
      assert pcs[w := pc][1..] == pcs[1..][w - 1 := pc];
    }
  }

  lemma {:induction false} TallyAtLeast(weight: Pc -> nat, pcs: seq<Pc>, w: nat)
    requires w < |pcs|
    ensures weight(pcs[w]) <= Tally(weight, pcs)
  {
    if w > 0 {
      TallyAtLeast(weight, pcs[1..], w - 1);
    }
  }

  lemma {:induction false} TallyNone(weight: Pc -> nat, n: nat)
    requires weight(Popping) == 0
    ensures Tally(weight, seq(n, _ => Popping)) == 0
  {
    if n > 0 {
      TallyNone(weight, n - 1);
      assert seq(n, _ => Popping)[1..] == seq(n - 1, _ => Popping);
    }
  }

  function IsTaking(pc: Pc): nat {
    if pc.Taking? then 1 else 0
  }

  function Takers(s: State): nat {
    Tally(IsTaking, s.pcs)
  }

  function Carries(t: Task): Pc -> nat {
    pc => if pc == Running(t) then 1 else 0
  }

  /** How many workers have task t in hand. */
  function InHand(pcs: seq<Pc>, t: Task): nat {
    Tally(Carries(t), pcs)
  }

  // -------------------------------------------------------------- invariants

  /** The semaphore counts the queue: every element is paid for by a unit of the semaphore, by a
      worker that has waited and not yet taken, or by a pusher that has not yet posted. */
  predicate Counted(s: State) {
    |s.queue| == s.sem + Takers(s) + s.posting + if s.killer.Pushed? then 1 else 0
  }

  /** However often a task was added, so often it is waiting, in hand, or executed. */
  predicate ConservedFor(s: State, t: Task) {
    s.added[t] == s.queue[t] + InHand(s.pcs, t) + s.executed[t]
  }

  ghost predicate Conserved(s: State) {
    forall t :: ConservedFor(s, t)
  }

  predicate Distinct(threads: seq<nat>) {
    forall j, k :: 0 <= j < k < |threads| ==> threads[j] != threads[k]
  }

  /** The vector, the flag map and the live threads are the same threads. */
  ghost predicate Matched(s: State) {
    && Distinct(s.threads)
    && (forall w: nat :: w in s.threads <==> w < |s.pcs| && !s.pcs[w].Reaped?)
    && (forall w: nat :: w in s.flags <==> w in s.threads)
  }

  /** The queue holds the one KillMe of the round exactly while no worker has taken it; everything
      else in it has a lower priority. */
  predicate QueueFits(s: State) {
    && s.queue[KillMe] == (if s.token.InQueue? then 1 else 0)
    && s.killSem == (if s.token.Posted? then 1 else 0)
    && (forall t :: t in s.queue && t.User? ==> t.priority < SYSTEM)
  }

  predicate Condemned(w: nat, token: Token) {
    token == Marked(w) || token == Posted(w) || token == Claimed(w)
  }

  /** One worker's place, given how far the KillMe has come. */
  predicate PcFits(pc: Pc, w: nat, token: Token) {
    && (pc == Running(KillMe) <==> token == Held(w))
    && (pc.Flagged? <==> token == Marked(w))
    && (pc.Exited? ==> token == Posted(w) || token == Claimed(w))
    && (token == Posted(w) || token == Claimed(w) ==> pc.Checking? || pc.Exited?)
  }

  predicate WorkersFit(s: State) {
    && (forall w :: 0 <= w < |s.pcs| ==> PcFits(s.pcs[w], w, s.token))
    && (s.token.Held? || s.token.Marked? || s.token.Posted? || s.token.Claimed? ==> s.token.w < |s.pcs|)
  }

  /** At most one flag is false: that of the thread which took the KillMe. */
  predicate FlagsFit(s: State) {
    forall w :: w in s.flags ==> (!s.flags[w] <==> Condemned(w, s.token))
  }

  /** How the killer and the KillMe stand to each other, and how many kills are left. */
  predicate Paced(s: State) {
    && s.left <= |s.threads| && |s.threads| - s.left == s.target
    && (s.killer.Idle? <==> s.token.Absent?)
    && (!s.killer.Idle? ==> s.left > 0)
    && (s.token.Claimed? <==> s.killer.Scanning? || s.killer.Found? || s.killer.Joined?)
    && (s.killer.Found? || s.killer.Joined? ==> s.killer.w == s.token.w)
    && (s.killer.Joined? ==> s.killer.w < |s.pcs| && s.pcs[s.killer.w].Exited?)
  }

  /** Once the killer has posted, a worker can always go on to take the KillMe. */
  predicate Paid(s: State) {
    s.killer.Waiting? && s.token.InQueue? ==> s.sem + Takers(s) > 0
  }

  ghost predicate Inv(s: State) {
    && Counted(s) && Conserved(s) && Matched(s) && QueueFits(s) && WorkersFit(s) && FlagsFit(s) && Paced(s)
    && Paid(s)
  }

  lemma InitInv(n: nat)
    ensures Inv(Init(n))
  {
    TallyNone(IsTaking, n);
    var s := Init(n);
    forall t
      ensures ConservedFor(s, t)
    {
      TallyNone(Carries(t), n);
    }
    forall w: nat
      ensures w in s.threads <==> w < n
    {
      if w < n {
        assert s.threads[w] == w;
      }
    }
  }

  lemma {:induction false} DropIn(threads: seq<nat>, w: nat)
    requires Distinct(threads)
    ensures Distinct(Drop(threads, w)) && forall v :: v in Drop(threads, w) <==> v in threads && v != w
    ensures |Drop(threads, w)| == |threads| - if w in threads then 1 else 0
  {
    if threads != [] {
      var rest := threads[1..];
      assert forall v :: v in threads <==> v == threads[0] || v in rest;
      DropIn(rest, w);
      assert threads[0] !in rest;
    }
  }

  /** The worker a step moves. */
  function Mover(s: State, step: Step): Option<nat> {
    match step
    case Wait(w) => Some(w)
    case Take(w, _) => Some(w)
    case Execute(w) => Some(w)
    case SetFlag(w) => Some(w)
    case PostKill(w) => Some(w)
    case Check(w) => Some(w)
    case Erase => if s.killer.Joined? && s.left > 0 then Some(s.killer.w) else None
    case _ => None
  }

  lemma StepTallies(s: State, step: Step, weight: Pc -> nat)
    requires Enabled(s, step)
    ensures var s' := Apply(s, step);
            match Mover(s, step)
            case None => s'.pcs == s.pcs
            case Some(w) =>
              && w < |s.pcs| && |s'.pcs| == |s.pcs| && s'.pcs == s.pcs[w := s'.pcs[w]]
              && Tally(weight, s'.pcs) == Tally(weight, s.pcs) - weight(s.pcs[w]) + weight(s'.pcs[w])
  {
    hide Top, Tally, Drop;
    var s' := Apply(s, step);
    if Mover(s, step).Some? {
      var w := Mover(s, step).value;
      TallyUpdate(weight, s.pcs, w, s'.pcs[w]);
    }
  }

  lemma StepCounts(s: State, step: Step)
    requires Inv(s) && Enabled(s, step)
    ensures Counted(Apply(s, step))
  {
    hide Drop, Conserved, Matched, WorkersFit, FlagsFit, QueueFits, Paid, Top;
    StepTallies(s, step, IsTaking);
    hide Tally;
    if step.Take? {
      TopIsIn(s.queue, step.task);
      Smaller(s.queue, step.task);
    }
  }

  lemma Smaller(queue: multiset<Task>, t: Task)
    requires t in queue
    ensures |queue - multiset{t}| == |queue| - 1
  {
  }

  lemma TakeConserves(s: State, w: nat, task: Task, t: Task)
    requires Conserved(s) && Enabled(s, Take(w, task))
    ensures ConservedFor(Apply(s, Take(w, task)), t)
  {
    assert ConservedFor(s, t);
    StepTallies(s, Take(w, task), Carries(t));
    TopIsIn(s.queue, task);
    hide Tally, Top, Conserved;
  }

  lemma HandsConserve(s: State, step: Step, t: Task)
    requires Inv(s) && Enabled(s, step) && !step.Take? && Mover(s, step).Some?
    ensures ConservedFor(Apply(s, step), t)
  {
    assert ConservedFor(s, t);
    StepTallies(s, step, Carries(t));
    NoHandChanges(s, step, t);
    assert Apply(s, step).added == s.added && Apply(s, step).queue == s.queue;
    hide Apply, Carries, Inv, Enabled, Tally, Mover;
  }

  lemma StepConserves(s: State, step: Step, t: Task)
    requires Inv(s) && Enabled(s, step)
    ensures ConservedFor(Apply(s, step), t)
  {
    if step.Take? {
      TakeConserves(s, step.w, step.task, t);
    } else if Mover(s, step).Some? {
      HandsConserve(s, step, t);
    } else {
      assert ConservedFor(s, t);
      StepTallies(s, step, Carries(t));
      hide Tally, Carries, Drop, Inv, Top;
    }
  }

  /** A worker picks a task up only in Take, and puts it down only by executing it. */
  lemma NoHandChanges(s: State, step: Step, t: Task)
    requires Inv(s) && Enabled(s, step) && !step.Take?
    ensures Mover(s, step).Some? ==>
              var w := Mover(s, step).value;
              && w < |s.pcs| && w < |Apply(s, step).pcs| && Carries(t)(Apply(s, step).pcs[w]) == 0
              && Carries(t)(s.pcs[w]) + s.executed[t] == Apply(s, step).executed[t]
  {
    hide Tally, Drop, Counted, Conserved, Matched, QueueFits, WorkersFit, FlagsFit, Paid;
  }

  lemma TopIsIn(queue: multiset<Task>, t: Task)
    requires Top(queue, t)
    ensures t in queue
  {
  }

  lemma NobodyLeaves(s: State, step: Step, w: nat)
    requires Enabled(s, step) && !step.Erase? && w < |s.pcs|
    ensures |Apply(s, step).pcs| == |s.pcs| && (Apply(s, step).pcs[w].Reaped? <==> s.pcs[w].Reaped?)
  {
    hide Top, Drop;
    if Mover(s, step).Some? {
      var v := Mover(s, step).value;
      assert Apply(s, step).pcs == s.pcs[v := Apply(s, step).pcs[v]];
      assert !s.pcs[v].Reaped? && !Apply(s, step).pcs[v].Reaped?;
      hide Apply, Enabled, Mover;
    } else {
      assert Apply(s, step).pcs == s.pcs;
    }
  }

  lemma FlagStays(s: State, step: Step, w: nat)
    requires Enabled(s, step) && !step.Erase?
    ensures w in Apply(s, step).flags <==> w in s.flags
  {
    hide Top;
  }

  lemma ThreadsStay(s: State, step: Step)
    requires Enabled(s, step) && !step.Erase?
    ensures Apply(s, step).threads == s.threads
  {
    hide Top;
  }

  /** Only Erase changes which threads there are. */
  lemma StepStays(s: State, step: Step)
    requires Enabled(s, step) && !step.Erase?
    ensures var s' := Apply(s, step);
            && s'.threads == s.threads && |s'.pcs| == |s.pcs|
            && (forall w: nat :: w in s'.flags <==> w in s.flags)
            && forall w :: 0 <= w < |s.pcs| ==> (s'.pcs[w].Reaped? <==> s.pcs[w].Reaped?)
  {
    ThreadsStay(s, step);
    assert |Apply(s, step).pcs| == |s.pcs|;
    hide Apply, Enabled;
    forall w: nat
      ensures w in Apply(s, step).flags <==> w in s.flags
    {
      FlagStays(s, step, w);
    }
    forall w | 0 <= w < |s.pcs|
      ensures Apply(s, step).pcs[w].Reaped? <==> s.pcs[w].Reaped?
    {
      NobodyLeaves(s, step, w);
    }
  }

  lemma StepMatches(s: State, step: Step)
    requires Inv(s) && Enabled(s, step)
    ensures Matched(Apply(s, step))
  {
    hide Drop, Counted, Conserved, Top, QueueFits, FlagsFit, WorkersFit, Paid;
    if step.Erase? {
      DropIn(s.threads, s.killer.w);
      hide Distinct;
    } else {
      StepStays(s, step);
      hide Apply, Enabled, Paced, Distinct;
    }
  }

  predicate ByKiller(step: Step) {
    step.Resize? || step.StartKill? || step.FinishPush? || step.Await? || step.Scan? || step.Join? || step.Erase?
  }

  lemma StepFitsQueue(s: State, step: Step)
    requires Inv(s) && Enabled(s, step)
    ensures QueueFits(Apply(s, step))
  {
    hide Tally, InHand, Drop, Counted, Conserved, Matched, FlagsFit, Paid;
  }

  lemma KillerFitsWorkers(s: State, step: Step)
    requires Inv(s) && Enabled(s, step) && ByKiller(step)
    ensures WorkersFit(Apply(s, step))
  {
    hide Drop, Matched, FlagsFit, Counted, Conserved, Paid;
  }

  lemma OthersFitWorkers(s: State, step: Step)
    requires Inv(s) && Enabled(s, step) && !ByKiller(step)
    ensures WorkersFit(Apply(s, step))
  {
    hide Drop, Matched, FlagsFit, Counted, Conserved, Paid, Paced, Top;
    if step.Take? {
      TopIsIn(s.queue, step.task);
    } else if step.Check? {
      FlagTells(s, step.w);
    }
  }

  lemma StepFitsWorkers(s: State, step: Step)
    requires Inv(s) && Enabled(s, step)
    ensures WorkersFit(Apply(s, step))
  {
    if ByKiller(step) {
      KillerFitsWorkers(s, step);
    } else {
      OthersFitWorkers(s, step);
    }
  }

  /** A worker that comes to read its flag finds it, and finds it false exactly if it took the
      KillMe: its thread is joined before its flag is erased. */
  lemma FlagTells(s: State, w: nat)
    requires Inv(s) && w < |s.pcs| && !s.pcs[w].Reaped?
    ensures w in s.flags && (s.flags[w] <==> !Condemned(w, s.token))
  {
    hide Counted, Conserved, QueueFits, WorkersFit, Paced, Paid;
  }

  lemma KillerFitsFlags(s: State, step: Step)
    requires Inv(s) && Enabled(s, step) && ByKiller(step)
    ensures FlagsFit(Apply(s, step))
  {
    hide Drop, Matched, WorkersFit, Counted, Conserved, Paid;
  }

  lemma OthersFitFlags(s: State, step: Step)
    requires Inv(s) && Enabled(s, step) && !ByKiller(step)
    ensures FlagsFit(Apply(s, step))
  {
    hide Drop, Matched, Counted, Conserved, Paid, Paced, Top;
    if step.Take? {
      TopIsIn(s.queue, step.task);
    }
  }

  lemma StepFitsFlags(s: State, step: Step)
    requires Inv(s) && Enabled(s, step)
    ensures FlagsFit(Apply(s, step))
  {
    if ByKiller(step) {
      KillerFitsFlags(s, step);
    } else {
      OthersFitFlags(s, step);
    }
  }

  lemma FlagFalse(s: State, w: nat)
    requires FlagsFit(s) && w in s.flags && !s.flags[w]
    ensures Condemned(w, s.token)
  {
  }

  lemma ErasePaces(s: State)
    requires Matched(s) && Paced(s) && Enabled(s, Erase)
    ensures Paced(Apply(s, Erase))
  {
    DropIn(s.threads, s.killer.w);
  }

  lemma SearchPaces(s: State, step: Step)
    requires Inv(s) && Enabled(s, step) && (step.Scan? || step.Join?)
    ensures Paced(Apply(s, step))
  {
    hide Counted, Conserved, Paid, QueueFits;
    if step.Scan? {
      FlagFalse(s, step.w);
      hide Matched;
    } else {
      assert PcFits(s.pcs[step.w], step.w, s.token);
    }
    hide FlagsFit, WorkersFit;
  }

  lemma AskPaces(s: State, step: Step)
    requires QueueFits(s) && WorkersFit(s) && Paced(s) && Enabled(s, step)
    requires step.Resize? || step.StartKill? || step.FinishPush? || step.Await?
    ensures Paced(Apply(s, step))
  {
  }

  lemma KillerPaces(s: State, step: Step)
    requires Inv(s) && Enabled(s, step) && ByKiller(step)
    ensures Paced(Apply(s, step))
  {
    if step.Scan? || step.Join? {
      SearchPaces(s, step);
    } else if step.Erase? {
      ErasePaces(s);
    } else {
      AskPaces(s, step);
    }
  }

  lemma OthersPace(s: State, step: Step)
    requires Inv(s) && Enabled(s, step) && !ByKiller(step)
    ensures Paced(Apply(s, step))
  {
    hide Counted, Conserved, Matched, Paid, Drop, FlagsFit, Top;
    if step.Take? {
      TopIsIn(s.queue, step.task);
    }
  }

  lemma StepPaces(s: State, step: Step)
    requires Inv(s) && Enabled(s, step)
    ensures Paced(Apply(s, step))
  {
    if ByKiller(step) {
      KillerPaces(s, step);
    } else {
      OthersPace(s, step);
    }
  }

  lemma StepPays(s: State, step: Step)
    requires Inv(s) && Enabled(s, step)
    ensures Paid(Apply(s, step))
  {
    hide Tally, InHand, Drop, Counted, Conserved, Matched, WorkersFit, FlagsFit;
    StepTallies(s, step, IsTaking);
  }

  lemma StepKeeps(s: State, step: Step)
    requires Inv(s) && Enabled(s, step)
    ensures Inv(Apply(s, step))
  {
    StepCounts(s, step);
    StepMatches(s, step);
    StepFitsQueue(s, step);
    StepFitsWorkers(s, step);
    StepFitsFlags(s, step);
    StepPaces(s, step);
    StepPays(s, step);
    hide Apply, Enabled, Counted, ConservedFor, Matched, QueueFits, WorkersFit, FlagsFit, Paced, Paid;
    forall t
      ensures ConservedFor(Apply(s, step), t)
    {
      StepConserves(s, step, t);
    }
  }

  lemma {:induction false} RunKeeps(n: nat, steps: seq<Step>)
    requires Legal(n, steps)
    ensures Inv(Run(n, steps))
  {
    if steps == [] {
      InitInv(n);
    } else {
      LastStep(n, steps);
      RunKeeps(n, steps[..|steps| - 1]);
      hide *;
      StepKeeps(Run(n, steps[..|steps| - 1]), steps[|steps| - 1]);
    }
  }
}
