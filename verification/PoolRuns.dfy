/** What holds of every run of the thread pool, for any number of threads and any interleaving. */
module PoolRuns {
  import opened PoolSteps

  lemma {:induction false} LegalPrefix(n: nat, steps: seq<Step>, k: nat)
    requires Legal(n, steps) && k <= |steps|
    ensures Legal(n, steps[..k])
    ensures k < |steps| ==> Enabled(Run(n, steps[..k]), steps[k])
  {
    if k == |steps| {
      assert steps[..k] == steps;
    } else {
      LastStep(n, steps);
      var before := steps[..|steps| - 1];
      if k < |before| {
        LegalPrefix(n, before, k);
        assert before[..k] == steps[..k];
      }
    }
  }

  lemma Extend(n: nat, steps: seq<Step>, step: Step)
    requires Legal(n, steps) && Enabled(Run(n, steps), step)
    ensures Legal(n, steps + [step]) && Run(n, steps + [step]) == Apply(Run(n, steps), step)
  {
    assert (steps + [step])[..|steps|] == steps;
  }

  // ------------------------------------------------------------------ the queue

  lemma {:induction false} MaximalTask(queue: multiset<Task>) returns (t: Task)
    requires queue != multiset{}
    ensures Top(queue, t)
    decreases |queue|
  {
    t :| t in queue;
    var rest := queue - multiset{t};
    assert forall v :: v in queue ==> v == t || v in rest;
    if rest != multiset{} {
      var u := MaximalTask(rest);
      t := if Priority(t) < Priority(u) then u else t;
    }
  }

  /** With any number of pushers and poppers, and timeouts at any moment: the queue holds as many
      elements as the semaphore, the poppers past the wait and the pushers before the post account
      for, so a popper past the wait always finds an element to take. */
  lemma NoEmptyTake(n: nat, steps: seq<Step>)
    requires Legal(n, steps)
    ensures var s := Run(n, steps);
            |s.queue| == s.sem + Takers(s) + s.posting + if s.killer.Pushed? then 1 else 0
    ensures var s := Run(n, steps);
            forall w :: 0 <= w < |s.pcs| && s.pcs[w].Taking? ==> exists t :: Enabled(s, Take(w, t))
  {
    RunKeeps(n, steps);
    var s := Run(n, steps);
    hide Run, Legal, Conserved, Matched, QueueFits, WorkersFit, FlagsFit, Paced, Paid;
    forall w | 0 <= w < |s.pcs| && s.pcs[w].Taking?
      ensures exists t :: Enabled(s, Take(w, t))
    {
      TallyAtLeast(IsTaking, s.pcs, w);
      assert |s.queue| > 0;
      var t := MaximalTask(s.queue);
      assert Enabled(s, Take(w, t));
    }
  }

  /** While a KillMe waits, no take returns anything else. */
  lemma KillMeGoesFirst(n: nat, steps: seq<Step>, w: nat, t: Task)
    requires Legal(n, steps) && KillMe in Run(n, steps).queue && Enabled(Run(n, steps), Take(w, t))
    ensures t == KillMe
  {
    RunKeeps(n, steps);
  }

  /** No task is lost or executed more often than it was added. */
  lemma TasksConserved(n: nat, steps: seq<Step>, t: Task)
    requires Legal(n, steps)
    ensures var s := Run(n, steps);
            s.added[t] == s.queue[t] + InHand(s.pcs, t) + s.executed[t]
  {
    RunKeeps(n, steps);
    assert ConservedFor(Run(n, steps), t);
  }

  // ------------------------------------------------------------------ the flags

  /** The flags belong to exactly the threads in the vector, which are exactly the live ones. At most
      one flag is false; when kill_thread's wait has returned one is, so its scan stops in the map,
      at a thread that is in the vector. */
  lemma OneFalseFlag(n: nat, steps: seq<Step>)
    requires Legal(n, steps)
    ensures var s := Run(n, steps);
            && Distinct(s.threads)
            && (forall w: nat :: w in s.flags <==> w in s.threads)
            && (forall w: nat :: w in s.threads <==> w < |s.pcs| && !s.pcs[w].Reaped?)
            && (forall v, w :: v in s.flags && w in s.flags && !s.flags[v] && !s.flags[w] ==> v == w)
            && (s.killer.Scanning? ==> exists w :: w in s.threads && w in s.flags && !s.flags[w])
            && (s.killer.Idle? ==> forall w :: w in s.flags ==> s.flags[w])
  {
    RunKeeps(n, steps);
    var s := Run(n, steps);
    hide Run, Legal, Counted, Conserved, QueueFits, Paid;
    if s.killer.Scanning? {
      assert s.token.w in s.threads && !s.flags[s.token.w];
    }
  }

  /** A worker about to look its flag up, to clear it or to read it, finds it. */
  lemma FlagIsThere(n: nat, steps: seq<Step>, w: nat)
    requires Legal(n, steps) && (Enabled(Run(n, steps), SetFlag(w)) || Enabled(Run(n, steps), Check(w)))
    ensures w in Run(n, steps).flags
  {
    RunKeeps(n, steps);
    hide Run, Legal, Inv;
    FlagTells(Run(n, steps), w);
  }

  // ------------------------------------------------------------- killed workers

  /** A worker that has taken its KillMe, or is gone. */
  predicate Doomed(s: State, w: nat) {
    w < |s.pcs| && (s.pcs[w].Reaped? || Condemned(w, s.token))
  }

  lemma StaysDoomed(s: State, step: Step, w: nat)
    requires Inv(s) && Enabled(s, step) && Doomed(s, w)
    ensures Doomed(Apply(s, step), w)
    ensures step != Wait(w) && step != Execute(w) && (step.Take? ==> step.w != w)
  {
    hide Counted, Conserved, FlagsFit, Paid, Drop;
    assert PcFits(s.pcs[w], w, s.token);
    hide Matched;
  }

  lemma FlagDooms(s: State, w: nat)
    requires Enabled(s, SetFlag(w))
    ensures Doomed(Apply(s, SetFlag(w)), w)
  {
  }

  lemma {:induction false} DoomedSince(n: nat, steps: seq<Step>, j: nat, w: nat)
    requires Legal(n, steps) && j < |steps| && steps[j] == SetFlag(w)
    ensures Doomed(Run(n, steps), w)
  {
    hide *;
    LastStep(n, steps);
    var before := steps[..|steps| - 1];
    RunKeeps(n, before);
    if j < |before| {
      DoomedSince(n, before, j, w);
      StaysDoomed(Run(n, before), steps[|steps| - 1], w);
    } else {
      FlagDooms(Run(n, before), w);
    }
  }

  /** After its KillMe a worker waits for no task, takes none and executes none. */
  lemma KilledTakesNoTask(n: nat, steps: seq<Step>, j: nat, k: nat, w: nat)
    requires Legal(n, steps) && j < k < |steps| && steps[j] == SetFlag(w)
    ensures steps[k] != Wait(w) && steps[k] != Execute(w) && (steps[k].Take? ==> steps[k].w != w)
  {
    hide *;
    LegalPrefix(n, steps, k);
    DoomedSince(n, steps[..k], j, w);
    RunKeeps(n, steps[..k]);
    StaysDoomed(Run(n, steps[..k]), steps[k], w);
  }

  predicate WasJoined(s: State, w: nat) {
    s.killer == Joined(w) || (w < |s.pcs| && s.pcs[w].Reaped?)
  }

  lemma StaysJoined(s: State, step: Step, w: nat)
    requires Inv(s) && Enabled(s, step) && WasJoined(s, w)
    ensures WasJoined(Apply(s, step), w) && step != Join(w)
  {
    hide Counted, Conserved, FlagsFit, QueueFits, Paid, Matched;
    assert step != Join(w) by {
      assert w < |s.pcs| ==> PcFits(s.pcs[w], w, s.token);
    }
    hide Inv, WorkersFit;
    if s.killer == Joined(w) {
      hide Drop, Top;
    } else if !step.Erase? {
      NobodyLeaves(s, step, w);
      hide Apply, Enabled;
    }
  }

  lemma JoinJoins(s: State, w: nat)
    requires Inv(s) && Enabled(s, Join(w))
    ensures WasJoined(Apply(s, Join(w)), w)
  {
    hide Counted, Conserved, FlagsFit, QueueFits, Paid;
    assert PcFits(s.pcs[w], w, s.token);
  }

  lemma {:induction false} JoinedSince(n: nat, steps: seq<Step>, j: nat, w: nat)
    requires Legal(n, steps) && j < |steps| && steps[j] == Join(w)
    ensures WasJoined(Run(n, steps), w)
  {
    hide *;
    LastStep(n, steps);
    var before := steps[..|steps| - 1];
    RunKeeps(n, before);
    if j < |before| {
      JoinedSince(n, before, j, w);
      StaysJoined(Run(n, before), steps[|steps| - 1], w);
    } else {
      JoinJoins(Run(n, before), w);
    }
  }

  /** No thread is joined twice. */
  lemma JoinedOnce(n: nat, steps: seq<Step>, j: nat, k: nat, w: nat)
    requires Legal(n, steps) && j < k < |steps| && steps[j] == Join(w)
    ensures steps[k] != Join(w)
  {
    hide *;
    LegalPrefix(n, steps, k);
    JoinedSince(n, steps[..k], j, w);
    RunKeeps(n, steps[..k]);
    StaysJoined(Run(n, steps[..k]), steps[k], w);
  }

  /** When resize has nothing left to do the pool has the size asked for; after resize(0) there is no
      thread and no flag, and every worker has been joined. */
  lemma ResizeReachesItsTarget(n: nat, steps: seq<Step>)
    requires Legal(n, steps) && Run(n, steps).left == 0
    ensures var s := Run(n, steps);
            && |s.threads| == s.target
            && (s.target == 0 ==> s.flags == map[] && forall w :: 0 <= w < |s.pcs| ==> s.pcs[w].Reaped?)
  {
    RunKeeps(n, steps);
    var s := Run(n, steps);
    hide Run, Legal;
    assert Matched(s);
    if s.target == 0 {
      assert forall w: nat :: w !in s.threads;
    }
  }

  // ------------------------------------------------------------------- progress

  /** How many of its own steps a worker can make before it takes the waiting KillMe. */
  function Rank(pc: Pc): nat {
    match pc
    case Taking => 1
    case Popping => 2
    case Checking => 3
    case Running(_) => 4
    case _ => 0
  }

  function TokenRank(s: State): nat {
    match s.token
    case Absent => 0
    case InQueue => 5 + Tally(Rank, s.pcs)
    case Held(_) => 4
    case Marked(_) => 3
    case Posted(w) => if w < |s.pcs| && s.pcs[w].Checking? then 2 else 1
    case Claimed(w) => if w < |s.pcs| && s.pcs[w].Checking? then 2 else 1
  }

  function KillerRank(k: Killer): nat {
    match k
    case Idle => 0
    case Pushed => 5
    case Waiting => 4
    case Scanning => 3
    case Found(_) => 2
    case Joined(_) => 1
  }

  /** More than one round can cost. */
  function RoundCost(s: State): nat {
    11 + 4 * |s.pcs|
  }

  function Rounds(rounds: nat, cost: nat): nat {
    if rounds == 0 then 0 else cost + Rounds(rounds - 1, cost)
  }

  /** How many helpful steps the running resize can still take. */
  function Potential(s: State): nat {
    if s.killer.Idle? || s.left == 0 then Rounds(s.left, RoundCost(s))
    else Rounds(s.left - 1, RoundCost(s)) + KillerRank(s.killer) + TokenRank(s)
  }

  /** The steps that bring a running resize nearer to its end: those of the killer, those of the one
      worker that has the KillMe, and, while nobody has it, those of every worker. */
  predicate Helpful(s: State, step: Step) {
    if ByKiller(step) then !step.Resize?
    else
      Mover(s, step).Some?
      && (s.token.InQueue? || (!s.token.Absent? && Mover(s, step).value == s.token.w))
  }

  lemma {:induction false} RankBound(pcs: seq<Pc>)
    ensures Tally(Rank, pcs) <= 4 * |pcs|
  {
    if pcs != [] {
      RankBound(pcs[1..]);
    }
  }

  lemma TopBeatsAll(queue: multiset<Task>, t: Task)
    requires Top(queue, t) && KillMe in queue
    ensures Priority(t) >= SYSTEM
  {
  }

  /** While the KillMe waits, each worker's step brings that worker nearer to taking it. */
  lemma WorkersHelp(s: State, step: Step)
    requires QueueFits(s) && WorkersFit(s) && s.token.InQueue? && Enabled(s, step) && !ByKiller(step)
    ensures TokenRank(Apply(s, step)) + (if Helpful(s, step) then 1 else 0) <= TokenRank(s)
  {
    hide Tally, Top;
    StepTallies(s, step, Rank);
    if step.Take? {
      TopIsIn(s.queue, step.task);
      TopBeatsAll(s.queue, step.task);
    }
  }

  lemma HolderHelps(s: State, step: Step)
    requires QueueFits(s) && WorkersFit(s) && !s.token.InQueue? && Enabled(s, step) && !ByKiller(step)
    ensures TokenRank(Apply(s, step)) + (if Helpful(s, step) then 1 else 0) <= TokenRank(s)
  {
    hide Tally, Top;
    if step.Take? {
      TopIsIn(s.queue, step.task);
    }
  }

  lemma OthersLeaveKiller(s: State, step: Step)
    requires Enabled(s, step) && !ByKiller(step)
    ensures Apply(s, step).killer == s.killer && Apply(s, step).left == s.left && |Apply(s, step).pcs| == |s.pcs|
  {
    hide Top;
  }

  lemma OthersHelp(s: State, step: Step)
    requires Inv(s) && Enabled(s, step) && !ByKiller(step)
    ensures Apply(s, step).killer == s.killer && Apply(s, step).left == s.left && |Apply(s, step).pcs| == |s.pcs|
    ensures TokenRank(Apply(s, step)) + (if Helpful(s, step) then 1 else 0) <= TokenRank(s)
  {
    OthersLeaveKiller(s, step);
    hide Apply, Enabled, TokenRank, Helpful;
    if s.token.InQueue? {
      WorkersHelp(s, step);
    } else {
      HolderHelps(s, step);
    }
  }

  lemma StartHelps(s: State)
    requires Inv(s) && Enabled(s, StartKill)
    ensures Potential(Apply(s, StartKill)) < Potential(s)
  {
    hide Counted, Conserved, FlagsFit, QueueFits, WorkersFit, Paid, Tally, Matched;
    RankBound(s.pcs);
  }

  lemma EraseHelps(s: State)
    requires Inv(s) && Enabled(s, Erase)
    ensures Potential(Apply(s, Erase)) < Potential(s)
  {
    hide Counted, Conserved, FlagsFit, QueueFits, WorkersFit, Paid, Tally, Matched, Drop;
    var s' := Apply(s, Erase);
    assert s'.left == s.left - 1 && |s'.pcs| == |s.pcs| && RoundCost(s') == RoundCost(s);
  }

  lemma AskHelps(s: State, step: Step)
    requires QueueFits(s) && Paced(s) && Enabled(s, step) && (step.FinishPush? || step.Await?)
    ensures Potential(Apply(s, step)) < Potential(s)
  {
    hide Tally, Rounds;
    assert RoundCost(Apply(s, step)) == RoundCost(s);
  }

  lemma SearchHelps(s: State, step: Step)
    requires Matched(s) && WorkersFit(s) && Paced(s) && Enabled(s, step) && (step.Scan? || step.Join?)
    ensures Potential(Apply(s, step)) < Potential(s)
  {
    hide Tally, Rounds;
    assert RoundCost(Apply(s, step)) == RoundCost(s);
    assert step.Join? ==> PcFits(s.pcs[step.w], step.w, s.token);
  }

  lemma KillerHelps(s: State, step: Step)
    requires Inv(s) && Enabled(s, step) && ByKiller(step) && !step.Resize?
    ensures Potential(Apply(s, step)) < Potential(s)
  {
    hide Apply, Enabled, Potential;
    if step.StartKill? {
      StartHelps(s);
    } else if step.Erase? {
      EraseHelps(s);
    } else if step.Scan? || step.Join? {
      SearchHelps(s, step);
    } else {
      AskHelps(s, step);
    }
  }

  /** No step but a new resize adds work, and every helpful step does some. */
  lemma NothingAddsWork(s: State, step: Step)
    requires Inv(s) && Enabled(s, step) && !step.Resize?
    ensures Potential(Apply(s, step)) + (if Helpful(s, step) then 1 else 0) <= Potential(s)
  {
    if ByKiller(step) {
      KillerHelps(s, step);
    } else {
      OthersHelp(s, step);
      hide Apply, Enabled, Inv, TokenRank, KillerRank, Tally;
      if Helpful(s, step) {
        HelpMeansBusy(s, step);
      }
    }
  }

  lemma HelpMeansBusy(s: State, step: Step)
    requires Inv(s) && Helpful(s, step) && !ByKiller(step)
    ensures !s.killer.Idle? && s.left > 0
  {
  }

  function FirstTaker(pcs: seq<Pc>): (w: nat)
    requires Tally(IsTaking, pcs) > 0
    ensures w < |pcs| && pcs[w].Taking?
  {
    if pcs[0].Taking? then 0 else FirstTaker(pcs[1..]) + 1
  }

  /** The caller of resize waits for another thread: for the kill semaphore, or to join a thread
      that has not returned yet. */
  predicate Blocked(s: State) {
    || (s.killer.Waiting? && s.killSem == 0)
    || (s.killer.Found? && s.killer.w < |s.pcs| && !s.pcs[s.killer.w].Exited?)
  }

  lemma FrontWorkerLives(s: State)
    requires Matched(s) && WorkersFit(s) && Paced(s) && s.token.InQueue?
    ensures s.threads != [] && s.threads[0] < |s.pcs|
    ensures var pc := s.pcs[s.threads[0]]; pc.Taking? || pc.Checking? || pc.Popping? || (pc.Running? && pc.task.User?)
  {
    assert s.threads[0] in s.threads;
    assert PcFits(s.pcs[s.threads[0]], s.threads[0], s.token);
  }

  lemma KillMeOnTop(s: State)
    requires QueueFits(s) && s.token.InQueue?
    ensures Top(s.queue, KillMe)
  {
  }

  /** A worker's step towards the waiting KillMe. */
  function WorkersTurn(s: State): (step: Step)
    requires Inv(s) && s.killer.Waiting? && s.token.InQueue?
    ensures Enabled(s, step) && Helpful(s, step) && !ByKiller(step)
  {
    hide Inv, Counted, Conserved, FlagsFit, Matched, WorkersFit, QueueFits, Paced, Tally, Top;
    assert Paid(s) && Matched(s) && WorkersFit(s) && Paced(s) && QueueFits(s) by { Parts(s); }
    FrontWorkerLives(s);
    KillMeOnTop(s);
    var w := s.threads[0];
    var pc := s.pcs[w];
    if pc.Taking? then Take(w, KillMe)
    else if pc.Running? then Execute(w)
    else if pc.Checking? then Check(w)
    else if s.sem > 0 then Wait(w)
    else Take(FirstTaker(s.pcs), KillMe)
  }

  lemma Parts(s: State)
    requires Inv(s)
    ensures Paid(s) && Matched(s) && WorkersFit(s) && Paced(s) && QueueFits(s)
  {
  }

  /** The step of another thread that brings a blocked caller further. */
  function Turn(s: State): (step: Step)
    requires Inv(s) && Blocked(s)
    ensures Enabled(s, step) && Helpful(s, step) && !ByKiller(step)
  {
    if s.killer.Found? then Check(s.killer.w)
    else if s.token.Held? then SetFlag(s.token.w)
    else if s.token.Marked? then PostKill(s.token.w)
    else WorkersTurn(s)
  }

  /** And as long as the resize is not done, some helpful step can be made: nobody waits for ever. */
  lemma SomeoneCanHelp(s: State) returns (step: Step)
    requires Inv(s) && s.left > 0
    ensures Enabled(s, step) && Helpful(s, step)
  {
    hide Counted, Conserved;
    if Blocked(s) {
      step := Turn(s);
    } else {
      match s.killer
      case Idle => step := StartKill;
      case Pushed => step := FinishPush;
      case Waiting => step := Await;
      case Scanning => step := Scan(s.token.w);
      case Found(w) => step := Join(w);
      case Joined(w) => step := Erase;
    }
  }

  /** How many of the steps behind `before` are helpful. */
  function Helps(n: nat, before: seq<Step>, more: seq<Step>): nat
    requires Legal(n, before + more)
  {
    if more == [] then 0
    else
      var front := more[..|more| - 1];
      LastOfMore(n, before, more);
      Helps(n, before, front) + if Helpful(Run(n, before + front), more[|more| - 1]) then 1 else 0
  }

  lemma LastOfMore(n: nat, before: seq<Step>, more: seq<Step>)
    requires Legal(n, before + more) && more != []
    ensures Legal(n, before + more[..|more| - 1])
    ensures Enabled(Run(n, before + more[..|more| - 1]), more[|more| - 1])
    ensures Run(n, before + more) == Apply(Run(n, before + more[..|more| - 1]), more[|more| - 1])
  {
    LastStep(n, before + more);
    assert (before + more)[..|before + more| - 1] == before + more[..|more| - 1];
  }

  /** However the threads interleave, and whatever tasks are added meanwhile, a resize is finished
      after at most Potential helpful steps. */
  lemma {:induction false} ResizeIsFinite(n: nat, before: seq<Step>, more: seq<Step>)
    requires Legal(n, before + more) && Legal(n, before) && forall e :: e in more ==> !e.Resize?
    ensures Helps(n, before, more) + Potential(Run(n, before + more)) <= Potential(Run(n, before))
  {
    if more == [] {
      assert before + more == before;
    } else {
      var front, last := more[..|more| - 1], more[|more| - 1];
      LastOfMore(n, before, more);
      ResizeIsFinite(n, before, front);
      RunKeeps(n, before + front);
      assert last in more;
      hide Run, Legal, Apply, Enabled, Inv, Potential, Helpful;
      NothingAddsWork(Run(n, before + front), last);
    }
  }
}
