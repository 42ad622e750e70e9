/** The code of the thread pool, segment by segment. A segment is what one thread does between two
    moments where others can step in; what they do there is taken, gap by gap, from a schedule. */
module ThreadPool {
  import opened Base
  import opened PoolSteps
  import opened PoolRuns

  /** wpq.hpp: a priority queue behind a semaphore that counts its elements. */
  class PriorityQueue {
    var tasks: multiset<Task>
    var sem: nat

    constructor ()
      ensures tasks == multiset{} && sem == 0
    {
      tasks, sem := multiset{}, 0;
    }

    /** The locked part of push. */
    method Insert(value: Task)
      modifies this`tasks
      ensures tasks == old(tasks) + multiset{value}
    {
      tasks := tasks + multiset{value};
    }

    method Post()
      modifies this`sem
      ensures sem == old(sem) + 1
    {
      sem := sem + 1;
    }

    /** The timed wait of pop: it succeeds at once, or nobody posts until it expires. */
    method TimedWait() returns (success: bool)
      modifies this`sem
      ensures success <==> old(sem) > 0
      ensures sem == if success then old(sem) - 1 else old(sem)
    {
      success := sem > 0;
      if success {
        sem := sem - 1;
      }
    }

    /** The locked part of pop. */
    method TakeTop() returns (out: Task)
      requires tasks != multiset{}
      modifies this`tasks
      ensures Top(old(tasks), out) && tasks == old(tasks) - multiset{out}
      ensures Foremost(old(tasks), out)
    {
      ghost var most := MaximalTask(tasks);
      out :| out in tasks && forall u :: u in tasks ==> Priority(u) <= Priority(out);
      tasks := tasks - multiset{out};
    }
  }

  /** A KillMe goes before everything an application may add, and of two such tasks the one with
      the higher priority. */
  ghost predicate Foremost(tasks: multiset<Task>, t: Task) {
    && t in tasks
    && (t.User? && t.priority < 3 ==> KillMe !in tasks)
    && (t.User? ==> forall u :: u in tasks && u.User? ==> u.priority <= t.priority)
  }

  /** Whose segment is running. */
  datatype Actor = Caller | Worker(w: nat)

  predicate ActsIn(step: Step, actor: Actor) {
    match actor
    case Caller => ByKiller(step)
    case Worker(w) =>
      step == Expire(w) || step == Wait(w) || step == Execute(w) || step == SetFlag(w) || step == PostKill(w)
      || step == Check(w) || (step.Take? && step.w == w)
  }

  /** One step of another thread, where it is possible. */
  function Passed(s: State, step: Step, actor: Actor): State {
    if !ActsIn(step, actor) && Enabled(s, step) then Apply(s, step) else s
  }

  /** What a gap makes of the pool. */
  function Interfered(s: State, steps: seq<Step>, actor: Actor): State {
    if steps == [] then s
    else Passed(Interfered(s, steps[..|steps| - 1], actor), steps[|steps| - 1], actor)
  }

  /** What the schedule has for the next gap, and for those behind it. */
  function Next(schedule: seq<seq<Step>>): seq<Step> {
    if schedule == [] then [] else schedule[0]
  }

  function Later(schedule: seq<seq<Step>>): seq<seq<Step>> {
    if schedule == [] then [] else schedule[1..]
  }

  lemma InterferedNext(s: State, steps: seq<Step>, i: nat, actor: Actor)
    requires i < |steps|
    ensures Interfered(s, steps[..i + 1], actor) == Passed(Interfered(s, steps[..i], actor), steps[i], actor)
  {
    assert steps[..i + 1][..i] == steps[..i];
  }

  /** A gap can hold every way in which the other threads can carry a run on. */
  lemma {:induction false} GapsReachEverything(n: nat, run: seq<Step>, steps: seq<Step>, actor: Actor)
    requires Legal(n, run + steps) && forall step :: step in steps ==> !ActsIn(step, actor)
    ensures Legal(n, run) && Interfered(Run(n, run), steps, actor) == Run(n, run + steps)
  {
    hide Apply, Enabled, ActsIn, Legal, Run;
    if steps == [] {
      assert run + steps == run;
    } else {
      var front, all := steps[..|steps| - 1], run + steps;
      assert all[..|all| - 1] == run + front;
      LastStep(n, all);
      GapsReachEverything(n, run, front, actor);
    }
  }

  /** What was added and executed stays so. */
  lemma HistoryGrows(s: State, step: Step)
    requires Enabled(s, step)
    ensures s.added <= Apply(s, step).added && s.executed <= Apply(s, step).executed
  {
  }

  /** Nobody but a worker itself moves it or lowers its flag, until it is ready to be joined. */
  lemma OnlyItself(s: State, step: Step, w: nat)
    requires Inv(s) && Enabled(s, step) && !ActsIn(step, Worker(w)) && w < |s.pcs| && !s.pcs[w].Exited?
    ensures |Apply(s, step).pcs| == |s.pcs| && Apply(s, step).pcs[w] == s.pcs[w]
    ensures Condemned(w, Apply(s, step).token) <==> Condemned(w, s.token)
  {
    hide Counted, Conserved, Matched, FlagsFit, Paid, Drop, Top;
    if step.Take? {
      TopIsIn(s.queue, step.task);
    }
  }

  /** Nobody but the caller of resize shrinks the pool. */
  lemma OnlyTheCaller(s: State, step: Step)
    requires Inv(s) && Enabled(s, step) && !ByKiller(step)
    ensures var s' := Apply(s, step);
            && s'.killer == s.killer && s'.left == s.left && s'.threads == s.threads && s'.target == s.target
            && Potential(s') <= Potential(s)
  {
    NothingAddsWork(s, step);
    hide Inv, Potential, Top;
  }

  /** The walk of kill_thread over the flags, in whatever order the map has: with a false flag in it,
      the walk stops there and never leaves the map. */
  method FalseFlag(flags: map<nat, bool>) returns (w: nat)
    requires exists v :: v in flags && !flags[v]
    ensures w in flags && !flags[w]
  {
    ghost var lowered :| lowered in flags && !flags[lowered];
    var rest := flags.Keys;
    w := AnyOf(rest);
    while flags[w] != false
      invariant rest <= flags.Keys && w in rest && lowered in rest
      decreases rest
    {
      rest := rest - {w};
      assert lowered in rest;
      w := AnyOf(rest);
    }
  }

  /** The walk of kill_thread over the vector. */
  method FindThread(threads: seq<nat>, w: nat) returns (i: nat)
    requires w in threads
    ensures i < |threads| && threads[i] == w && w !in threads[..i]
  {
    i := 0;
    while threads[i] != w
      invariant i < |threads| && w !in threads[..i] && w in threads[i..]
      decreases |threads| - i
    {
      i := i + 1;
    }
  }

  class ThreadPool {
    const queue: PriorityQueue
    const threadNum: nat
    var threads: seq<nat>
    var flags: map<nat, bool>
    var killSem: nat
    var left: nat // the loop counter of decrement, counting down
    // Where the threads stand.
    var pcs: seq<Pc>
    var posting: nat
    var killer: Killer
    var schedule: seq<seq<Step>> // what the others do in the coming gaps
    // History.
    var target: nat
    var token: Token
    var added: multiset<Task>
    var executed: multiset<Task>
    ghost var run: seq<Step>

    function Snapshot(): State
      reads this, queue
    {
      State(queue.tasks, queue.sem, posting, pcs, threads, flags, killSem, killer, left, target, token, added, executed)
    }

    /** The object is in a state that the interleaved system reaches. */
    ghost predicate Valid()
      reads this, queue
    {
      Legal(threadNum, run) && Run(threadNum, run) == Snapshot()
    }

    /** The constructor starts the threads one by one and enters their flags. */
    constructor (threadNum: nat, schedule: seq<seq<Step>>)
      ensures Valid() && run == [] && fresh(queue) && Snapshot() == Init(threadNum)
      ensures this.schedule == schedule && this.threadNum == threadNum
    {
      queue := new PriorityQueue();
      this.threadNum, this.schedule := threadNum, schedule;
      threads, flags, pcs := [], map[], [];
      killSem, left, posting, killer, token := 0, 0, 0, Idle, Absent;
      target, added, executed, run := threadNum, multiset{}, multiset{}, [];
      new;
      Begins(threadNum);
      hide Legal, Run, Init, Apply, Enabled, ActsIn, Passed, Interfered;
      for i := 0 to threadNum
        invariant Snapshot() == State(multiset{}, 0, 0, pcs, threads, flags, 0, Idle, 0, threadNum, Absent,
              multiset{}, multiset{})
        invariant this.schedule == schedule && fresh(queue) && run == []
        invariant |pcs| == |threads| == i && forall k :: 0 <= k < i ==> pcs[k] == Popping && threads[k] == k
        invariant forall k: nat :: k in flags <==> k < i
        invariant forall k :: k in flags ==> flags[k]
      {
        threads := threads + [i];
        pcs := pcs + [Popping];
        flags := flags[i := true];
      }
      StartedAll(threadNum, pcs, threads, flags);
    }

    /** Any one step of any thread. */
    method Become(ghost step: Step, s: State)
      requires Valid() && Enabled(Snapshot(), step) && s == Apply(Snapshot(), step)
      modifies this, queue
      ensures Snapshot() == s && Valid() && run == old(run) + [step] && schedule == old(schedule)
    {
      hide Legal, Run, Apply, Enabled;
      Extend(threadNum, run, step);
      queue.tasks, queue.sem, posting, pcs, threads, flags := s.queue, s.sem, s.posting, s.pcs, s.threads, s.flags;
      killSem, killer, left, target, token := s.killSem, s.killer, s.left, s.target, s.token;
      added, executed, run := s.added, s.executed, run + [step];
    }

    /** A gap: whatever the schedule says the other threads do, as far as it is possible. */
    method Others(actor: Actor)
      requires Valid()
      requires actor.Worker? ==> actor.w < |pcs| && !pcs[actor.w].Exited?
      modifies this, queue
      ensures Valid() && old(run) <= run
      ensures Snapshot() == Interfered(old(Snapshot()), Next(old(schedule)), actor)
      ensures schedule == Later(old(schedule))
      ensures old(schedule) == [] ==> Snapshot() == old(Snapshot()) && schedule == []
      ensures old(added) <= added && old(executed) <= executed
      ensures actor.Worker? ==> actor.w < |pcs| && pcs[actor.w] == old(pcs[actor.w])
      ensures actor.Worker? ==> (Condemned(actor.w, token) <==> old(Condemned(actor.w, token)))
      ensures actor.Caller? ==>
                killer == old(killer) && left == old(left) && threads == old(threads) && target == old(target)
      ensures actor.Caller? ==> Potential(Snapshot()) <= old(Potential(Snapshot()))
    {
      hide Legal, Run, Potential, Enabled, Apply, ActsIn, Condemned;
      var steps := if schedule == [] then [] else schedule[0];
      schedule := if schedule == [] then [] else schedule[1..];
      for i := 0 to |steps|
        invariant Valid() && old(run) <= run && schedule == Later(old(schedule))
        invariant Snapshot() == Interfered(old(Snapshot()), steps[..i], actor)
        invariant old(added) <= added && old(executed) <= executed
        invariant actor.Worker? ==> actor.w < |pcs| && pcs[actor.w] == old(pcs[actor.w])
        invariant actor.Worker? ==> (Condemned(actor.w, token) <==> old(Condemned(actor.w, token)))
        invariant actor.Caller? ==>
                  killer == old(killer) && left == old(left) && threads == old(threads) && target == old(target)
        invariant actor.Caller? ==> Potential(Snapshot()) <= old(Potential(Snapshot()))
      {
        var s := Snapshot();
        InterferedNext(old(Snapshot()), steps, i, actor);
        if !ActsIn(steps[i], actor) && Enabled(s, steps[i]) {
          HistoryGrows(s, steps[i]);
          RunKeeps(threadNum, run);
          if actor.Worker? {
            OnlyItself(s, steps[i], actor.w);
          } else {
            CallersStep(steps[i]);
            OnlyTheCaller(s, steps[i]);
          }
          Become(steps[i], Apply(s, steps[i]));
        }
      }
      assert steps[..|steps|] == steps;
    }

    // ------------------------------------------------------------ kill_thread

    /** add_task(kill_task), up to the post. */
    method StartKill()
      requires Valid() && killer.Idle? && left > 0 && threads != []
      modifies this, queue`tasks
      ensures Valid() && run == old(run) + [PoolSteps.StartKill] && schedule == old(schedule)
      ensures Snapshot() == Apply(old(Snapshot()), PoolSteps.StartKill)
    {
      hide Legal, Run;
      Extend(threadNum, run, PoolSteps.StartKill);
      queue.Insert(KillMe);
      added, killer, token, run := added + multiset{KillMe}, Pushed, InQueue, run + [PoolSteps.StartKill];
    }

    method FinishPush()
      requires Valid() && killer.Pushed?
      modifies this, queue`sem
      ensures Valid() && run == old(run) + [PoolSteps.FinishPush] && schedule == old(schedule)
      ensures Snapshot() == Apply(old(Snapshot()), PoolSteps.FinishPush)
    {
      hide Legal, Run;
      Extend(threadNum, run, PoolSteps.FinishPush);
      queue.Post();
      killer, run := Waiting, run + [PoolSteps.FinishPush];
    }

    /** While the caller is blocked, among whatever else happens the threads that can bring it
        further do so. */
    method BeBlocked()
      requires Valid() && Blocked(Snapshot())
      modifies this, queue
      ensures Valid() && old(run) <= run
      ensures killer == old(killer) && left == old(left) && threads == old(threads) && target == old(target)
      ensures Blocked(Snapshot()) ==> Potential(Snapshot()) < old(Potential(Snapshot()))
    {
      hide Legal, Run, Potential, Enabled, Apply, Inv, Helpful;
      Others(Caller);
      RunKeeps(threadNum, run);
      var s := Snapshot();
      if Blocked(s) {
        var step := Turn(s);
        OnlyTheCaller(s, step);
        NothingAddsWork(s, step);
        Become(step, Apply(s, step));
      }
    }

    /** m_sem.wait */
    method Await()
      requires Valid() && killer.Waiting? && killSem > 0
      modifies this
      ensures Valid() && run == old(run) + [PoolSteps.Await] && schedule == old(schedule)
      ensures Snapshot() == Apply(old(Snapshot()), PoolSteps.Await)
    {
      hide Legal, Run;
      Extend(threadNum, run, PoolSteps.Await);
      killSem, killer, run := killSem - 1, Scanning, run + [PoolSteps.Await];
      token := if token.Posted? then Claimed(token.w) else token;
    }

    /** The search for the false flag: it is found inside the map. */
    method ScanFlags() returns (w: nat)
      requires Valid() && killer.Scanning?
      modifies this`killer, this`run
      ensures Valid() && w in flags && !flags[w] && killer == Found(w) && run == old(run) + [Scan(w)]
    {
      hide Legal, Run, Inv;
      OneFalseFlag(threadNum, run);
      w := FalseFlag(flags);
      Extend(threadNum, run, Scan(w));
      killer, run := Found(w), run + [Scan(w)];
    }

    /** it->join, once the thread has returned. */
    method JoinThread(w: nat)
      requires Valid() && killer == Found(w) && w < |pcs| && pcs[w].Exited? && w in threads
      modifies this`killer, this`run
      ensures Valid() && run == old(run) + [Join(w)] && killer == Joined(w)
    {
      hide Legal, Run;
      Extend(threadNum, run, Join(w));
      killer, run := Joined(w), run + [Join(w)];
    }

    /** Both erasures, from the vector at position i and from the map. */
    method EraseThread(i: nat)
      requires Valid() && i < |threads| && killer == Joined(threads[i]) && threads[i] < |pcs| && left > 0
      requires threads[i] !in threads[..i]
      modifies this, queue
      ensures Valid() && run == old(run) + [Erase] && schedule == old(schedule)
      ensures threads == old(threads[..i] + threads[i + 1..]) && flags == old(flags) - {old(threads)[i]}
      ensures killer.Idle? && left == old(left) - 1 && target == old(target) && |threads| == old(|threads|) - 1
    {
      hide Legal, Run, Inv, Apply, Enabled;
      var s := Snapshot();
      EraseAt(s, i);
      Become(Erase, s.(threads := threads[..i] + threads[i + 1..], flags := flags - {threads[i]},
                       pcs := pcs[threads[i] := Reaped], killer := Idle, token := Absent, left := left - 1));
    }

    /** The front of kill_thread: push the task. */
    method AskOne()
      requires Valid() && killer.Idle? && left > 0 && threads != []
      modifies this, queue
      ensures Valid() && old(run) <= run && killer.Waiting?
      ensures left == old(left) && threads == old(threads) && target == old(target)
    {
      hide Legal, Run, Potential;
      StartKill();
      Others(Caller);
      FinishPush();
    }

    /** The middle: wait till a thread is ready to be killed. */
    method AwaitOne()
      requires Valid() && killer.Waiting?
      modifies this, queue
      ensures Valid() && old(run) <= run && killer.Scanning?
      ensures left == old(left) && threads == old(threads) && target == old(target)
    {
      hide Legal, Run, Potential, Blocked;
      while killSem == 0
        invariant Valid() && old(run) <= run
        invariant killer.Waiting? && left == old(left) && threads == old(threads) && target == old(target)
        decreases if Blocked(Snapshot()) then Potential(Snapshot()) + 1 else 0
      {
        WaitsForKill(Snapshot());
        BeBlocked();
      }
      Await();
    }

    /** it->join blocks until the thread has returned. */
    method AwaitExit(w: nat)
      requires Valid() && killer == Found(w)
      modifies this, queue
      ensures Valid() && old(run) <= run && killer == Found(w) && w < |pcs| && pcs[w].Exited?
      ensures left == old(left) && threads == old(threads) && target == old(target)
    {
      hide Legal, Run, Potential, Blocked;
      FoundThread(w);
      while !pcs[w].Exited?
        invariant Valid() && old(run) <= run && w < |pcs|
        invariant killer == Found(w) && left == old(left) && threads == old(threads) && target == old(target)
        decreases if Blocked(Snapshot()) then Potential(Snapshot()) + 1 else 0
      {
        WaitsForExit(Snapshot(), w);
        BeBlocked();
        FoundThread(w);
      }
    }

    /** The back: find the thread, join it, and erase it from the vector and the map. */
    method ReapOne()
      requires Valid() && killer.Scanning? && left > 0
      modifies this, queue
      ensures Valid() && old(run) <= run && killer.Idle?
      ensures left == old(left) - 1 && |threads| == old(|threads|) - 1 && target == old(target)
    {
      hide *;
      var w := ScanFlags();
      Others(Caller);
      FoundThread(w);
      var i := FindThread(threads, w);
      AwaitExit(w);
      JoinThread(w);
      Others(Caller);
      InPool(i);
      EraseThread(i);
    }

    /** kill_thread, as one turn of the loop in decrement. */
    method KillThread()
      requires Valid() && killer.Idle? && left > 0
      modifies this, queue
      ensures Valid() && old(run) <= run && killer.Idle?
      ensures left == old(left) - 1 && |threads| == old(|threads|) - 1 && target == old(target)
    {
      hide *;
      Others(Caller);
      Sizes();
      AskOne();
      Others(Caller);
      AwaitOne();
      Others(Caller);
      ReapOne();
    }

    /** The vector is never shorter than the kills still to do. */
    lemma Sizes()
      requires Valid()
      ensures |threads| - left == target
      ensures killer.Idle? && left > 0 ==> threads != []
    {
      RunKeeps(threadNum, run);
    }

    lemma InPool(i: nat)
      requires Valid() && i < |threads|
      ensures threads[i] < |pcs|
    {
      RunKeeps(threadNum, run);
      assert threads[i] in threads;
    }

    lemma FoundThread(w: nat)
      requires Valid() && killer == Found(w)
      ensures w < |pcs| && w in threads && threads != []
    {
      RunKeeps(threadNum, run);
    }

    /** resize, to no more threads than there are: whatever the other threads do meanwhile, it ends,
        and the pool then has exactly the size asked for, with one true flag for each thread. */
    method Resize(newSize: nat)
      requires Valid() && killer.Idle? && left == 0 && newSize <= |threads|
      modifies this, queue
      ensures Valid() && old(run) <= run && killer.Idle? && left == 0
      ensures |threads| == newSize && Distinct(threads)
      ensures forall w: nat :: w in flags <==> w in threads
      ensures forall w :: w in flags ==> flags[w]
    {
      hide Legal, Run, Inv, Potential;
      Extend(threadNum, run, PoolSteps.Resize(newSize));
      left, target, run := |threads| - newSize, newSize, run + [PoolSteps.Resize(newSize)];
      while left > 0
        invariant Valid() && old(run) <= run && killer.Idle? && target == newSize
      {
        KillThread();
      }
      Sizes();
      OneFalseFlag(threadNum, run);
    }

    // ------------------------------------------------------------ the workers

    /** push, by a thread that adds a task. */
    method AddTask(task: Task)
      requires Valid() && task.User? && task.priority < SYSTEM
      modifies this, queue
      ensures Valid() && run == old(run) + [Add(task), PoolSteps.Post] && schedule == old(schedule)
      ensures queue.tasks == old(queue.tasks) + multiset{task} && queue.sem == old(queue.sem) + 1
    {
      hide Legal, Run;
      Extend(threadNum, run, Add(task));
      queue.Insert(task);
      posting, added, run := posting + 1, added + multiset{task}, run + [Add(task)];
      assert Valid();
      Extend(threadNum, run, PoolSteps.Post);
      queue.Post();
      posting, run := posting - 1, run + [PoolSteps.Post];
    }

    /** The wait of pop, for a worker: it takes a unit of the semaphore if there is one, and expires
        otherwise. */
    method WaitForTask(w: nat) returns (success: bool)
      requires Valid() && w < |pcs| && pcs[w].Popping?
      modifies this`pcs, this`run, queue`sem
      ensures Valid() && old(run) <= run && pcs == old(pcs)[w := if success then Taking else Popping]
      ensures success <==> old(queue.sem) > 0
      ensures queue.sem == if success then old(queue.sem) - 1 else old(queue.sem)
      ensures !success ==> Snapshot() == old(Snapshot())
    {
      hide Legal, Run;
      Extend(threadNum, run, if queue.sem > 0 then PoolSteps.Wait(w) else Expire(w));
      success := queue.TimedWait();
      if success {
        pcs, run := pcs[w := Taking], run + [PoolSteps.Wait(w)];
      } else {
        run := run + [Expire(w)];
        assert pcs == old(pcs)[w := Popping];
      }
    }

    /** The rest of pop: there is always something to take. */
    method TakeTask(w: nat) returns (out: Task)
      requires Valid() && w < |pcs| && pcs[w].Taking?
      modifies this`pcs, this`token, this`run, queue`tasks
      ensures Valid() && old(run) <= run && pcs == old(pcs)[w := Running(out)]
      ensures Top(old(queue.tasks), out) && token == if out.KillMe? then Held(w) else old(token)
      ensures Foremost(old(queue.tasks), out) && queue.tasks == old(queue.tasks) - multiset{out}
    {
      hide Legal, Run, Top, Foremost, Apply, Enabled;
      NoEmptyTake(threadNum, run);
      assert queue.tasks != multiset{} by { SomethingToTake(Snapshot(), w); }
      ghost var s := Snapshot();
      out := queue.TakeTop();
      Taken(s, w, out);
      Extend(threadNum, run, Take(w, out));
      pcs, token, run := pcs[w := Running(out)], if out.KillMe? then Held(w) else token, run + [Take(w, out)];
      assert Snapshot() == Apply(s, Take(w, out));
    }

    /** m_flags_map.at(this_id) = false. The flag is there. */
    method LowerFlag(w: nat)
      requires Valid() && w < |pcs| && pcs[w] == Running(KillMe)
      modifies this`flags, this`pcs, this`token, this`executed, this`run
      ensures Valid() && old(run) <= run && w in old(flags) && flags == old(flags)[w := false]
      ensures pcs == old(pcs)[w := Flagged] && token == Marked(w) && executed == old(executed) + multiset{KillMe}
    {
      hide Legal, Run, Inv;
      assert w in flags by { FlagIsThere(threadNum, run, w); }
      Extend(threadNum, run, SetFlag(w));
      flags := flags[w := false];
      pcs, token, executed, run := pcs[w := Flagged], Marked(w), executed + multiset{KillMe}, run + [SetFlag(w)];
    }

    /** m_tp_ptr->m_sem.post */
    method LetKillerGoOn(w: nat)
      requires Valid() && w < |pcs| && pcs[w].Flagged?
      modifies this`killSem, this`pcs, this`token, this`run
      ensures Valid() && old(run) <= run && killSem == old(killSem) + 1
      ensures pcs == old(pcs)[w := Checking] && token == Posted(w)
    {
      hide Legal, Run;
      Extend(threadNum, run, PostKill(w));
      killSem := killSem + 1;
      pcs, token, run := pcs[w := Checking], Posted(w), run + [PostKill(w)];
    }

    /** KillMeTask::execute */
    method ExecuteKillMe(w: nat)
      requires Valid() && w < |pcs| && pcs[w] == Running(KillMe)
      modifies this, queue
      ensures Valid() && old(run) <= run && w < |pcs| && pcs[w].Checking? && Condemned(w, token)
      ensures old(executed) + multiset{KillMe} <= executed
      ensures old(schedule) == [] ==>
                && schedule == [] && executed == old(executed) + multiset{KillMe}
                && queue.tasks == old(queue.tasks) && queue.sem == old(queue.sem)
    {
      hide Valid, Legal, Run;
      LowerFlag(w);
      Others(Worker(w));
      LetKillerGoOn(w);
    }

    /** Any other task: what it does is not the pool's business. */
    method ExecuteTask(w: nat)
      requires Valid() && w < |pcs| && pcs[w].Running? && pcs[w].task.User?
      modifies this`pcs, this`executed, this`run
      ensures Valid() && old(run) <= run && pcs == old(pcs)[w := Checking]
      ensures executed == old(executed) + multiset{old(pcs)[w].task}
    {
      hide Legal, Run;
      Extend(threadNum, run, Execute(w));
      pcs, executed, run := pcs[w := Checking], executed + multiset{pcs[w].task}, run + [Execute(w)];
    }

    /** keep_run = m_flags_map.at(this_id). The flag it reads is there. */
    method ReadFlag(w: nat) returns (keepRun: bool)
      requires Valid() && w < |pcs| && pcs[w].Checking?
      modifies this`pcs, this`run
      ensures Valid() && old(run) <= run && pcs == old(pcs)[w := if keepRun then Popping else Exited]
      ensures keepRun <==> !Condemned(w, token)
    {
      hide Legal, Run, Inv;
      RunKeeps(threadNum, run);
      FlagTells(Snapshot(), w);
      Extend(threadNum, run, Check(w));
      keepRun := flags[w];
      pcs, run := pcs[w := if keepRun then Popping else Exited], run + [Check(w)];
    }

    /** Any task, by its own execute. */
    method ExecuteAny(w: nat)
      requires Valid() && w < |pcs| && pcs[w].Running?
      modifies this, queue
      ensures Valid() && old(run) <= run && w < |pcs| && pcs[w].Checking?
      ensures Condemned(w, token) <==> old(pcs)[w].task.KillMe?
      ensures old(executed) + multiset{old(pcs)[w].task} <= executed
      ensures old(schedule) == [] ==>
                && schedule == [] && executed == old(executed) + multiset{old(pcs)[w].task}
                && queue.tasks == old(queue.tasks) && queue.sem == old(queue.sem)
    {
      hide Valid, Legal, Run, Condemned;
      NotCondemned(w);
      if pcs[w].task.KillMe? {
        ExecuteKillMe(w);
      } else {
        ExecuteTask(w);
      }
    }

    /** What follows a successful wait. */
    method ServeTask(w: nat) returns (task: Task, keepRun: bool)
      requires Valid() && w < |pcs| && pcs[w].Taking?
      modifies this, queue
      ensures Valid() && old(run) <= run && w < |pcs|
      ensures keepRun == task.User? && pcs[w] == if keepRun then Popping else Exited
      ensures old(executed) + multiset{task} <= executed
      ensures old(schedule) == [] ==>
                && Foremost(old(queue.tasks), task) && executed == old(executed) + multiset{task}
                && queue.tasks == old(queue.tasks) - multiset{task} && queue.sem == old(queue.sem)
    {
      hide Valid, Legal, Run, Interfered, Foremost, Condemned, Top, Potential, Enabled, Apply;
      Others(Worker(w));
      task := TakeTask(w);
      Others(Worker(w));
      ExecuteAny(w);
      Others(Worker(w));
      keepRun := ReadFlag(w);
    }

    /** One turn of the loop in thread_func, whatever the other threads do meanwhile: the worker
        takes a task unless the semaphore is at zero when it comes to wait, it executes what it took,
        and it goes on unless that was a KillMe, and then it returns. If nobody else moves, a waiting
        task is taken and executed, a foremost one, and the queue is otherwise as it was. */
    method ThreadTurn(w: nat) returns (taken: Option<Task>, keepRun: bool)
      requires Valid() && w < |pcs| && pcs[w].Popping?
      modifies this, queue
      ensures Valid() && old(run) <= run && w < |pcs|
      ensures keepRun <==> taken != Some(KillMe)
      ensures pcs[w] == if keepRun then Popping else Exited
      ensures taken.Some? <==> Interfered(old(Snapshot()), Next(old(schedule)), Worker(w)).sem > 0
      ensures taken.Some? ==> old(executed) + multiset{taken.value} <= executed
      ensures old(schedule) == [] && old(queue.sem) > 0 ==>
                && taken.Some? && Foremost(old(queue.tasks), taken.value)
                && queue.tasks == old(queue.tasks) - multiset{taken.value} && queue.sem == old(queue.sem) - 1
                && executed == old(executed) + multiset{taken.value}
      ensures old(schedule) == [] && old(queue.sem) == 0 ==> taken.None? && Snapshot() == old(Snapshot())
    {
      hide Valid, Legal, Run, Interfered, Foremost, Condemned, Top, Potential, Enabled, Apply;
      Others(Worker(w));
      taken, keepRun := None, true;
      var success := WaitForTask(w);
      if success {
        var task;
        task, keepRun := ServeTask(w);
        taken := Some(task);
      }
    }

    lemma NotCondemned(w: nat)
      requires Valid() && w < |pcs| && (pcs[w].Popping? || pcs[w].Taking? || pcs[w].Running?)
      ensures !Condemned(w, token)
    {
      RunKeeps(threadNum, run);
      assert PcFits(pcs[w], w, token);
    }
  }

  lemma SomethingToTake(s: State, w: nat)
    requires w < |s.pcs| && s.pcs[w].Taking?
    requires forall v :: 0 <= v < |s.pcs| && s.pcs[v].Taking? ==> exists t :: Enabled(s, Take(v, t))
    ensures s.queue != multiset{}
  {
    var t :| Enabled(s, Take(w, t));
    assert t in s.queue;
  }

  lemma Taken(s: State, w: nat, task: Task)
    requires w < |s.pcs| && s.pcs[w].Taking? && Top(s.queue, task)
    ensures Enabled(s, Take(w, task))
    ensures Apply(s, Take(w, task))
         == s.(queue := s.queue - multiset{task}, pcs := s.pcs[w := Running(task)],
               token := if task.KillMe? then Held(w) else s.token)
  {
  }

  lemma Begins(n: nat)
    ensures Legal(n, []) && Run(n, []) == Init(n)
  {
  }

  /** What the loop of the constructor builds is the initial pool. */
  lemma StartedAll(n: nat, pcs: seq<Pc>, threads: seq<nat>, flags: map<nat, bool>)
    requires |pcs| == |threads| == n && forall k :: 0 <= k < n ==> pcs[k] == Popping && threads[k] == k
    requires forall k: nat :: k in flags <==> k < n
    requires forall k :: k in flags ==> flags[k]
    ensures Init(n) == State(multiset{}, 0, 0, pcs, threads, flags, 0, Idle, 0, n, Absent, multiset{}, multiset{})
  {
    var ids := Init(n).threads;
    assert threads == ids;
    forall k: nat
      ensures k in ids <==> k < n
    {
      if k < n {
        assert ids[k] == k;
      }
    }
    assert flags.Keys == Init(n).flags.Keys;
  }

  lemma {:induction false} DropAt(threads: seq<nat>, i: nat)
    requires i < |threads| && threads[i] !in threads[..i]
    ensures Drop(threads, threads[i]) == threads[..i] + threads[i + 1..]
  {
    if i > 0 {
      var rest := threads[1..];
      assert threads[..i] == [threads[0]] + rest[..i - 1];
      assert threads[0] in threads[..i];
      DropAt(rest, i - 1);
    }
  }

  lemma EraseAt(s: State, i: nat)
    requires i < |s.threads| && s.killer == Joined(s.threads[i]) && s.threads[i] < |s.pcs| && s.left > 0
    requires s.threads[i] !in s.threads[..i]
    ensures Enabled(s, Erase)
    ensures Apply(s, Erase)
         == s.(threads := s.threads[..i] + s.threads[i + 1..], flags := s.flags - {s.threads[i]},
               pcs := s.pcs[s.threads[i] := Reaped], killer := Idle, token := Absent, left := s.left - 1)
  {
    DropAt(s.threads, i);
  }

  lemma WaitsForKill(s: State)
    requires s.killer.Waiting? && s.killSem == 0
    ensures Blocked(s)
  {
  }

  lemma WaitsForExit(s: State, w: nat)
    requires s.killer == Found(w) && w < |s.pcs| && !s.pcs[w].Exited?
    ensures Blocked(s)
  {
  }

  lemma CallersStep(step: Step)
    ensures ActsIn(step, Caller) <==> ByKiller(step)
  {
  }
}
