/** Time put back into the protocol. The master only waits for a deadline before it sends again; when
    every message dies within the timeout that is enough to keep the CleanResend rule. */
module Deadlines {
  import opened Base
  import opened Data
  import opened SlaveTasks
  import opened Protocol
  import opened Invariants
  import opened Device
  import opened Theorems
  import M = SlavesManager

  /** A request is sent within `delay` of the stamp of its deadline; a copy of it, or the reply to it,
      is alive for no longer than `lifetime` after the copy was sent. */
  datatype Limits = Limits(timeout: nat, delay: nat, lifetime: nat)

  /** The deadline of each tracked request, and when its last copy left. */
  datatype Clock = Clock(now: int, deadline: map<int, int>, left: map<int, int>)

  /** keep_track_on_data stamps a deadline, a resend sets it anew. */
  function Tick(k: Clock, step: Step, at: int, l: Limits): Clock {
    match step
    case Track(id) => Clock(at, k.deadline[id := at + l.timeout], k.left)
    case Send(id) => Clock(at, k.deadline, k.left[id := at])
    case Resend(id) => Clock(at, k.deadline[id := at + l.timeout], k.left[id := at])
    case _ => k.(now := at)
  }

  predicate InTime(k: Clock, l: Limits, id: int, at: int) {
    id in k.left && at <= k.left[id] + l.lifetime
  }

  /** What may happen at a moment: time does not run backwards, sends follow their stamps, messages
      die in time, the network repeats nothing, and only what is overdue is sent again. */
  ghost predicate Punctual(c: Config, s: State, k: Clock, l: Limits, step: Step, at: int) {
    && k.now <= at && !step.DuplicatePacket? && !step.DuplicateReply?
    && (forall id :: id in s.toCloud && s.toCloud[id] == Tracked ==>
          id in k.deadline && at <= k.deadline[id] - l.timeout + l.delay)
    && (forall p :: (p in s.net || p in s.inbox) && IsPrimary(c, p) ==> InTime(k, l, p.data.id, at))
    && (forall r :: r in s.replies ==> InTime(k, l, r.id, at))
    && (step.Resend? ==> step.id in k.deadline && k.deadline[step.id] < at)
  }

  ghost predicate TimedLegal(c: Config, l: Limits, steps: seq<Step>, times: seq<int>)
    requires ValidConfig(c)
    decreases |steps|, 0
  {
    && |times| == |steps| && Legal(c, steps)
    && (steps != [] ==>
          var n := |steps| - 1;
          && TimedLegal(c, l, steps[..n], times[..n])
          && Punctual(c, Run(c, steps[..n]), Time(c, l, steps[..n], times[..n]), l, steps[n], times[n]))
  }

  /** The clock after a timed run. */
  ghost function Time(c: Config, l: Limits, steps: seq<Step>, times: seq<int>): Clock
    requires ValidConfig(c) && TimedLegal(c, l, steps, times)
    decreases |steps|, 1
  {
    if steps == [] then Clock(0, map[], map[])
    else
      var n := |steps| - 1;
      Tick(Time(c, l, steps[..n], times[..n]), steps[n], times[n], l)
  }

  // ------------------------------------------------------ the clock, from the steps alone

  predicate Stamps(step: Step, id: int) {
    step == Track(id) || step == Resend(id)
  }

  predicate Sends(step: Step, id: int) {
    step == Send(id) || step == Resend(id)
  }

  ghost predicate LastStamp(steps: seq<Step>, id: int, j: int) {
    0 <= j < |steps| && Stamps(steps[j], id) && forall i :: j < i < |steps| ==> !Stamps(steps[i], id)
  }

  ghost predicate LastSend(steps: seq<Step>, id: int, j: int) {
    0 <= j < |steps| && Sends(steps[j], id) && forall i :: j < i < |steps| ==> !Sends(steps[i], id)
  }

  lemma LastStampNext(steps: seq<Step>, id: int, j: int)
    requires steps != []
    ensures LastStamp(steps[..|steps| - 1], id, j) ==> 0 <= j < |steps| - 1
    ensures var n := |steps| - 1;
            LastStamp(steps, id, j) <==> if Stamps(steps[n], id) then j == n else LastStamp(steps[..n], id, j)
  {
    hide Stamps;
    var before := steps[..|steps| - 1];
    assert forall i :: 0 <= i < |before| ==> before[i] == steps[i];
  }

  lemma LastSendNext(steps: seq<Step>, id: int, j: int)
    requires steps != []
    ensures LastSend(steps[..|steps| - 1], id, j) ==> 0 <= j < |steps| - 1
    ensures var n := |steps| - 1;
            LastSend(steps, id, j) <==> if Sends(steps[n], id) then j == n else LastSend(steps[..n], id, j)
  {
    hide Sends;
    var before := steps[..|steps| - 1];
    assert forall i :: 0 <= i < |before| ==> before[i] == steps[i];
  }

  /** The deadline of a request is its last stamp and the timeout, its last copy left with its last
      send, and there is neither without a stamp or a send. */
  ghost predicate Tells(k: Clock, steps: seq<Step>, times: seq<int>, l: Limits, id: int)
    requires |times| == |steps|
  {
    && (id in k.deadline <==> exists j :: LastStamp(steps, id, j))
    && (id in k.left <==> exists j :: LastSend(steps, id, j))
    && (forall j :: LastStamp(steps, id, j) ==> k.deadline[id] == times[j] + l.timeout)
    && (forall j :: LastSend(steps, id, j) ==> k.left[id] == times[j])
  }

  lemma {:induction false} ClockTells(c: Config, l: Limits, steps: seq<Step>, times: seq<int>, id: int)
    requires ValidConfig(c) && TimedLegal(c, l, steps, times)
    ensures |times| == |steps| && Tells(Time(c, l, steps, times), steps, times, l, id)
    ensures Time(c, l, steps, times).now == if steps == [] then 0 else times[|steps| - 1]
  {
    hide Legal, Run, Punctual, Stamps, Sends, LastStamp, LastSend, Tick, Tells;
    if steps == [] {
      NothingTold(l, id);
    } else {
      LastMoment(c, l, steps, times);
      var n := |steps| - 1;
      ClockTells(c, l, steps[..n], times[..n], id);
      TickTells(Time(c, l, steps[..n], times[..n]), steps, times, l, id);
    }
  }

  lemma NothingTold(l: Limits, id: int)
    ensures Tells(Clock(0, map[], map[]), [], [], l, id)
  {
  }

  lemma TickTells(k: Clock, steps: seq<Step>, times: seq<int>, l: Limits, id: int)
    requires steps != [] && |times| == |steps|
    requires Tells(k, steps[..|steps| - 1], times[..|steps| - 1], l, id)
    ensures var k' := Tick(k, steps[|steps| - 1], times[|steps| - 1], l);
            Tells(k', steps, times, l, id) && k'.now == times[|steps| - 1]
  {
    hide LastStamp, LastSend;
    var n, before := |steps| - 1, steps[..|steps| - 1];
    forall j
      ensures LastStamp(before, id, j) || LastSend(before, id, j) ==> 0 <= j < n
      ensures LastStamp(steps, id, j) <==> if Stamps(steps[n], id) then j == n else LastStamp(before, id, j)
      ensures LastSend(steps, id, j) <==> if Sends(steps[n], id) then j == n else LastSend(before, id, j)
    {
      LastStampNext(steps, id, j);
      LastSendNext(steps, id, j);
    }
    assert Stamps(steps[n], id) ==> LastStamp(steps, id, n);
    assert Sends(steps[n], id) ==> LastSend(steps, id, n);
    assert forall j :: LastStamp(before, id, j) ==> times[..n][j] == times[j];
    assert forall j :: LastSend(before, id, j) ==> times[..n][j] == times[j];
    var k' := Tick(k, steps[n], times[n], l);
    assert id in k'.deadline <==> id in k.deadline || Stamps(steps[n], id);
    assert id in k'.left <==> id in k.left || Sends(steps[n], id);
  }

  /** What the limits ask of the next moment, told by the steps and times so far: it is not before
      the last one, and at it every stamped request is still within the delay of its last stamp, and
      every copy for a primary slave and every reply within the lifetime of its request's last send. */
  ghost predicate Prompt(c: Config, l: Limits, steps: seq<Step>, times: seq<int>, at: int)
    requires ValidConfig(c) && Legal(c, steps) && |times| == |steps|
  {
    var s := Run(c, steps);
    && (if steps == [] then 0 else times[|steps| - 1]) <= at
    && (forall id :: id in s.toCloud && s.toCloud[id] == Tracked ==>
          exists j :: LastStamp(steps, id, j) && at <= times[j] + l.delay)
    && (forall p :: (p in s.net || p in s.inbox) && p.data.offset < c.slaveSize ==>
          exists j :: LastSend(steps, p.data.id, j) && at <= times[j] + l.lifetime)
    && (forall r :: r in s.replies ==> exists j :: LastSend(steps, r.id, j) && at <= times[j] + l.lifetime)
  }

  /** Which moments and steps may follow a timed run: those of the protocol that keep to the limits
      and repeat no message, and a resend exactly once more than the timeout has gone by since the
      request was last stamped. */
  lemma WhatMayFollow(c: Config, l: Limits, steps: seq<Step>, times: seq<int>, step: Step, at: int)
    requires ValidConfig(c) && TimedLegal(c, l, steps, times)
    ensures Legal(c, steps) && |times| == |steps|
    ensures TimedLegal(c, l, steps + [step], times + [at])
       <==> && Enabled(c, Run(c, steps), step) && Prompt(c, l, steps, times, at)
            && !step.DuplicatePacket? && !step.DuplicateReply?
            && (step.Resend? ==> exists j :: LastStamp(steps, step.id, j) && times[j] + l.timeout < at)
  {
    TimedIsLegal(c, l, steps, times);
    hide *;
    var k := Time(c, l, steps, times);
    forall id
      ensures Tells(k, steps, times, l, id) && k.now == if steps == [] then 0 else times[|steps| - 1]
    {
      ClockTells(c, l, steps, times, id);
    }
    PunctualIff(c, l, steps, times, k, step, at);
    OneMore(c, l, steps, times, step, at);
  }

  lemma TimedIsLegal(c: Config, l: Limits, steps: seq<Step>, times: seq<int>)
    requires ValidConfig(c) && TimedLegal(c, l, steps, times)
    ensures Legal(c, steps) && |times| == |steps|
  {
  }

  lemma OneMore(c: Config, l: Limits, steps: seq<Step>, times: seq<int>, step: Step, at: int)
    requires ValidConfig(c) && TimedLegal(c, l, steps, times) && Legal(c, steps)
    ensures TimedLegal(c, l, steps + [step], times + [at])
       <==> Enabled(c, Run(c, steps), step) && Punctual(c, Run(c, steps), Time(c, l, steps, times), l, step, at)
  {
    hide Enabled, Punctual, Apply, Tick;
    var longer, later := steps + [step], times + [at];
    assert longer[..|steps|] == steps && longer[|steps|] == step;
    assert later[..|steps|] == times && later[|steps|] == at;
  }

  lemma PunctualIff(c: Config, l: Limits, steps: seq<Step>, times: seq<int>, k: Clock, step: Step, at: int)
    requires ValidConfig(c) && Legal(c, steps) && |times| == |steps|
    requires k.now == if steps == [] then 0 else times[|steps| - 1]
    requires forall id :: Tells(k, steps, times, l, id)
    ensures Punctual(c, Run(c, steps), k, l, step, at)
       <==> && Prompt(c, l, steps, times, at) && !step.DuplicatePacket? && !step.DuplicateReply?
            && (step.Resend? ==> exists j :: LastStamp(steps, step.id, j) && times[j] + l.timeout < at)
  {
    hide Legal, Run, Stamps, Sends, Tells, InTime, IsPrimary;
    forall id
      ensures (id in k.deadline && at <= k.deadline[id] - l.timeout + l.delay)
         <==> exists j :: LastStamp(steps, id, j) && at <= times[j] + l.delay
      ensures id in k.deadline && k.deadline[id] < at
         <==> exists j :: LastStamp(steps, id, j) && times[j] + l.timeout < at
      ensures InTime(k, l, id, at) <==> exists j :: LastSend(steps, id, j) && at <= times[j] + l.lifetime
    {
      MomentsTell(k, steps, times, l, id, at);
    }
    PrimaryIff(c);
  }

  lemma PrimaryIff(c: Config)
    ensures forall p :: IsPrimary(c, p) <==> p.data.offset < c.slaveSize
  {
  }

  lemma MomentsTell(k: Clock, steps: seq<Step>, times: seq<int>, l: Limits, id: int, at: int)
    requires |times| == |steps| && Tells(k, steps, times, l, id)
    ensures (id in k.deadline && at <= k.deadline[id] - l.timeout + l.delay)
       <==> exists j :: LastStamp(steps, id, j) && at <= times[j] + l.delay
    ensures id in k.deadline && k.deadline[id] < at
       <==> exists j :: LastStamp(steps, id, j) && times[j] + l.timeout < at
    ensures InTime(k, l, id, at) <==> exists j :: LastSend(steps, id, j) && at <= times[j] + l.lifetime
  {
    hide Stamps, Sends;
  }

  /** So if messages keep to the limits, what is overdue may be sent again at any later moment. */
  lemma OverdueMayBeSentAgain(c: Config, l: Limits, steps: seq<Step>, times: seq<int>, id: int, j: nat, at: int)
    requires ValidConfig(c) && c.discipline == Unrestricted
    requires TimedLegal(c, l, steps, times) && id in Run(c, steps).tracking
    requires Prompt(c, l, steps, times, at) && LastStamp(steps, id, j) && times[j] + l.timeout < at
    ensures TimedLegal(c, l, steps + [Resend(id)], times + [at])
  {
    hide TimedLegal, Legal, Run, Prompt, LastStamp;
    WhatMayFollow(c, l, steps, times, Resend(id), at);
  }

  // ------------------------------------------------------------ the clock and the code

  /** The deadlines in the tracking map are the clock's. */
  ghost predicate Stored(k: Clock, tracking: map<int, M.DataTracker>) {
    forall id :: id in tracking ==> id in k.deadline && k.deadline[id] == tracking[id].deadline
  }

  /** send_to_driver stores the deadline that the clock has after Track. */
  method SendByTheClock(m: M.SlavesManager, d: DriverData, ghost k: Clock, ghost l: Limits)
      returns (thrown: Option<Error>)
    requires m.Valid() && m.OnTime() && m.timeout == l.timeout && d.id !in m.tracking && Stored(k, m.tracking)
    modifies m`outbox, m`tracking, m`now, m`ticks, m`faults
    ensures thrown.None? ==> d.id in m.tracking
    ensures m.tracking.Keys == old(m.tracking).Keys || m.tracking.Keys == old(m.tracking).Keys + {d.id}
    ensures d.id in m.tracking ==> Stored(Tick(k, Track(d.id), m.now, l), m.tracking)
    ensures d.id !in m.tracking ==> m.tracking == old(m.tracking)
  {
    thrown := m.SendToDriver(d);
  }

  /** A visit of the resending thread that sends stores the deadline that the clock has after Resend,
      and one that does not send stores nothing. */
  method VisitByTheClock(m: M.SlavesManager, id: int, ghost k: Clock, ghost l: Limits)
      returns (thrown: Option<Error>, overdue: bool)
    requires m.Valid() && m.OnTime() && m.timeout == l.timeout && id in m.tracking && Stored(k, m.tracking)
    modifies m`outbox, m`tracking, m`now, m`ticks, m`nextWakeUp, m`faults
    ensures overdue ==> k.deadline[id] < m.now
    ensures k.deadline[id] < old(m.now) ==> overdue
    ensures Stored(if overdue && thrown.None? then Tick(k, Resend(id), m.now, l) else k, m.tracking)
  {
    thrown, overdue := m.Visit(id);
  }

  function Clean(c: Config): Config {
    c.(discipline := CleanResend)
  }

  /** The last copy of a tracked request that was sent dies before its deadline. */
  ghost predicate DiesFirst(s: State, k: Clock, l: Limits) {
    forall id :: id in s.tracking && id !in s.toCloud ==>
      id in k.left && id in k.deadline && k.left[id] + l.lifetime <= k.deadline[id]
  }

  lemma DiesFirstKeeps(c: Config, s: State, k: Clock, l: Limits, step: Step, at: int)
    requires ValidConfig(c) && Ids(c, s) && Enabled(c, s, step) && Punctual(c, s, k, l, step, at) && DiesFirst(s, k, l)
    requires l.delay + l.lifetime <= l.timeout
    ensures DiesFirst(Apply(c, s, step), Tick(k, step, at, l), l)
  {
    hide Acceptable, Overlap, NoCopy, IsPrimary, InTime, Primary, Backup, DoExecute;
    if step.Execute? {
      ExecuteLeaves(c, s, step.i);
    }
  }

  /** A request that is overdue has been sent, and nothing of it is alive. */
  lemma OverdueIsDead(c: Config, s: State, k: Clock, l: Limits, id: int, at: int)
    requires ValidConfig(c) && id in s.tracking && DiesFirst(s, k, l) && Punctual(c, s, k, l, Resend(id), at)
    requires l.delay + l.lifetime <= l.timeout && (id in s.toCloud ==> s.toCloud[id] == Tracked)
    ensures id !in s.toCloud && NoCopy(c, s, id)
  {
    hide IsPrimary;
    assert !InTime(k, l, id, at);
  }

  /** The rule says nothing about what messages look like. */
  lemma SameMessages(c: Config, s: State)
    requires ValidConfig(c)
    ensures forall d :: Primary(Clean(c), d) == Primary(c, d) && Backup(Clean(c), d) == Backup(c, d)
    ensures forall d :: Acceptable(Clean(c), d) == Acceptable(c, d)
    ensures forall i :: 0 <= i < |s.inbox| && s.inbox[i].dst < |s.stores| ==>
              DoExecute(Clean(c), s, i) == DoExecute(c, s, i)
  {
    hide Stored, Reply;
  }

  lemma CleanEnabled(c: Config, s: State, step: Step)
    requires ValidConfig(c) && c.discipline == Unrestricted && Enabled(c, s, step)
    requires !step.DuplicatePacket? && !step.DuplicateReply?
    requires step.Resend? ==> step.id !in s.toCloud && NoCopy(c, s, step.id)
    ensures Enabled(Clean(c), s, step)
  {
    SameMessages(c, s);
    assert step.Resend? ==> NoCopy(Clean(c), s, step.id);
    hide Acceptable, NoCopy, Overlap;
  }

  lemma CleanApply(c: Config, s: State, step: Step)
    requires ValidConfig(c) && Enabled(c, s, step) && Enabled(Clean(c), s, step)
    ensures Apply(Clean(c), s, step) == Apply(c, s, step) && Seen(Clean(c), s, step) == Seen(c, s, step)
  {
    SameMessages(c, s);
    hide Primary, Backup, DoExecute, Acceptable, NoCopy, Overlap;
  }

  lemma CleanStep(c: Config, s: State, k: Clock, l: Limits, step: Step, at: int)
    requires ValidConfig(c) && c.discipline == Unrestricted && l.delay + l.lifetime <= l.timeout
    requires Inv(c, s) && Enabled(c, s, step) && DiesFirst(s, k, l) && Punctual(c, s, k, l, step, at)
    ensures Enabled(Clean(c), s, step) && Apply(Clean(c), s, step) == Apply(c, s, step)
    ensures Seen(Clean(c), s, step) == Seen(c, s, step)
  {
    hide NoCopy, Inv, Apply, Seen;
    if step.Resend? {
      TrackedIsTracked(c, s, step.id);
      OverdueIsDead(c, s, k, l, step.id, at);
    }
    hide Enabled;
    CleanEnabled(c, s, step);
    CleanApply(c, s, step);
  }

  lemma TrackedIsTracked(c: Config, s: State, id: int)
    requires ValidConfig(c) && Inv(c, s) && id in s.tracking
    ensures id in s.toCloud ==> s.toCloud[id] == Tracked
  {
  }

  lemma LastMoment(c: Config, l: Limits, steps: seq<Step>, times: seq<int>)
    requires ValidConfig(c) && TimedLegal(c, l, steps, times) && steps != []
    ensures |times| == |steps|
    ensures var n := |steps| - 1;
            && TimedLegal(c, l, steps[..n], times[..n]) && Legal(c, steps[..n])
            && Enabled(c, Run(c, steps[..n]), steps[n])
            && Punctual(c, Run(c, steps[..n]), Time(c, l, steps[..n], times[..n]), l, steps[n], times[n])
            && Time(c, l, steps, times) == Tick(Time(c, l, steps[..n], times[..n]), steps[n], times[n], l)
  {
    hide Punctual, Enabled, Tick;
  }

  lemma AtFirst(c: Config, l: Limits, times: seq<int>)
    requires ValidConfig(c) && TimedLegal(c, l, [], times)
    ensures Legal(Clean(c), []) && Run(Clean(c), []) == Run(c, []) && Trace(Clean(c), []) == Trace(c, [])
    ensures DiesFirst(Run(c, []), Time(c, l, [], times), l)
  {
  }

  /** A timed run is a run under CleanResend, step for step. */
  lemma {:induction false} TimedIsClean(c: Config, l: Limits, steps: seq<Step>, times: seq<int>)
    requires ValidConfig(c) && c.discipline == Unrestricted && l.delay + l.lifetime <= l.timeout
    requires TimedLegal(c, l, steps, times)
    ensures Legal(Clean(c), steps) && Run(Clean(c), steps) == Run(c, steps)
    ensures Trace(Clean(c), steps) == Trace(c, steps)
    ensures DiesFirst(Run(c, steps), Time(c, l, steps, times), l)
  {
    hide *;
    if steps == [] {
      AtFirst(c, l, times);
    } else {
      LastMoment(c, l, steps, times);
      var n := |steps| - 1;
      var before, step, s, k := steps[..n], steps[n], Run(c, steps[..n]), Time(c, l, steps[..n], times[..n]);
      TimedIsClean(c, l, before, times[..n]);
      RunKeeps(c, before);
      assert steps == before + [step];
      StepIsClean(c, l, before, step, s, k, times[n]);
    }
  }

  lemma StepIsClean(c: Config, l: Limits, before: seq<Step>, step: Step, s: State, k: Clock, at: int)
    requires ValidConfig(c) && c.discipline == Unrestricted && l.delay + l.lifetime <= l.timeout
    requires Legal(c, before) && s == Run(c, before) && Inv(c, s) && Enabled(c, s, step)
    requires DiesFirst(s, k, l) && Punctual(c, s, k, l, step, at)
    requires Legal(Clean(c), before) && Run(Clean(c), before) == s && Trace(Clean(c), before) == Trace(c, before)
    ensures Legal(c, before + [step]) && Legal(Clean(c), before + [step])
    ensures Run(Clean(c), before + [step]) == Run(c, before + [step]) == Apply(c, s, step)
    ensures Trace(Clean(c), before + [step]) == Trace(c, before + [step])
    ensures DiesFirst(Apply(c, s, step), Tick(k, step, at, l), l)
  {
    assert Ids(c, s) && ValidConfig(Clean(c));
    hide Legal, Run, Trace, Apply, Enabled, Seen, Inv, DiesFirst, Punctual, Tick;
    CleanStep(c, s, k, l, step, at);
    DiesFirstKeeps(c, s, k, l, step, at);
    Extend(c, before, step);
    Extend(Clean(c), before, step);
  }

  /** If a request is sent, travels, is executed and its reply travels back within the timeout, and the
      network repeats nothing, the deadline alone makes every answered READ return the latest
      acknowledged writes, however messages are reordered and lost. */
  lemma DeadlinesSuffice(c: Config, l: Limits, steps: seq<Step>, times: seq<int>, k: nat)
    requires ValidConfig(c) && c.discipline == Unrestricted && l.delay + l.lifetime <= l.timeout
    requires TimedLegal(c, l, steps, times) && k < |steps|
    ensures ReadsLatest(Trace(c, steps), k)
  {
    TimedIsClean(c, l, steps, times);
    ReadsReturnLatestWrites(Clean(c), steps, k);
  }

  /** And whatever is sent again is sent when nothing of it is alive. */
  lemma ResendsAreClean(c: Config, l: Limits, steps: seq<Step>, times: seq<int>)
    requires ValidConfig(c) && c.discipline == Unrestricted && l.delay + l.lifetime <= l.timeout
    requires TimedLegal(c, l, steps, times) && steps != [] && steps[|steps| - 1].Resend?
    ensures Legal(c, steps[..|steps| - 1]) && NoCopy(c, Run(c, steps[..|steps| - 1]), steps[|steps| - 1].id)
  {
    hide *;
    LastMoment(c, l, steps, times);
    var n := |steps| - 1;
    TimedIsClean(c, l, steps[..n], times[..n]);
    RunKeeps(c, steps[..n]);
    OverdueResend(c, Run(c, steps[..n]), Time(c, l, steps[..n], times[..n]), l, steps[n], times[n]);
  }

  lemma OverdueResend(c: Config, s: State, k: Clock, l: Limits, step: Step, at: int)
    requires ValidConfig(c) && Inv(c, s) && DiesFirst(s, k, l) && l.delay + l.lifetime <= l.timeout
    requires step.Resend? && Enabled(c, s, step) && Punctual(c, s, k, l, step, at)
    ensures NoCopy(c, s, step.id)
  {
    hide Inv, NoCopy, DiesFirst, Punctual;
    TrackedIsTracked(c, s, step.id);
    OverdueIsDead(c, s, k, l, step.id, at);
  }
}
