/** What the protocol lets happen: which requests it accepts, in which order the tasks of a request
    run, and what the network may do to a message under each rule. */
module Network {
  import opened Base
  import opened Data
  import opened Address
  import opened SlaveTasks
  import opened Protocol
  import opened Invariants

  // ----------------------------------------------------------- accepted requests

  /** Device byte x belongs to the range of a request. */
  predicate Touches(d: DriverData, x: int) {
    d.offset <= x < d.offset + d.len
  }

  /** A request is accepted exactly if it is a READ or a WRITE with a buffer of its length, on the
      device, all on one slave, and no pending request touches any of its bytes. */
  lemma AcceptedIff(c: Config, s: State, d: DriverData, handle: bytes)
    requires ValidConfig(c)
    ensures Enabled(c, s, Accept(d, handle))
       <==> && (d.kind == 0 || d.kind == 1) && |d.buffer| == d.len <= c.maxLength && s.counter < 0x7fff_ffff
            && d.offset / c.slaveSize < c.slaves
            && (forall x: nat :: Touches(d, x) ==> x / c.slaveSize == d.offset / c.slaveSize)
            && (forall id, x :: id in s.handles && id in s.log && Touches(s.log[id], x) ==> !Touches(d, x))
  {
    IndexBelow(d.offset, c.slaveSize, c.slaves);
    OneExtent(d, c.slaveSize);
    forall id | id in s.handles && id in s.log
      ensures Overlap(s.log[id], d) <==> exists x :: Touches(s.log[id], x) && Touches(d, x)
    {
      OverlapIff(s.log[id], d);
    }
  }

  lemma OverlapIff(a: DriverData, b: DriverData)
    ensures Overlap(a, b) <==> exists x :: Touches(a, x) && Touches(b, x)
  {
    if Overlap(a, b) {
      var x := if a.offset < b.offset then b.offset else a.offset;
      assert Touches(a, x) && Touches(b, x);
    }
  }

  lemma OneExtent(d: DriverData, slaveSize: nat)
    requires slaveSize > 0
    ensures LocalOffset(d.offset, slaveSize) + d.len <= slaveSize
       <==> forall x: nat :: Touches(d, x) ==> x / slaveSize == d.offset / slaveSize
  {
    var local, home := LocalOffset(d.offset, slaveSize), d.offset / slaveSize;
    if local + d.len <= slaveSize {
      forall x: nat | Touches(d, x)
        ensures x / slaveSize == home
      {
        Contiguous(d.offset, x - d.offset, slaveSize);
      }
    } else {
      var x := (home + 1) * slaveSize;
      Locate(home + 1, 0, slaveSize);
      assert x == d.offset - local + slaveSize && Touches(d, x);
    }
  }

  // ------------------------------------------------------------- order of tasks

  /** Step i comes before step j. */
  ghost predicate Earlier(steps: seq<Step>, first: Step, second: Step) {
    exists i, j :: 0 <= i < j < |steps| && steps[i] == first && steps[j] == second
  }

  /** How a task came where it is: it was accepted, it has sent the backup, it has been tracked, and a
      WRITE is tracked only behind its backup. */
  ghost predicate Came(s: State, steps: seq<Step>, id: int) {
    && (id in s.toCloud && s.toCloud[id] == BackedUp ==> SendBackup(id) in steps)
    && (id in s.toCloud && s.toCloud[id] == Tracked ==> Track(id) in steps)
    && (id in s.log && s.log[id].kind == WRITE && Track(id) in steps ==> Earlier(steps, SendBackup(id), Track(id)))
    && (Send(id) in steps ==> Earlier(steps, Track(id), Send(id)))
    && (id !in s.log ==> SendBackup(id) !in steps && Track(id) !in steps && Send(id) !in steps)
  }

  lemma EarlierStays(steps: seq<Step>, step: Step, first: Step, second: Step)
    ensures Earlier(steps, first, second) ==> Earlier(steps + [step], first, second)
    ensures first in steps ==> Earlier(steps + [step], first, step)
  {
    var longer := steps + [step];
    if Earlier(steps, first, second) {
      var i, j :| 0 <= i < j < |steps| && steps[i] == first && steps[j] == second;
      assert longer[i] == first && longer[j] == second;
    }
    if first in steps {
      var i :| 0 <= i < |steps| && steps[i] == first;
      assert longer[i] == first && longer[|steps|] == step;
    }
  }

  lemma StepCame(c: Config, s: State, steps: seq<Step>, step: Step, id: int)
    requires ValidConfig(c) && Ids(c, s) && Enabled(c, s, step) && Came(s, steps, id)
    ensures Came(Apply(c, s, step), steps + [step], id)
  {
    hide Acceptable, Overlap, NoCopy, Earlier, Primary, Backup, DoExecute;
    EarlierStays(steps, step, SendBackup(id), Track(id));
    EarlierStays(steps, step, Track(id), Send(id));
    if step.Execute? {
      ExecuteLeaves(c, s, step.i);
    }
  }

  lemma {:induction false} AllCame(c: Config, steps: seq<Step>, id: int)
    requires ValidConfig(c) && Legal(c, steps)
    ensures Came(Run(c, steps), steps, id)
  {
    hide *;
    if steps == [] {
      NothingCame(c, id);
    } else {
      LastStep(c, steps);
      var before := steps[..|steps| - 1];
      AllCame(c, before, id);
      StepCame(c, Run(c, before), before, steps[|steps| - 1], id);
      assert steps == before + [steps[|steps| - 1]];
    }
  }

  lemma NothingCame(c: Config, id: int)
    requires ValidConfig(c)
    ensures Legal(c, []) && Came(Run(c, []), [], id)
  {
  }

  lemma LastStep(c: Config, steps: seq<Step>)
    requires ValidConfig(c) && Legal(c, steps) && steps != []
    ensures Legal(c, steps[..|steps| - 1]) && Enabled(c, Run(c, steps[..|steps| - 1]), steps[|steps| - 1])
    ensures Run(c, steps) == Apply(c, Run(c, steps[..|steps| - 1]), steps[|steps| - 1])
    ensures Ids(c, Run(c, steps[..|steps| - 1]))
  {
    RunKeeps(c, steps[..|steps| - 1]);
    hide Apply, Enabled;
  }

  /** In every run a request is tracked before it is sent, and the backup of a WRITE goes out before
      it is tracked: no primary copy of a WRITE leaves without the backup having left. */
  lemma BackupBeforeTrackBeforeSend(c: Config, steps: seq<Step>, id: int)
    requires ValidConfig(c) && Legal(c, steps)
    ensures Send(id) in steps ==> Earlier(steps, Track(id), Send(id)) && id in Run(c, steps).log
    ensures Track(id) in steps && id in Run(c, steps).log && Run(c, steps).log[id].kind == WRITE ==>
              Earlier(steps, SendBackup(id), Track(id))
  {
    AllCame(c, steps, id);
  }

  // ------------------------------------------------------- what messages may suffer

  /** Under every rule a message may be lost; it may be repeated unless the rule is CleanResend; it may
      arrive unless it would overtake, under InOrder, an older one for the same slave; and what is on
      the way is otherwise the same and in the same order. */
  lemma MessageFate(c: Config, s: State, i: nat)
    requires ValidConfig(c) && i < |s.net|
    ensures var older, p, newer := s.net[..i], s.net[i], s.net[i + 1..];
            && Enabled(c, s, LosePacket(i))
            && Apply(c, s, LosePacket(i)) == s.(net := older + newer)
            && (Enabled(c, s, DuplicatePacket(i)) <==> c.discipline != CleanResend)
            && (c.discipline != CleanResend ==>
                  Apply(c, s, DuplicatePacket(i)) == s.(net := older + [p, p] + newer))
            && (Enabled(c, s, Deliver(i)) <==> c.discipline != InOrder || forall o :: o in older ==> o.dst != p.dst)
            && (Enabled(c, s, Deliver(i)) ==>
                  Apply(c, s, Deliver(i)) == s.(net := older + newer, inbox := s.inbox + [p]))
  {
    assert s.net[i..] == [s.net[i]] + s.net[i + 1..];
    assert s.net[..i + 1] == s.net[..i] + [s.net[i]];
    assert s.net[..i] + [s.net[i]] + ([s.net[i]] + s.net[i + 1..])
        == s.net[..i] + [s.net[i], s.net[i]] + s.net[i + 1..];
    assert forall j :: 0 <= j < i ==> s.net[j] == s.net[..i][j];
  }

  /** The same for replies, which have no order; one that arrives ends the tracking of its request and
      goes on to the client. */
  lemma ReplyFate(c: Config, s: State, r: DriverData)
    requires ValidConfig(c) && r in s.replies
    ensures Enabled(c, s, LoseReply(r)) && Enabled(c, s, Receive(r))
    ensures Apply(c, s, LoseReply(r)).replies[r] == s.replies[r] - 1
    ensures Apply(c, s, LoseReply(r)) == s.(replies := Apply(c, s, LoseReply(r)).replies)
    ensures Enabled(c, s, DuplicateReply(r)) <==> c.discipline != CleanResend
    ensures c.discipline != CleanResend ==>
              && Apply(c, s, DuplicateReply(r)).replies[r] == s.replies[r] + 1
              && Apply(c, s, DuplicateReply(r)) == s.(replies := Apply(c, s, DuplicateReply(r)).replies)
    ensures var s' := Apply(c, s, Receive(r));
            && s'.replies == Apply(c, s, LoseReply(r)).replies && s'.toNbd == s.toNbd + multiset{r}
            && s' == s.(replies := s'.replies, toNbd := s'.toNbd, tracking := s.tracking - {r.id})
  {
  }

  /** A slave may run the task of any request it has received, under InOrder unless an older one for it
      is there; and a tracked request may be sent again at any time without a rule, after its first send
      under InOrder, and under CleanResend only when no copy of it and no reply to it is on the way. */
  lemma TaskAndResendFate(c: Config, s: State, i: nat, id: int)
    requires ValidConfig(c) && i < |s.inbox| && s.inbox[i].dst < |s.stores|
    ensures Enabled(c, s, Execute(i))
       <==> c.discipline != InOrder || forall o :: o in s.inbox[..i] ==> o.dst != s.inbox[i].dst
    ensures Enabled(c, s, Execute(i)) ==> Apply(c, s, Execute(i)).inbox == s.inbox[..i] + s.inbox[i + 1..]
    ensures Enabled(c, s, Resend(id))
       <==> && id in s.tracking && (c.discipline == Unrestricted || id !in s.toCloud)
            && (c.discipline == CleanResend ==>
                  && (forall p :: (p in s.net || p in s.inbox) && p.data.id == id ==> p.data.offset >= c.slaveSize)
                  && (forall r :: r in s.replies ==> r.id != id))
    ensures Enabled(c, s, Resend(id)) ==> Apply(c, s, Resend(id)) == s.(net := s.net + [s.tracking[id]])
  {
    assert forall j :: 0 <= j < i ==> s.inbox[j] == s.inbox[..i][j];
    hide Stored, Reply;
  }

  function Freed(c: Config): Config {
    c.(discipline := Unrestricted)
  }

  /** The rules only take runs away: every run under a rule is a run without one, with the same states
      and the same events. So what holds of every run without a rule holds under each. */
  lemma {:induction false} RulesOnlyNarrow(c: Config, steps: seq<Step>)
    requires ValidConfig(c) && Legal(c, steps)
    ensures Legal(Freed(c), steps) && Run(Freed(c), steps) == Run(c, steps)
    ensures Trace(Freed(c), steps) == Trace(c, steps)
  {
    if steps != [] {
      var before, step := steps[..|steps| - 1], steps[|steps| - 1];
      RulesOnlyNarrow(c, before);
      hide Enabled, Apply, Seen;
      StepFreed(c, Run(c, before), step);
    }
  }

  lemma StepFreed(c: Config, s: State, step: Step)
    requires ValidConfig(c) && Enabled(c, s, step)
    ensures Enabled(Freed(c), s, step) && Apply(Freed(c), s, step) == Apply(c, s, step)
    ensures Seen(Freed(c), s, step) == Seen(c, s, step)
  {
    hide NoCopy, Overlap, Reply, Stored, FirstFor;
  }
}
