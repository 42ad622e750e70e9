/** What every step of the protocol keeps, whatever the network loses, repeats or reorders. */
module Invariants {
  import opened Base
  import opened Data
  import opened ByteArray
  import opened Address
  import opened SlaveTasks
  import opened Protocol

  /** The to-cloud task of id is past tracking. */
  predicate Started(s: State, id: int) {
    id in s.toCloud ==> s.toCloud[id] == Tracked
  }

  ghost predicate Ids(c: Config, s: State)
    requires ValidConfig(c)
  {
    && |s.stores| == c.slaves
    && (forall id :: id in s.log ==> 0 < id <= s.counter && s.log[id].id == id && Acceptable(c, s.log[id]))
    && s.counter <= INT_MAX
    && s.handles.Keys <= s.log.Keys
    && s.toCloud.Keys <= s.log.Keys
    && s.tracking.Keys <= s.handles.Keys
    && s.executed <= s.log.Keys
  }

  /** A request that is not yet tracked is pending, untracked, and backed up only if it writes. */
  ghost predicate Stages(s: State)
    requires s.toCloud.Keys <= s.log.Keys
  {
    forall id :: id in s.toCloud && s.toCloud[id] != Tracked ==>
      && id in s.handles
      && id !in s.tracking
      && (s.toCloud[id] == BackedUp ==> s.log[id].kind == WRITE)
  }

  /** The answer to id waits as a to-NBD task. */
  ghost predicate ReplyPending(s: State, id: int) {
    exists r :: r in s.toNbd && r.id == id
  }

  /** A request past tracking stays tracked until its reply has come. */
  ghost predicate NothingLost(s: State) {
    forall id :: id in s.handles && Started(s, id) && id !in s.tracking ==> ReplyPending(s, id)
  }

  ghost predicate GoodPacket(c: Config, s: State, p: Packet)
    requires ValidConfig(c)
  {
    && p.data.id in s.log
    && if IsPrimary(c, p) then p == Primary(c, s.log[p.data.id]) && Started(s, p.data.id)
       else p == Backup(c, s.log[p.data.id]) && s.log[p.data.id].kind == WRITE
  }

  ghost predicate Packets(c: Config, s: State)
    requires ValidConfig(c) && s.tracking.Keys <= s.log.Keys
  {
    && (forall p :: p in s.net ==> GoodPacket(c, s, p))
    && (forall p :: p in s.inbox ==> GoodPacket(c, s, p))
    && (forall id :: id in s.tracking ==> s.tracking[id] == Primary(c, s.log[id]))
  }

  /** A reply answers a request whose primary copy was executed. */
  ghost predicate GoodReply(s: State, r: DriverData) {
    && r.id in s.log && Started(s, r.id) && r.id in s.executed
    && r.offset == 0 && r.len == s.log[r.id].len && r.kind == s.log[r.id].kind
    && |r.buffer| == if r.kind == READ then r.len else 0
  }

  ghost predicate Replies(s: State) {
    && (forall r :: r in s.replies ==> GoodReply(s, r))
    && (forall r :: r in s.toNbd ==> GoodReply(s, r) && r.id !in s.tracking)
  }

  /** Of all accepted requests that overlap a pending one, the pending one is the latest. */
  ghost predicate LatestPending(s: State)
    requires s.handles.Keys <= s.log.Keys
  {
    forall i, j :: i in s.handles && j in s.log && Overlap(s.log[i], s.log[j]) ==> j <= i
  }

  /** The backup half of every slave holds nothing but zeros. */
  ghost predicate BackupsZero(c: Config, s: State) {
    forall k, q: nat :: 0 <= k < |s.stores| && c.slaveSize <= q ==> At(s.stores[k], q) == 0
  }

  ghost predicate Inv(c: Config, s: State)
    requires ValidConfig(c)
  {
    Ids(c, s) && Stages(s) && NothingLost(s) && Packets(c, s) && Replies(s) && LatestPending(s) && BackupsZero(c, s)
  }

  lemma InitInv(c: Config)
    requires ValidConfig(c)
    ensures Inv(c, Init(c))
  {
  }

  // ---------------------------------------------------------- step by step

  /** History only grows, and a task that is past tracking stays so. */
  ghost predicate Extends(s: State, s': State) {
    && (forall id :: id in s.log ==> id in s'.log && s'.log[id] == s.log[id])
    && (forall id :: id in s.log && Started(s, id) ==> Started(s', id))
    && s.executed <= s'.executed
  }

  lemma MessagesPersist(c: Config, s: State, s': State)
    requires ValidConfig(c) && Extends(s, s')
    ensures forall p :: GoodPacket(c, s, p) ==> GoodPacket(c, s', p)
    ensures forall r :: GoodReply(s, r) ==> GoodReply(s', r)
  {
  }

  lemma PrimaryIsPrimary(c: Config, d: DriverData)
    requires ValidConfig(c) && Acceptable(c, d)
    ensures IsPrimary(c, Primary(c, d)) && !IsPrimary(c, Backup(c, d))
    ensures Primary(c, d).dst < c.slaves && Backup(c, d).dst < c.slaves
  {
    IndexBelow(d.offset, c.slaveSize, c.slaves);
  }

  lemma NewPackets(c: Config, s: State, id: int)
    requires ValidConfig(c) && id in s.log && s.log[id].id == id && Acceptable(c, s.log[id])
    ensures Started(s, id) ==> GoodPacket(c, s, Primary(c, s.log[id]))
    ensures s.log[id].kind == WRITE ==> GoodPacket(c, s, Backup(c, s.log[id]))
  {
    PrimaryIsPrimary(c, s.log[id]);
  }

  lemma StepExtends(c: Config, s: State, step: Step)
    requires ValidConfig(c) && Ids(c, s) && Enabled(c, s, step)
    ensures Extends(s, Apply(c, s, step))
  {
    hide Acceptable, Overlap;
  }

  lemma AcceptLedger(c: Config, s: State, request: DriverData, handle: bytes)
    requires ValidConfig(c) && Ids(c, s) && Stages(s) && Enabled(c, s, Accept(request, handle))
    ensures var s' := DoAccept(s, request, handle); Ids(c, s') && Stages(s')
  {
    hide LocalOffset;
    var s' := DoAccept(s, request, handle);
    assert s.counter + 1 !in s.log;
    assert Acceptable(c, s'.log[s'.counter]);
  }

  lemma CloudLedger(c: Config, s: State, step: Step)
    requires ValidConfig(c) && Ids(c, s) && Stages(s) && Enabled(c, s, step)
    requires !step.Accept? && !step.Execute? && !step.Receive? && !step.Answer?
    ensures var s' := Apply(c, s, step); Ids(c, s') && Stages(s')
  {
    hide Acceptable, Overlap, NoCopy, Primary, Backup;
  }

  lemma ExecuteLedger(c: Config, s: State, i: nat)
    requires ValidConfig(c) && Ids(c, s) && Stages(s) && Packets(c, s) && Enabled(c, s, Execute(i))
    ensures var s' := DoExecute(c, s, i); Ids(c, s') && Stages(s')
  {
    assert GoodPacket(c, s, s.inbox[i]);
    hide Acceptable, GoodPacket, Stored, Reply;
  }

  lemma ReplyLedger(c: Config, s: State, step: Step)
    requires ValidConfig(c) && Ids(c, s) && Stages(s) && Replies(s) && Enabled(c, s, step)
    requires step.Receive? || step.Answer?
    ensures var s' := Apply(c, s, step); Ids(c, s') && Stages(s')
  {
    assert GoodReply(s, step.reply);
    hide Acceptable, GoodReply;
  }

  lemma OrderKeeps(c: Config, s: State, step: Step)
    requires ValidConfig(c) && Ids(c, s) && LatestPending(s) && Enabled(c, s, step)
    ensures var s' := Apply(c, s, step); s'.handles.Keys <= s'.log.Keys && LatestPending(s')
  {
    hide Acceptable;
    var s' := Apply(c, s, step);
    forall i, j | i in s'.handles && j in s'.log && Overlap(s'.log[i], s'.log[j])
      ensures j <= i
    {
    }
  }

  lemma LossKeeps(c: Config, s: State, step: Step)
    requires ValidConfig(c) && Ids(c, s) && Stages(s) && NothingLost(s) && Enabled(c, s, step)
    ensures NothingLost(Apply(c, s, step))
  {
    hide Acceptable, Overlap;
    var s' := Apply(c, s, step);
    forall id | id in s'.handles && Started(s', id) && id !in s'.tracking
      ensures ReplyPending(s', id)
    {
      if step.Receive? && step.reply.id == id {
        assert step.reply in s'.toNbd;
      } else {
        var r :| r in s.toNbd && r.id == id;
        assert r in s'.toNbd;
      }
    }
  }

  /** The messages of the next state are old ones, or new and good. */
  ghost predicate MailFrom(c: Config, s: State, s': State)
    requires ValidConfig(c)
  {
    && (forall p :: p in s'.net || p in s'.inbox ==> p in s.net || p in s.inbox || GoodPacket(c, s', p))
    && s'.tracking.Keys <= s'.log.Keys
    && (forall id :: id in s'.tracking ==>
          (id in s.tracking && s'.tracking[id] == s.tracking[id]) || s'.tracking[id] == Primary(c, s'.log[id]))
    && (forall r :: r in s'.replies ==> r in s.replies || GoodReply(s', r))
    && (forall r :: r in s'.toNbd ==> (r in s.toNbd || r in s.replies) && r.id !in s'.tracking)
  }

  lemma MailKeeps(c: Config, s: State, s': State)
    requires ValidConfig(c) && Ids(c, s) && Packets(c, s) && Replies(s)
    requires Extends(s, s') && MailFrom(c, s, s')
    ensures s'.tracking.Keys <= s'.log.Keys && Packets(c, s') && Replies(s')
  {
    MessagesPersist(c, s, s');
    hide GoodPacket, GoodReply, Primary, Acceptable;
    assert Packets(c, s');
    assert Replies(s');
  }

  /** No to-NBD task is for a tracked request, as long as tracking only shrinks. */
  lemma AnsweredUntracked(s: State, s': State)
    requires Replies(s)
    requires forall r :: r in s'.toNbd ==> r in s.toNbd
    requires forall id :: id in s'.tracking ==> id in s.tracking || !Started(s, id) || id !in s.log
    ensures forall r :: r in s'.toNbd ==> r in s.toNbd && r.id !in s'.tracking
  {
    forall r | r in s'.toNbd
      ensures r.id !in s'.tracking
    {
      assert GoodReply(s, r);
    }
  }

  lemma AcceptMail(c: Config, s: State, request: DriverData, handle: bytes)
    requires ValidConfig(c) && Ids(c, s) && Replies(s) && Enabled(c, s, Accept(request, handle))
    ensures MailFrom(c, s, DoAccept(s, request, handle))
  {
    hide GoodPacket, GoodReply, Primary, Overlap, Acceptable;
  }

  lemma OneMorePacket(c: Config, s: State, s': State, p: Packet)
    requires ValidConfig(c) && s.tracking.Keys <= s.log.Keys && Replies(s)
    requires s' == s.(net := s.net + [p], toCloud := s'.toCloud) && GoodPacket(c, s', p)
    ensures MailFrom(c, s, s')
  {
    hide GoodPacket, GoodReply, Primary;
  }

  lemma SendMail(c: Config, s: State, step: Step)
    requires ValidConfig(c) && Ids(c, s) && Stages(s) && Packets(c, s) && Replies(s) && Enabled(c, s, step)
    requires step.SendBackup? || step.Send? || step.Resend?
    ensures MailFrom(c, s, Apply(c, s, step))
  {
    hide MailFrom, GoodPacket, GoodReply, NoCopy, Acceptable, Primary, Backup;
    var s' := Apply(c, s, step);
    NewPackets(c, s', step.id);
    OneMorePacket(c, s, s', if step.SendBackup? then Backup(c, s.log[step.id]) else Primary(c, s.log[step.id]));
  }

  lemma TrackMail(c: Config, s: State, id: int)
    requires ValidConfig(c) && Ids(c, s) && Replies(s) && Enabled(c, s, Track(id))
    ensures MailFrom(c, s, Apply(c, s, Track(id)))
  {
    AnsweredUntracked(s, Apply(c, s, Track(id)));
    hide GoodPacket, GoodReply, Primary, Acceptable, Started;
  }

  lemma NetworkMail(c: Config, s: State, step: Step)
    requires ValidConfig(c) && Ids(c, s) && Replies(s) && Enabled(c, s, step)
    requires step.LosePacket? || step.DuplicatePacket? || step.Deliver?
    ensures MailFrom(c, s, Apply(c, s, step))
  {
    hide GoodPacket, GoodReply, Primary, Acceptable;
  }

  lemma ReplyMail(c: Config, s: State, step: Step)
    requires ValidConfig(c) && Ids(c, s) && Replies(s) && Enabled(c, s, step)
    requires step.LoseReply? || step.DuplicateReply? || step.Receive? || step.Answer?
    ensures MailFrom(c, s, Apply(c, s, step))
  {
    hide GoodPacket, GoodReply, Primary, Overlap, Acceptable;
  }

  lemma ExecuteReply(c: Config, s: State, i: nat)
    requires ValidConfig(c) && Ids(c, s) && Packets(c, s) && Enabled(c, s, Execute(i))
    ensures var s' := DoExecute(c, s, i);
            forall r :: r in s'.replies ==> r in s.replies || GoodReply(s', r)
  {
    assert GoodPacket(c, s, s.inbox[i]);
  }

  /** A slave's execution changes nothing in the master's records. */
  lemma ExecuteLeaves(c: Config, s: State, i: nat)
    requires i < |s.inbox| && s.inbox[i].dst < |s.stores|
    ensures var s' := DoExecute(c, s, i);
            && s'.handles == s.handles && s'.log == s.log && s'.toCloud == s.toCloud && s'.tracking == s.tracking
            && s'.net == s.net && s'.toNbd == s.toNbd && s'.counter == s.counter
  {
  }

  lemma ExecuteMail(c: Config, s: State, i: nat)
    requires ValidConfig(c) && Ids(c, s) && Packets(c, s) && Replies(s) && Enabled(c, s, Execute(i))
    ensures MailFrom(c, s, DoExecute(c, s, i))
  {
    ExecuteReply(c, s, i);
    hide GoodPacket, GoodReply, Primary, Acceptable, Stored, Reply;
  }

  lemma BackupsKeep(c: Config, s: State, i: nat)
    requires ValidConfig(c) && Inv(c, s) && Enabled(c, s, Execute(i))
    ensures BackupsZero(c, DoExecute(c, s, i))
  {
    var p, s' := s.inbox[i], DoExecute(c, s, i);
    assert GoodPacket(c, s, p);
    forall k, q: nat | 0 <= k < |s'.stores| && c.slaveSize <= q
      ensures At(s'.stores[k], q) == 0
    {
      OverlayAt(s.stores[p.dst], p.data.offset, p.data.buffer, q);
    }
  }

  lemma StepKeeps(c: Config, s: State, step: Step)
    requires ValidConfig(c) && Inv(c, s) && Enabled(c, s, step)
    ensures Inv(c, Apply(c, s, step))
  {
    var s' := Apply(c, s, step);
    hide Ids, Stages, NothingLost, Packets, Replies, LatestPending, BackupsZero, MailFrom, Extends, Enabled;
    OrderKeeps(c, s, step);
    LossKeeps(c, s, step);
    LedgerKeeps(c, s, step);
    MailComes(c, s, step);
    if step.Execute? {
      BackupsKeep(c, s, step.i);
    } else {
      UntouchedStores(c, s, s');
    }
    StepExtends(c, s, step);
    MailKeeps(c, s, s');
  }

  lemma LedgerKeeps(c: Config, s: State, step: Step)
    requires ValidConfig(c) && Inv(c, s) && Enabled(c, s, step)
    ensures var s' := Apply(c, s, step); Ids(c, s') && Stages(s')
  {
    hide Ids, Stages, NothingLost, Packets, Replies, LatestPending, BackupsZero, Enabled, DoAccept, DoExecute;
    if step.Execute? {
      ExecuteLedger(c, s, step.i);
    } else if step.Accept? {
      AcceptLedger(c, s, step.request, step.handle);
    } else if step.Receive? || step.Answer? {
      ReplyLedger(c, s, step);
    } else {
      CloudLedger(c, s, step);
    }
  }

  lemma MailComes(c: Config, s: State, step: Step)
    requires ValidConfig(c) && Inv(c, s) && Enabled(c, s, step)
    ensures MailFrom(c, s, Apply(c, s, step))
  {
    hide Ids, Stages, NothingLost, Packets, Replies, LatestPending, BackupsZero, MailFrom, Enabled, DoAccept, DoExecute;
    match step {
      case Execute(i) => ExecuteMail(c, s, i);
      case Accept(request, handle) => AcceptMail(c, s, request, handle);
      case Track(id) => TrackMail(c, s, id);
      case LosePacket(_) => NetworkMail(c, s, step);
      case DuplicatePacket(_) => NetworkMail(c, s, step);
      case Deliver(_) => NetworkMail(c, s, step);
      case SendBackup(_) => SendMail(c, s, step);
      case Send(_) => SendMail(c, s, step);
      case Resend(_) => SendMail(c, s, step);
      case _ => ReplyMail(c, s, step);
    }
  }

  lemma UntouchedStores(c: Config, s: State, s': State)
    requires BackupsZero(c, s) && s'.stores == s.stores
    ensures BackupsZero(c, s')
  {
  }

  lemma {:induction false} RunKeeps(c: Config, steps: seq<Step>)
    requires ValidConfig(c) && Legal(c, steps)
    ensures Inv(c, Run(c, steps))
  {
    if steps == [] {
      InitInv(c);
    } else {
      RunKeeps(c, steps[..|steps| - 1]);
      StepKeeps(c, Run(c, steps[..|steps| - 1]), steps[|steps| - 1]);
    }
  }
}
