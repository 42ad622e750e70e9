/** The two rules under which a stale duplicate cannot do harm: resend only when nothing of the
    request is alive, or keep links and slaves in order. */
module Disciplines {
  import opened Data
  import opened ByteArray
  import opened SlaveTasks
  import opened Protocol
  import opened Invariants
  import opened Agreement

  /** x may stand before y in what the slaves still have to execute: under CleanResend two primary
      copies never share an id, under InOrder overlapping ones stand in the order of their ids. */
  predicate PairOk(c: Config, log: map<int, DriverData>, x: Packet, y: Packet) {
    IsPrimary(c, x) && IsPrimary(c, y) && x.data.id in log && y.data.id in log ==>
      match c.discipline
      case CleanResend => x.data.id != y.data.id
      case InOrder => Overlap(log[x.data.id], log[y.data.id]) ==> x.data.id <= y.data.id
      case Unrestricted => true
  }

  ghost predicate Sorted(c: Config, log: map<int, DriverData>, q: seq<Packet>) {
    forall i, j :: 0 <= i < j < |q| ==> PairOk(c, log, q[i], q[j])
  }

  ghost predicate Across(c: Config, log: map<int, DriverData>, a: seq<Packet>, b: seq<Packet>) {
    forall x, y :: x in a && y in b ==> PairOk(c, log, x, y)
  }

  ghost predicate Queues(c: Config, s: State) {
    Sorted(c, s.log, s.inbox) && Sorted(c, s.log, s.net) && Across(c, s.log, s.inbox, s.net)
  }

  /** What was tracked but not yet sent is still tracked, and nothing of it is alive. */
  ghost predicate Unsent(c: Config, s: State) {
    forall id :: id in s.toCloud && s.toCloud[id] == Tracked ==> id in s.tracking && NoCopy(c, s, id)
  }

  /** One live copy, or one reply, of a tracked request; nothing of any other. */
  ghost predicate OneCopy(c: Config, s: State) {
    && (forall p :: (p in s.net || p in s.inbox) && IsPrimary(c, p) ==>
          p.data.id in s.tracking && forall r :: r in s.replies ==> r.id != p.data.id)
    && (forall r :: r in s.replies ==> r.id in s.tracking && s.replies[r] == 1)
    && (forall r, r' :: r in s.replies && r' in s.replies && r.id == r'.id ==> r == r')
  }

  ghost predicate AllHarmless(c: Config, s: State)
    requires ValidConfig(c)
  {
    forall p :: p in s.net || p in s.inbox ==> Harmless(c, s, p)
  }

  ghost predicate Disciplined(c: Config, s: State)
    requires ValidConfig(c)
  {
    Queues(c, s) && Unsent(c, s) && (c.discipline == CleanResend ==> OneCopy(c, s)) && AllHarmless(c, s)
  }

  lemma InitDisciplined(c: Config)
    requires ValidConfig(c)
    ensures Disciplined(c, Init(c))
  {
  }

  // -------------------------------------------------------------- the queues

  lemma SortedWithout(c: Config, log: map<int, DriverData>, q: seq<Packet>, i: nat)
    requires i < |q| && Sorted(c, log, q)
    ensures Sorted(c, log, Without(q, i))
  {
    hide PairOk;
    var rest := Without(q, i);
    forall a, b | 0 <= a < b < |rest|
      ensures PairOk(c, log, rest[a], rest[b])
    {
      assert rest[a] == q[if a < i then a else a + 1] && rest[b] == q[if b < i then b else b + 1];
    }
  }

  lemma SortedTwice(c: Config, log: map<int, DriverData>, q: seq<Packet>, i: nat)
    requires i < |q| && Sorted(c, log, q) && c.discipline == InOrder
    ensures Sorted(c, log, Twice(q, i))
  {
    var more := Twice(q, i);
    assert PairOk(c, log, q[i], q[i]);
    hide PairOk;
    forall a, b | 0 <= a < b < |more|
      ensures PairOk(c, log, more[a], more[b])
    {
      assert more[a] == q[if a <= i then a else a - 1] && more[b] == q[if b <= i then b else b - 1];
    }
  }

  lemma SortedAppend(c: Config, log: map<int, DriverData>, q: seq<Packet>, x: Packet)
    requires Sorted(c, log, q) && Across(c, log, q, [x])
    ensures Sorted(c, log, q + [x])
  {
    hide PairOk;
    forall a, b | 0 <= a < b < |q + [x]|
      ensures PairOk(c, log, (q + [x])[a], (q + [x])[b])
    {
      if b == |q| {
        assert q[a] in q && x in [x];
      }
    }
  }

  /** A packet sent now may stand behind everything that is still to be executed. */
  lemma SentLast(c: Config, s: State, id: int, y: Packet)
    requires ValidConfig(c) && Ids(c, s) && LatestPending(s) && c.discipline != Unrestricted
    requires id in s.tracking && (c.discipline == CleanResend ==> NoCopy(c, s, id))
    requires y in s.net || y in s.inbox
    ensures PairOk(c, s.log, y, Primary(c, s.log[id]))
  {
    if y.data.id in s.log {
      assert Overlap(s.log[y.data.id], s.log[id]) == Overlap(s.log[id], s.log[y.data.id]);
    }
  }

  lemma SendKeepsQueues(c: Config, s: State, s': State, p: Packet)
    requires ValidConfig(c) && Queues(c, s)
    requires s'.log == s.log && s'.inbox == s.inbox && s'.net == s.net + [p]
    requires forall y :: y in s.net || y in s.inbox ==> PairOk(c, s.log, y, p)
    ensures Queues(c, s')
  {
    hide PairOk;
    SortedAppend(c, s.log, s.net, p);
  }

  /** Packets for different slaves never overlap. */
  lemma OtherSlave(c: Config, s: State, x: Packet, y: Packet)
    requires ValidConfig(c) && Ids(c, s) && GoodPacket(c, s, x) && GoodPacket(c, s, y)
    requires c.discipline == InOrder && x.dst != y.dst
    ensures PairOk(c, s.log, x, y)
  {
    if IsPrimary(c, x) && IsPrimary(c, y) && Overlap(s.log[x.data.id], s.log[y.data.id]) {
      OverlapSameSlave(c, s.log[x.data.id], s.log[y.data.id]);
    }
  }

  lemma DeliverKeepsQueues(c: Config, s: State, i: nat)
    requires ValidConfig(c) && Ids(c, s) && Packets(c, s) && Queues(c, s) && c.discipline != Unrestricted
    requires Enabled(c, s, Deliver(i))
    ensures Queues(c, Apply(c, s, Deliver(i)))
  {
    var s', x := Apply(c, s, Deliver(i)), s.net[i];
    SortedWithout(c, s.log, s.net, i);
    SortedAppend(c, s.log, s.inbox, x);
    forall j | 0 <= j < |s.net| && j != i
      ensures PairOk(c, s.log, x, s.net[j])
    {
      if j < i {
        assert PairOk(c, s.log, s.net[j], x);
        if c.discipline == InOrder {
          OtherSlave(c, s, x, s.net[j]);
        }
      }
    }
    hide PairOk;
    forall a, b | a in s'.inbox && b in s'.net
      ensures PairOk(c, s.log, a, b)
    {
      if a !in s.inbox {
        var j :| 0 <= j < |s'.net| && s'.net[j] == b;
        assert b == s.net[if j < i then j else j + 1];
      }
    }
  }

  lemma SameOldPackets(c: Config, s: State, s': State)
    requires Queues(c, s) && s'.net == s.net && s'.inbox == s.inbox
    requires ValidConfig(c) && Ids(c, s) && Packets(c, s) && Extends(s, s')
    ensures Queues(c, s')
  {
    hide Overlap, Primary, Backup;
    assert forall p :: p in s.net || p in s.inbox ==> GoodPacket(c, s, p);
    assert forall x: Packet, y: Packet ::
        x.data.id in s.log && y.data.id in s.log && PairOk(c, s.log, x, y) ==> PairOk(c, s'.log, x, y);
    hide PairOk, GoodPacket;
    assert forall i :: 0 <= i < |s.net| ==> s.net[i] in s.net && s.net[i].data.id in s.log;
    assert forall i :: 0 <= i < |s.inbox| ==> s.inbox[i] in s.inbox && s.inbox[i].data.id in s.log;
  }

  lemma PrimarySentKeepsQueues(c: Config, s: State, s': State, id: int)
    requires ValidConfig(c) && Ids(c, s) && LatestPending(s) && Queues(c, s) && c.discipline != Unrestricted
    requires id in s.tracking && (c.discipline == CleanResend ==> NoCopy(c, s, id))
    requires s'.log == s.log && s'.inbox == s.inbox && s'.net == s.net + [Primary(c, s.log[id])]
    ensures Queues(c, s')
  {
    hide PairOk, Primary, NoCopy;
    forall y | y in s.net || y in s.inbox
      ensures PairOk(c, s.log, y, Primary(c, s.log[id]))
    {
      SentLast(c, s, id, y);
    }
    SendKeepsQueues(c, s, s', Primary(c, s.log[id]));
  }

  lemma BackupSentKeepsQueues(c: Config, s: State, s': State, id: int)
    requires ValidConfig(c) && Ids(c, s) && Queues(c, s) && id in s.log
    requires s'.log == s.log && s'.inbox == s.inbox && s'.net == s.net + [Backup(c, s.log[id])]
    ensures Queues(c, s')
  {
    PrimaryIsPrimary(c, s.log[id]);
    SendKeepsQueues(c, s, s', Backup(c, s.log[id]));
  }

  lemma RemovalKeepsQueues(c: Config, s: State, s': State, i: nat)
    requires Queues(c, s) && s'.log == s.log
    requires
      || (i < |s.net| && s'.net == Without(s.net, i) && s'.inbox == s.inbox)
      || (i < |s.inbox| && s'.inbox == Without(s.inbox, i) && s'.net == s.net)
    ensures Queues(c, s')
  {
    hide PairOk;
    if s'.inbox == s.inbox && i < |s.net| && s'.net == Without(s.net, i) {
      SortedWithout(c, s.log, s.net, i);
    } else {
      SortedWithout(c, s.log, s.inbox, i);
    }
  }

  lemma RepetitionKeepsQueues(c: Config, s: State, s': State, i: nat)
    requires Queues(c, s) && c.discipline == InOrder
    requires i < |s.net| && s' == s.(net := Twice(s.net, i))
    ensures Queues(c, s')
  {
    hide PairOk;
    SortedTwice(c, s.log, s.net, i);
    assert forall p :: p in s'.net ==> p in s.net;
  }

  lemma ExecuteKeepsQueues(c: Config, s: State, i: nat)
    requires ValidConfig(c) && Queues(c, s) && Enabled(c, s, Execute(i))
    ensures Queues(c, DoExecute(c, s, i))
  {
    hide Queues;
    RemovalKeepsQueues(c, s, DoExecute(c, s, i), i);
  }

  lemma QueuesKeep(c: Config, s: State, step: Step)
    requires ValidConfig(c) && Inv(c, s) && Disciplined(c, s) && c.discipline != Unrestricted
    requires Enabled(c, s, step)
    ensures Queues(c, Apply(c, s, step))
  {
    var s' := Apply(c, s, step);
    StepExtends(c, s, step);
    hide Queues, Extends, OneCopy, AllHarmless, Primary, Backup, Acceptable, Stages, NothingLost, Replies,
         Packets, LatestPending, BackupsZero, DoExecute;
    match step {
      case SendBackup(id) => BackupSentKeepsQueues(c, s, s', id);
      case Send(id) => PrimarySentKeepsQueues(c, s, s', id);
      case Resend(id) => PrimarySentKeepsQueues(c, s, s', id);
      case LosePacket(i) => RemovalKeepsQueues(c, s, s', i);
      case DuplicatePacket(i) => RepetitionKeepsQueues(c, s, s', i);
      case Deliver(i) => DeliverKeepsQueues(c, s, i);
      case Execute(i) => ExecuteKeepsQueues(c, s, i);
      case _ => SameOldPackets(c, s, s');
    }
  }

  // ------------------------------------------------- tracked but not yet sent

  lemma NothingBeforeTracking(c: Config, s: State, id: int)
    requires ValidConfig(c) && Ids(c, s) && Packets(c, s) && Replies(s) && !Started(s, id)
    ensures NoCopy(c, s, id)
  {
    hide Primary, Backup;
    assert forall p :: p in s.net || p in s.inbox ==> GoodPacket(c, s, p);
    assert forall r :: r in s.replies ==> GoodReply(s, r);
  }

  lemma ReplyIsForPrimary(c: Config, s: State, i: nat)
    requires ValidConfig(c) && Ids(c, s) && Packets(c, s) && Enabled(c, s, Execute(i))
    ensures var s' := DoExecute(c, s, i);
            && s'.log == s.log && s'.tracking == s.tracking && s'.toCloud == s.toCloud && s'.net == s.net
            && s'.handles == s.handles && s'.toNbd == s.toNbd
            && (s'.replies == s.replies
                || exists r :: s'.replies == s.replies + multiset{r} && r.id == s.inbox[i].data.id
                      && IsPrimary(c, s.inbox[i]))
  {
    var p, s' := s.inbox[i], DoExecute(c, s, i);
    assert GoodPacket(c, s, p);
    var reply := Reply(s.stores[p.dst], p.data, c.slaveSize);
    if reply.Some? {
      assert s'.replies == s.replies + multiset{Heard(reply.value)};
    }
  }

  lemma UnsentExecute(c: Config, s: State, i: nat)
    requires ValidConfig(c) && Inv(c, s) && Unsent(c, s) && Enabled(c, s, Execute(i))
    ensures Unsent(c, DoExecute(c, s, i))
  {
    var s' := DoExecute(c, s, i);
    ReplyIsForPrimary(c, s, i);
    assert s.inbox[i] in s.inbox;
    assert forall p :: p in s'.inbox ==> p in s.inbox by {
      hide Stored, Reply, Heard;
    }
    hide DoExecute, IsPrimary;
  }

  lemma UnsentTrack(c: Config, s: State, id: int)
    requires ValidConfig(c) && Inv(c, s) && Unsent(c, s) && Enabled(c, s, Track(id))
    ensures Unsent(c, Apply(c, s, Track(id)))
  {
    NothingBeforeTracking(c, s, id);
    hide Primary, Inv, Acceptable;
  }

  lemma UnsentSend(c: Config, s: State, step: Step)
    requires ValidConfig(c) && Inv(c, s) && Unsent(c, s) && c.discipline != Unrestricted
    requires Enabled(c, s, step) && (step.SendBackup? || step.Send? || step.Resend?)
    ensures Unsent(c, Apply(c, s, step))
  {
    hide Unsent, IsPrimary, Stages, NothingLost, LatestPending, BackupsZero, Replies, Acceptable;
    PrimaryIsPrimary(c, s.log[step.id]);
    var p := if step.SendBackup? then Backup(c, s.log[step.id]) else Primary(c, s.log[step.id]);
    assert p.data.id == step.id;
    hide Primary, Backup, Packets;
    UnsentOneMore(c, s, Apply(c, s, step), p);
  }

  lemma UnsentOneMore(c: Config, s: State, s': State, p: Packet)
    requires ValidConfig(c) && Unsent(c, s)
    requires s'.net == s.net + [p] && s'.inbox == s.inbox && s'.replies == s.replies && s'.tracking == s.tracking
    requires forall id :: id in s'.toCloud && s'.toCloud[id] == Tracked ==>
               id in s.toCloud && s.toCloud[id] == Tracked && (IsPrimary(c, p) ==> id != p.data.id)
    ensures Unsent(c, s')
  {
    hide IsPrimary;
  }

  lemma UnsentFewerMessages(c: Config, s: State, s': State)
    requires ValidConfig(c) && Unsent(c, s)
    requires forall p :: p in s'.net ==> p in s.net
    requires forall p :: p in s'.inbox ==> p in s.inbox || p in s.net
    requires forall r :: r in s'.replies ==> r in s.replies
    requires forall id :: id in s'.toCloud && s'.toCloud[id] == Tracked ==> id in s.toCloud && s.toCloud[id] == Tracked
    requires forall id :: id in s.tracking && id !in s'.tracking ==> exists r :: r in s.replies && r.id == id
    ensures Unsent(c, s')
  {
    hide IsPrimary;
  }

  lemma UnsentKeeps(c: Config, s: State, step: Step)
    requires ValidConfig(c) && Inv(c, s) && Unsent(c, s) && c.discipline != Unrestricted
    requires Enabled(c, s, step)
    ensures Unsent(c, Apply(c, s, step))
  {
    hide Unsent, Inv, Acceptable, Primary, Backup, NoCopy, DoExecute;
    if step.Execute? {
      UnsentExecute(c, s, step.i);
    } else if step.Track? {
      UnsentTrack(c, s, step.id);
    } else if step.SendBackup? || step.Send? || step.Resend? {
      UnsentSend(c, s, step);
    } else {
      UnsentOthers(c, s, step);
    }
  }

  lemma UnsentOthers(c: Config, s: State, step: Step)
    requires ValidConfig(c) && Unsent(c, s) && Enabled(c, s, step)
    requires !step.Execute? && !step.Track? && !step.SendBackup? && !step.Send? && !step.Resend?
    ensures Unsent(c, Apply(c, s, step))
  {
    hide Unsent, Acceptable, Overlap, DoExecute, NoCopy, Primary, Backup;
    UnsentFewerMessages(c, s, Apply(c, s, step));
  }

  // ------------------------------------------------------- CleanResend: one copy

  /** Under CleanResend the copy being executed is the only one of its request. */
  lemma OnlyThisCopy(c: Config, s: State, i: nat)
    requires ValidConfig(c) && Queues(c, s) && Ids(c, s) && Packets(c, s) && c.discipline == CleanResend
    requires i < |s.inbox| && IsPrimary(c, s.inbox[i])
    ensures forall p :: (p in s.net || p in Without(s.inbox, i)) && IsPrimary(c, p) ==> p.data.id != s.inbox[i].data.id
  {
    hide Primary, Backup;
    var x, rest := s.inbox[i], Without(s.inbox, i);
    assert GoodPacket(c, s, x);
    forall p | (p in s.net || p in rest) && IsPrimary(c, p)
      ensures p.data.id != x.data.id
    {
      assert GoodPacket(c, s, p) by {
        assert p in rest ==> p in s.inbox;
      }
      if p in s.net {
        assert PairOk(c, s.log, x, p);
      } else {
        var j :| 0 <= j < |rest| && rest[j] == p;
        if j < i {
          assert PairOk(c, s.log, s.inbox[j], x);
        } else {
          assert s.inbox[j + 1] == p && PairOk(c, s.log, x, s.inbox[j + 1]);
        }
      }
    }
  }

  lemma OneCopyAnswered(c: Config, s: State, s': State, p: Packet, r: DriverData)
    requires ValidConfig(c) && OneCopy(c, s) && p in s.inbox && IsPrimary(c, p) && r.id == p.data.id
    requires s'.net == s.net && s'.tracking == s.tracking && s'.replies == s.replies + multiset{r}
    requires forall x :: x in s'.inbox ==> x in s.inbox
    requires forall x :: (x in s'.net || x in s'.inbox) && IsPrimary(c, x) ==> x.data.id != p.data.id
    ensures OneCopy(c, s')
  {
    hide IsPrimary;
    assert r !in s.replies;
  }

  lemma OneCopyExecute(c: Config, s: State, i: nat)
    requires ValidConfig(c) && Inv(c, s) && Queues(c, s) && OneCopy(c, s) && c.discipline == CleanResend
    requires Enabled(c, s, Execute(i))
    ensures OneCopy(c, DoExecute(c, s, i))
  {
    hide IsPrimary, Queues, OneCopy, Stages, NothingLost, LatestPending, BackupsZero, Replies, Primary, Backup;
    var s', p := DoExecute(c, s, i), s.inbox[i];
    assert s'.inbox == Without(s.inbox, i);
    assert forall x :: x in s'.inbox ==> x in s.inbox;
    ReplyIsForPrimary(c, s, i);
    hide DoExecute;
    if s'.replies == s.replies {
      OneCopyFewer(c, s, s');
    } else {
      var r :| s'.replies == s.replies + multiset{r} && r.id == p.data.id && IsPrimary(c, p);
      OnlyThisCopy(c, s, i);
      OneCopyAnswered(c, s, s', p, r);
    }
  }

  lemma OneCopySent(c: Config, s: State, s': State, p: Packet)
    requires ValidConfig(c) && OneCopy(c, s)
    requires s'.net == s.net + [p] && s'.inbox == s.inbox && s'.replies == s.replies && s'.tracking == s.tracking
    requires IsPrimary(c, p) ==> p.data.id in s.tracking && forall r :: r in s.replies ==> r.id != p.data.id
    ensures OneCopy(c, s')
  {
    hide IsPrimary;
  }

  lemma OneCopySend(c: Config, s: State, step: Step)
    requires ValidConfig(c) && Inv(c, s) && Unsent(c, s) && OneCopy(c, s) && c.discipline == CleanResend
    requires Enabled(c, s, step) && (step.SendBackup? || step.Send? || step.Resend?)
    ensures OneCopy(c, Apply(c, s, step))
  {
    hide OneCopy, IsPrimary, Stages, NothingLost, LatestPending, BackupsZero, Replies, Acceptable;
    PrimaryIsPrimary(c, s.log[step.id]);
    var p := if step.SendBackup? then Backup(c, s.log[step.id]) else Primary(c, s.log[step.id]);
    assert p.data.id == step.id;
    hide Primary, Backup;
    OneCopySent(c, s, Apply(c, s, step), p);
  }

  /** Receiving the one reply ends the request: nothing of it is left anywhere. */
  lemma OneCopyReceive(c: Config, s: State, reply: DriverData)
    requires ValidConfig(c) && Inv(c, s) && OneCopy(c, s) && Enabled(c, s, Receive(reply))
    ensures OneCopy(c, Apply(c, s, Receive(reply)))
  {
    hide IsPrimary, Inv;
    var s' := Apply(c, s, Receive(reply));
    assert reply !in s'.replies;
  }

  lemma OneCopyFewer(c: Config, s: State, s': State)
    requires ValidConfig(c) && OneCopy(c, s)
    requires forall p :: p in s'.net ==> p in s.net
    requires forall p :: p in s'.inbox ==> p in s.inbox || p in s.net
    requires s'.replies <= s.replies && s.tracking.Keys <= s'.tracking.Keys
    ensures OneCopy(c, s')
  {
    hide IsPrimary;
    assert forall r :: r in s'.replies ==> r in s.replies && s'.replies[r] <= s.replies[r];
  }

  lemma OneCopyKeeps(c: Config, s: State, step: Step)
    requires ValidConfig(c) && Inv(c, s) && Disciplined(c, s) && c.discipline == CleanResend
    requires Enabled(c, s, step)
    ensures OneCopy(c, Apply(c, s, step))
  {
    hide OneCopy, Inv, Acceptable, Primary, Backup, NoCopy, DoExecute, Queues, Unsent, AllHarmless;
    if step.Execute? {
      OneCopyExecute(c, s, step.i);
    } else if step.SendBackup? || step.Send? || step.Resend? {
      OneCopySend(c, s, step);
    } else if step.Receive? {
      OneCopyReceive(c, s, step.reply);
    } else {
      OneCopyFewer(c, s, Apply(c, s, step));
    }
  }

  lemma OneCopyIsHarmless(c: Config, s: State)
    requires ValidConfig(c) && Ids(c, s) && OneCopy(c, s)
    ensures AllHarmless(c, s)
  {
  }

  // ----------------------------------------------- InOrder: harmless duplicates

  /** What makes a packet harmless outlasts a step that leaves the stores alone and, for pending
      requests, adds no reply. */
  lemma HarmlessPersists(c: Config, s: State, s': State, p: Packet)
    requires ValidConfig(c) && Harmless(c, s, p) && p.data.id in s.log
    requires Extends(s, s') && s'.stores == s.stores && s.handles.Keys <= s'.handles.Keys
    requires forall w :: w in s.handles && Evidence(s', w) ==> Evidence(s, w)
    ensures Harmless(c, s', p)
  {
    hide CoversAt, ByteAt, IsPrimary;
    forall k: nat, q: nat | Shielded(c, s, k, q)
      ensures Shielded(c, s', k, q)
    {
      var w :| BusyWith(c, s, w, k, q) && !Evidence(s, w);
      assert BusyWith(c, s', w, k, q);
    }
  }

  /** A packet sent by a pending request, or for the backup half, is harmless. */
  lemma SentIsHarmless(c: Config, s: State, id: int)
    requires ValidConfig(c) && id in s.log && s.log[id].id == id && Acceptable(c, s.log[id])
    ensures id in s.handles ==> Harmless(c, s, Primary(c, s.log[id]))
    ensures Harmless(c, s, Backup(c, s.log[id]))
  {
    PrimaryIsPrimary(c, s.log[id]);
  }

  lemma QuietKeepsHarmless(c: Config, s: State, step: Step)
    requires ValidConfig(c) && Inv(c, s) && Unsent(c, s) && AllHarmless(c, s) && Enabled(c, s, step)
    requires c.discipline != Unrestricted && !step.Execute? && !step.Answer?
    ensures AllHarmless(c, Apply(c, s, step))
  {
    hide Harmless, Stages, NothingLost, Packets, Replies, LatestPending, BackupsZero, Acceptable, Overlap,
         Primary, Backup, NoCopy, Evidence, Extends;
    var s' := Apply(c, s, step);
    StepExtends(c, s, step);
    if step.SendBackup? || step.Send? || step.Resend? {
      SentIsHarmless(c, s', step.id);
      assert step.Resend? ==> s.tracking[step.id] == Primary(c, s.log[step.id]) by {
        TrackedMessage(c, s, step.id);
      }
    }
    OldPacketsLogged(c, s);
    OldEvidence(c, s, step);
    forall p | p in s'.net || p in s'.inbox
      ensures Harmless(c, s', p)
    {
      if p in s.net || p in s.inbox {
        HarmlessPersists(c, s, s', p);
      }
    }
  }

  lemma TrackedMessage(c: Config, s: State, id: int)
    requires ValidConfig(c) && Ids(c, s) && Packets(c, s)
    ensures id in s.tracking ==> id in s.log && s.tracking[id] == Primary(c, s.log[id])
  {
  }

  lemma OldPacketsLogged(c: Config, s: State)
    requires ValidConfig(c) && Ids(c, s) && Packets(c, s)
    ensures forall p :: p in s.net || p in s.inbox ==> p.data.id in s.log
  {
    hide Primary, Backup;
    assert forall p :: p in s.net || p in s.inbox ==> GoodPacket(c, s, p);
  }

  lemma OldEvidence(c: Config, s: State, step: Step)
    requires ValidConfig(c) && Enabled(c, s, step) && !step.Execute?
    ensures forall w :: Evidence(Apply(c, s, step), w) ==> Evidence(s, w)
  {
    hide Primary, Backup, Acceptable, NoCopy;
  }

  /** A packet that overlaps a pending one and stands before it under InOrder belongs to the same
      request or an earlier one; so no stale overlapping packet is left when it is executed. */
  lemma NoStaleBehind(c: Config, s: State, i: nat, m: Packet, k: nat, q: nat)
    requires ValidConfig(c) && Inv(c, s) && Queues(c, s) && c.discipline == InOrder
    requires Enabled(c, s, Execute(i)) && IsPrimary(c, s.inbox[i]) && s.inbox[i].data.id in s.handles
    requires (m in s.net || m in Without(s.inbox, i)) && IsPrimary(c, m)
    requires m.data.id in s.log && CoversAt(c, s.log[m.data.id], k, q) && CoversAt(c, s.log[s.inbox[i].data.id], k, q)
    ensures m.data.id == s.inbox[i].data.id
  {
    hide Primary, Backup, IsPrimary, CoversAt, Acceptable, Overlap;
    var p, rest := s.inbox[i], Without(s.inbox, i);
    CommonByteOverlaps(c, s.log[p.data.id], s.log[m.data.id], k, q);
    assert m.data.id <= p.data.id;
    if m in s.net {
      assert PairOk(c, s.log, p, m);
    } else {
      var j :| 0 <= j < |rest| && rest[j] == m;
      if j < i {
        assert s.inbox[j] == m && m in s.inbox && p in s.inbox;
        SameSlave(c, s, p, m, k, q);
      } else {
        assert s.inbox[j + 1] == m && PairOk(c, s.log, p, s.inbox[j + 1]);
      }
    }
  }

  lemma SameSlave(c: Config, s: State, x: Packet, y: Packet, k: nat, q: nat)
    requires ValidConfig(c) && GoodPacket(c, s, x) && GoodPacket(c, s, y) && IsPrimary(c, x) && IsPrimary(c, y)
    requires CoversAt(c, s.log[x.data.id], k, q) && CoversAt(c, s.log[y.data.id], k, q)
    ensures x.dst == y.dst
  {
  }

  lemma ExecuteKeepsHarmless(c: Config, s: State, i: nat, m: Packet)
    requires ValidConfig(c) && Inv(c, s) && Queues(c, s) && AllHarmless(c, s) && c.discipline == InOrder
    requires Enabled(c, s, Execute(i)) && (m in s.net || m in Without(s.inbox, i))
    ensures Harmless(c, DoExecute(c, s, i), m)
  {
    var s', p := DoExecute(c, s, i), s.inbox[i];
    assert m in s.net || m in s.inbox;
    assert GoodPacket(c, s, m) && Harmless(c, s, m) && Harmless(c, s, p);
    ExecuteFrame(c, s, i);
    if WritesPrimary(c, m) && m.data.id !in s.handles {
      forall k: nat, q: nat | CoversAt(c, s.log[m.data.id], k, q) && k < |s'.stores|
        ensures At(s'.stores[k], q) == ByteAt(c, s'.log[m.data.id], q) || Shielded(c, s', k, q)
      {
        ExecuteKeepsHarmlessByte(c, s, i, m, k, q);
      }
    }
  }

  lemma ExecuteKeepsHarmlessByte(c: Config, s: State, i: nat, m: Packet, k: nat, q: nat)
    requires ValidConfig(c) && Inv(c, s) && Queues(c, s) && c.discipline == InOrder && Enabled(c, s, Execute(i))
    requires m in s.net || m in Without(s.inbox, i)
    requires Harmless(c, s, m) && Harmless(c, s, s.inbox[i])
    requires WritesPrimary(c, m) && m.data.id in s.log && m.data.id !in s.handles
    requires CoversAt(c, s.log[m.data.id], k, q) && k < |s.stores|
    ensures At(DoExecute(c, s, i).stores[k], q) == ByteAt(c, s.log[m.data.id], q)
            || Shielded(c, DoExecute(c, s, i), k, q)
  {
    var s', p := DoExecute(c, s, i), s.inbox[i];
    ExecuteFrame(c, s, i);
    CoversInside(c, s.log[m.data.id], k, q);
    ExecutedByte(c, s, i, k, q);
    PacketKind(c, s, p);
    BackupGivesNoEvidence(c, s, i);
    hide DoExecute, IsPrimary, CoversAt, ByteAt, Packets, Queues;
    if p.data.id in s.handles && WritesPrimary(c, p) && CoversAt(c, s.log[p.data.id], k, q) {
      NoStaleBehind(c, s, i, m, k, q);
    } else if Shielded(c, s, k, q) {
      var w :| BusyWith(c, s, w, k, q) && !Evidence(s, w);
      ExecutedEvidence(c, s, i, w);
      assert BusyWith(c, s', w, k, q);
    }
  }

  /** An answered write leaves only duplicates that carry what its slave holds. */
  lemma AnswerKeepsHarmless(c: Config, s: State, reply: DriverData, m: Packet)
    requires ValidConfig(c) && Inv(c, s) && Settled(c, s) && Enabled(c, s, Answer(reply))
    requires (m in s.net || m in s.inbox) && Harmless(c, s, m)
    ensures Harmless(c, Apply(c, s, Answer(reply)), m)
  {
    assert GoodPacket(c, s, m);
    PacketKind(c, s, m);
    hide Inv, Settled, CoversAt, ByteAt, GoodPacket;
    if WritesPrimary(c, m) && m.data.id !in Apply(c, s, Answer(reply)).handles {
      forall k: nat, q: nat | CoversAt(c, s.log[m.data.id], k, q) && k < |s.stores|
        ensures At(s.stores[k], q) == ByteAt(c, s.log[m.data.id], q) || Shielded(c, Apply(c, s, Answer(reply)), k, q)
      {
        AnswerKeepsHarmlessByte(c, s, reply, m, k, q);
      }
    }
  }

  lemma AnswerKeepsHarmlessByte(c: Config, s: State, reply: DriverData, m: Packet, k: nat, q: nat)
    requires ValidConfig(c) && Settled(c, s) && Enabled(c, s, Answer(reply)) && Harmless(c, s, m)
    requires IsPrimary(c, m) && m.data.kind == WRITE && m.data.id in s.log && s.log[m.data.id].kind == WRITE
    requires m.data.id !in s.handles || m.data.id == reply.id
    requires CoversAt(c, s.log[m.data.id], k, q) && k < |s.stores|
    ensures At(s.stores[k], q) == ByteAt(c, s.log[m.data.id], q) || Shielded(c, Apply(c, s, Answer(reply)), k, q)
  {
    hide CoversAt, ByteAt, IsPrimary;
    var s' := Apply(c, s, Answer(reply));
    assert Evidence(s, reply.id);
    if m.data.id in s.handles {
      assert BusyWith(c, s, m.data.id, k, q);
    } else if Shielded(c, s, k, q) {
      var w :| BusyWith(c, s, w, k, q) && !Evidence(s, w);
      assert BusyWith(c, s', w, k, q);
      assert !Evidence(s', w);
    }
  }

  lemma HarmlessKeeps(c: Config, s: State, step: Step)
    requires ValidConfig(c) && Inv(c, s) && Disciplined(c, s) && Settled(c, s) && c.discipline == InOrder
    requires Enabled(c, s, step)
    ensures AllHarmless(c, Apply(c, s, step))
  {
    var s' := Apply(c, s, step);
    hide Harmless, Inv, Settled, Acceptable, Primary, Backup, NoCopy, Queues, Unsent;
    if step.Execute? {
      forall p | p in s'.net || p in s'.inbox
        ensures Harmless(c, s', p)
      {
        ExecuteKeepsHarmless(c, s, step.i, p);
      }
    } else if step.Answer? {
      forall p | p in s'.net || p in s'.inbox
        ensures Harmless(c, s', p)
      {
        AnswerKeepsHarmless(c, s, step.reply, p);
      }
    } else {
      QuietKeepsHarmless(c, s, step);
    }
  }

  /** Both rules keep themselves, step by step. */
  lemma DisciplineKeeps(c: Config, s: State, step: Step)
    requires ValidConfig(c) && Inv(c, s) && Disciplined(c, s) && Settled(c, s) && c.discipline != Unrestricted
    requires Enabled(c, s, step)
    ensures Disciplined(c, Apply(c, s, step))
  {
    QueuesKeep(c, s, step);
    UnsentKeeps(c, s, step);
    StepKeeps(c, s, step);
    hide Queues, Unsent, OneCopy, AllHarmless, Settled, Ids, Apply;
    if c.discipline == CleanResend {
      OneCopyKeeps(c, s, step);
      OneCopyIsHarmless(c, Apply(c, s, step));
    } else {
      HarmlessKeeps(c, s, step);
    }
  }
}
