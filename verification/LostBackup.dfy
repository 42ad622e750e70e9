/** A write whose second copy is worthless although no message was lost: two slaves of one byte, the
    backup datagram sent, delivered and executed, the write acknowledged. */
module LostBackup {
  import opened Base
  import opened Data
  import opened SlaveTasks
  import opened Protocol
  import opened Device
  import opened Theorems

  const C := Config(1, 2, 1, CleanResend)
  const D := DriverData(0, 1, 1, WRITE, [1])

  /** The states of the run differ only in the messages under way, the files and what is executed. */
  function During(stage: map<int, CloudStage>, net: seq<Packet>, inbox: seq<Packet>, first: bytes, second: bytes,
                  done: set<int>): State {
    State(1, map[1 := D], map[1 := []], stage, map[1 := Primary(C, D)], net, inbox, [first, second], multiset{},
          multiset{}, done)
  }

  lemma Messages()
    ensures Primary(C, D) == Packet(0, D) && IsPrimary(C, Primary(C, D))
    ensures Backup(C, D) == Packet(1, D.(offset := 1, buffer := [0])) && !IsPrimary(C, Backup(C, D))
  {
  }

  lemma Go(steps: seq<Step>, step: Step, s': State) returns (longer: seq<Step>)
    requires Legal(C, steps) && Enabled(C, Run(C, steps), step) && Apply(C, Run(C, steps), step) == s'
    ensures longer == steps + [step] && Legal(C, longer) && Run(C, longer) == s'
    ensures Trace(C, longer) == Trace(C, steps) + [Seen(C, Run(C, steps), step)]
  {
    hide Legal, Run, Trace, Seen, Enabled, Apply;
    longer := steps + [step];
    Extend(C, steps, step);
  }

  lemma Start()
    ensures Legal(C, [])
    ensures Run(C, []) == State(0, map[], map[], map[], map[], [], [], [[], []], multiset{}, multiset{}, {})
  {
  }

  /** The backup leaves before the request is tracked, and then the primary copy. */
  lemma BothSent() returns (t: seq<Step>)
    ensures Legal(C, t) && Run(C, t) == During(map[], [Backup(C, D), Primary(C, D)], [], [], [], {})
    ensures AllArrives(t)
  {
    hide Legal, Run, Trace, Primary, Backup;
    Start();
    Messages();
    var s := During(map[1 := Queued], [], [], [], [], {});
    t := Go([], Accept(D, []), s.(tracking := map[]));
    t := Go(t, SendBackup(1), s.(tracking := map[], toCloud := map[1 := BackedUp], net := [Backup(C, D)]));
    t := Go(t, Track(1), s.(toCloud := map[1 := Tracked], net := [Backup(C, D)]));
    t := Go(t, Send(1), During(map[], [Backup(C, D), Primary(C, D)], [], [], [], {}));
  }

  predicate AllArrives(t: seq<Step>) {
    forall e :: e in t ==> !e.LosePacket? && !e.LoseReply?
  }

  /** The one packet in the inbox of its slave is executed. */
  lemma Executes(s: State, p: Packet)
    requires s.inbox == [p] && p.dst < |s.stores|
    ensures var reply := Reply(s.stores[p.dst], p.data, C.slaveSize);
            DoExecute(C, s, 0)
              == s.(inbox := [], stores := s.stores[p.dst := Stored(s.stores[p.dst], p.data)],
                    replies := if reply.Some? then s.replies + multiset{Heard(reply.value)} else s.replies,
                    executed := if IsPrimary(C, p) then s.executed + {p.data.id} else s.executed)
  {
    hide Reply, Stored, Heard;
  }

  lemma BackupStored()
    ensures var d := D.(offset := 1, buffer := [0]); Stored([], d) == [0, 0] && Reply([], d, 1) == None
  {
  }

  lemma PrimaryStored()
    ensures Stored([], D) == [1] && Reply([], D, 1) == Some(D) && Heard(D) == D.(buffer := [])
  {
  }

  lemma BothExecuted() returns (t: seq<Step>)
    ensures Legal(C, t) && AllArrives(t)
    ensures Run(C, t) == During(map[], [], [], [1], [0, 0], {1}).(replies := multiset{D.(buffer := [])})
  {
    hide Legal, Run, Trace, Primary, Backup, DoExecute, Stored, Reply, Heard;
    Messages();
    BackupStored();
    PrimaryStored();
    t := BothSent();
    var s := During(map[], [Primary(C, D)], [Backup(C, D)], [], [], {});
    t := Go(t, Deliver(0), s);
    Executes(s, Backup(C, D));
    t := Go(t, Execute(0), During(map[], [Primary(C, D)], [], [], [0, 0], {}));
    s := During(map[], [], [Primary(C, D)], [], [0, 0], {});
    t := Go(t, Deliver(0), s);
    Executes(s, Primary(C, D));
    t := Go(t, Execute(0), During(map[], [], [], [1], [0, 0], {1}).(replies := multiset{D.(buffer := [])}));
  }

  /** The write of a 1 is acknowledged, nothing is pending and nothing was lost: the slave holds the 1
      and its backup holds 0. */
  lemma WriteCannotBeRestored() returns (t: seq<Step>)
    ensures Legal(C, t) && AllArrives(t) && Run(C, t).handles == map[] && LatestWrite(Trace(C, t), 0) == 1
    ensures |Run(C, t).stores| == 2 && DeviceByte(C, Run(C, t), 0) == 1 && BackupByte(C, Run(C, t), 0) == 0
  {
    hide Legal, Run, Trace, Primary, Backup, LatestWrite;
    var reply := D.(buffer := []);
    t := BothExecuted();
    var s := During(map[], [], [], [1], [0, 0], {1}).(tracking := map[], toNbd := multiset{reply});
    t := Go(t, Receive(reply), s);
    var before := t;
    t := Go(t, Answer(reply), s.(toNbd := multiset{}, handles := map[]));
    LastWriteIsLatest(Trace(C, before), Answered(1, [], D, []));
  }

  lemma LastWriteIsLatest(t: seq<Event>, e: Event)
    requires e.Answered? && e.request == D
    ensures LatestWrite(t + [e], 0) == 1
  {
  }
}
