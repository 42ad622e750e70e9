/** Why a rule is needed: with free reordering and free resends, a late duplicate of an old write
    undoes a newer acknowledged one, and a read shows it. One slave of one byte is enough. */
module LateDuplicate {
  import opened Base
  import opened Data
  import opened ByteArray
  import opened Wire
  import opened SlaveTasks
  import opened Protocol
  import opened Device

  const C := Config(1, 1, 1, Unrestricted)

  /** A request for the one byte. */
  predicate OneByte(d: DriverData) {
    d.offset == 0 && d.len == 1 && |d.buffer| == 1 && (d.kind == READ || d.kind == WRITE)
  }

  function Copy(d: DriverData): Packet {
    Packet(0, d.(buffer := Carried(d, WRITE)))
  }

  function Ack(d: DriverData, file: bytes): DriverData {
    d.(buffer := ReadBack(file, 0, if d.kind == READ then 1 else 0))
  }

  lemma CopyIsPrimary(d: DriverData)
    requires OneByte(d)
    ensures Primary(C, d) == Copy(d) && IsPrimary(C, Copy(d))
  {
  }

  /** Nothing is pending; `net` is still in flight, the slave holds `file`. */
  function Quiet(log: map<int, DriverData>, n: nat, net: seq<Packet>, file: bytes, done: set<int>): State {
    State(n, log, map[], map[], map[], net, [], [file], multiset{}, multiset{}, done)
  }

  /** Only d is pending; it was tracked and sent. */
  function Sent(log: map<int, DriverData>, d: DriverData, net: seq<Packet>, file: bytes, done: set<int>): State {
    var n: nat := if d.id > 0 then d.id else 0;
    Quiet(log, n, net, file, done).(handles := map[d.id := []], tracking := map[d.id := Copy(d)])
  }

  /** One more step of a run. */
  lemma Go(steps: seq<Step>, step: Step, s': State) returns (longer: seq<Step>)
    requires Legal(C, steps) && Enabled(C, Run(C, steps), step) && Apply(C, Run(C, steps), step) == s'
    ensures longer == steps + [step] && Legal(C, longer) && Run(C, longer) == s'
    ensures Trace(C, longer) == Trace(C, steps) + [Seen(C, Run(C, steps), step)]
  {
    hide Legal, Run, Trace, Seen, Enabled, Apply;
    longer := steps + [step];
    Extend(C, steps, step);
  }

  lemma LatestOf(t: seq<Event>, e: Event)
    requires e.Answered? ==> OneByte(e.request)
    ensures LatestWrite(t + [e], 0)
         == if e.Answered? && e.request.kind == WRITE then e.request.buffer[0] else LatestWrite(t, 0)
  {
    assert (t + [e])[..|t|] == t;
  }

  /** The client issues d; the master tracks and sends it. A backup copy is lost. */
  lemma Issue(steps: seq<Step>, d: DriverData, log: map<int, DriverData>, net: seq<Packet>, file: bytes, done: set<int>)
      returns (more: seq<Step>)
    requires OneByte(d) && 0 < d.id <= INT_MAX && d.id !in log
    requires Legal(C, steps) && Run(C, steps) == Quiet(log, d.id - 1, net, file, done)
    ensures Legal(C, more) && Run(C, more) == Sent(log[d.id := d], d, net + [Copy(d)], file, done)
    ensures LatestWrite(Trace(C, more), 0) == LatestWrite(Trace(C, steps), 0)
  {
    hide Legal, Run, Trace, LatestWrite;
    var id := d.id;
    CopyIsPrimary(d);
    var s := Run(C, steps).(counter := id, log := log[id := d], handles := map[id := []]);
    more := Go(steps, Accept(d, []), s.(toCloud := map[id := Queued]));
    LatestOf(Trace(C, steps), Trace(C, more)[|steps|]);
    if d.kind == WRITE {
      var t := more;
      more := Go(t, SendBackup(id), s.(toCloud := map[id := BackedUp], net := net + [Backup(C, d)]));
      LatestOf(Trace(C, t), Internal);
      t := more;
      assert Without(net + [Backup(C, d)], |net|) == net;
      more := Go(t, LosePacket(|net|), s.(toCloud := map[id := BackedUp]));
      LatestOf(Trace(C, t), Internal);
    }
    var t := more;
    more := Go(t, Track(id), s.(toCloud := map[id := Tracked], tracking := map[id := Copy(d)]));
    LatestOf(Trace(C, t), Internal);
    t := more;
    more := Go(t, Send(id), Sent(log[id := d], d, net + [Copy(d)], file, done));
    LatestOf(Trace(C, t), Internal);
  }

  /** The last packet sent is the first to arrive and to be executed. */
  lemma Arrive(steps: seq<Step>, d: DriverData, log: map<int, DriverData>, net: seq<Packet>, file: bytes,
        done: set<int>)
      returns (more: seq<Step>)
    requires OneByte(d) && 0 < d.id && d.id in log && log[d.id] == d && |file| <= 1
    requires Legal(C, steps) && Run(C, steps) == Sent(log, d, net + [Copy(d)], file, done)
    ensures Legal(C, more)
    ensures Run(C, more) == Sent(log, d, net, if d.kind == WRITE then d.buffer else file, done + {d.id})
                            .(replies := multiset{Ack(d, file)})
    ensures LatestWrite(Trace(C, more), 0) == LatestWrite(Trace(C, steps), 0)
  {
    hide Legal, Run, Trace, LatestWrite, DoExecute, Ack;
    var s := Run(C, steps).(net := net);
    assert Without(net + [Copy(d)], |net|) == net;
    more := Go(steps, Deliver(|net|), s.(inbox := [Copy(d)]));
    LatestOf(Trace(C, steps), Internal);
    var t := more;
    ExecutesCopy(Run(C, t), d, file);
    more := Go(t, Execute(0), s.(stores := [if d.kind == WRITE then d.buffer else file], executed := done + {d.id},
                                 replies := multiset{Ack(d, file)}));
    LatestOf(Trace(C, t), Internal);
  }

  /** So it is answered and acknowledged. */
  lemma Finish(steps: seq<Step>, d: DriverData, log: map<int, DriverData>, net: seq<Packet>, file: bytes,
        done: set<int>)
      returns (more: seq<Step>)
    requires OneByte(d) && 0 < d.id && d.id in log && log[d.id] == d && |file| <= 1
    requires Legal(C, steps) && Run(C, steps) == Sent(log, d, net + [Copy(d)], file, done)
    ensures Legal(C, more) && |more| > 0
    ensures Run(C, more) == Quiet(log, d.id, net, if d.kind == WRITE then d.buffer else file, done + {d.id})
    ensures Trace(C, more)[|more| - 1] == Answered(d.id, [], d, Ack(d, file).buffer)
    ensures LatestWrite(Trace(C, more)[..|more| - 1], 0) == LatestWrite(Trace(C, steps), 0)
    ensures LatestWrite(Trace(C, more), 0) == if d.kind == WRITE then d.buffer[0] else LatestWrite(Trace(C, steps), 0)
  {
    hide Legal, Run, Trace, LatestWrite;
    var ack := Ack(d, file);
    var t := Arrive(steps, d, log, net, file, done);
    var s := Quiet(log, d.id, net, if d.kind == WRITE then d.buffer else file, done + {d.id});
    more := Go(t, Receive(ack), s.(handles := map[d.id := []], toNbd := multiset{ack}));
    LatestOf(Trace(C, t), Internal);
    t := more;
    more := Go(t, Answer(ack), s);
    LatestOf(Trace(C, t), Trace(C, more)[|t|]);
    assert Trace(C, more)[..|t|] == Trace(C, t);
  }

  lemma ExecutesCopy(s: State, d: DriverData, file: bytes)
    requires OneByte(d) && s.inbox == [Copy(d)] && s.stores == [file] && |file| <= 1
    ensures DoExecute(C, s, 0) == s.(inbox := [], stores := [if d.kind == WRITE then d.buffer else file],
                                     replies := s.replies + multiset{Ack(d, file)}, executed := s.executed + {d.id})
  {
    CopyIsPrimary(d);
    assert Stored(file, Copy(d).data) == if d.kind == WRITE then d.buffer else file;
    assert ReadBack(file, 0, 0) == [];
  }

  /** A duplicate that is still in flight arrives and is executed. */
  lemma Duplicate(steps: seq<Step>, d: DriverData, log: map<int, DriverData>, n: nat, file: bytes, done: set<int>)
      returns (more: seq<Step>)
    requires OneByte(d) && d.kind == WRITE && |file| <= 1
    requires Legal(C, steps) && Run(C, steps) == Quiet(log, n, [Copy(d)], file, done)
    ensures Legal(C, more) && |more| > 0
    ensures Run(C, more) == Quiet(log, n, [], d.buffer, done + {d.id})
    ensures LatestWrite(Trace(C, more), 0) == LatestWrite(Trace(C, steps), 0)
  {
    hide Legal, Run, Trace, LatestWrite;
    CopyIsPrimary(d);
    var s := Quiet(log, n, [], d.buffer, done + {d.id});
    more := Go(steps, Deliver(0), Quiet(log, n, [], file, done).(inbox := [Copy(d)]));
    LatestOf(Trace(C, steps), Internal);
    var t := more;
    ExecutesCopy(Run(C, t), d, file);
    more := Go(t, Execute(0), s.(replies := multiset{Ack(d, file)}));
    LatestOf(Trace(C, t), Internal);
    t := more;
    more := Go(t, LoseReply(Ack(d, file)), s);
    LatestOf(Trace(C, t), Internal);
  }

  function Request(id: int, kind: int, b: byte): DriverData {
    DriverData(0, 1, id, kind, [b])
  }

  const ONE := Request(1, WRITE, 1)
  const TWO := Request(2, WRITE, 2)
  const THREE := Request(3, READ, 0)

  lemma Start()
    ensures Legal(C, []) && Run(C, []) == Quiet(map[], 0, [], [], {})
  {
  }

  /** The write of 1 is sent twice and acknowledged once. */
  lemma FirstWriteTwice() returns (t: seq<Step>)
    ensures Legal(C, t) && Run(C, t) == Quiet(map[1 := ONE], 1, [Copy(ONE)], [1], {1})
  {
    hide Run, Legal, Trace, LatestWrite;
    Start();
    t := Issue([], ONE, map[], [], [], {});
    assert map[][1 := ONE] == map[1 := ONE];
    t := Go(t, Resend(1), Sent(map[1 := ONE], ONE, [Copy(ONE), Copy(ONE)], [], {}));
    assert [Copy(ONE), Copy(ONE)] == [Copy(ONE)] + [Copy(ONE)];
    t := Finish(t, ONE, map[1 := ONE], [Copy(ONE)], [], {});
  }

  /** The write of 2 is acknowledged; then the second copy of the write of 1 arrives. */
  lemma SecondWriteUndone() returns (t: seq<Step>)
    ensures Legal(C, t) && LatestWrite(Trace(C, t), 0) == 2
    ensures Run(C, t) == Quiet(map[1 := ONE, 2 := TWO], 2, [], [1], {1, 2})
  {
    hide Run, Legal, Trace, LatestWrite;
    t := FirstWriteTwice();
    t := Issue(t, TWO, map[1 := ONE], [Copy(ONE)], [1], {1});
    assert map[1 := ONE][2 := TWO] == map[1 := ONE, 2 := TWO];
    t := Finish(t, TWO, map[1 := ONE, 2 := TWO], [Copy(ONE)], [1], {1});
    assert {1} + {2} == {1, 2};
    t := Duplicate(t, ONE, map[1 := ONE, 2 := TWO], 2, [2], {1, 2});
    assert {1, 2} + {1} == {1, 2};
  }

  /** A legal run whose last event answers a READ with a byte that is not the latest acknowledged
      write. */
  lemma StaleRead() returns (t: seq<Step>)
    ensures Legal(C, t) && |t| > 0
    ensures !ReadsLatest(Trace(C, t), |t| - 1)
  {
    hide Run, Legal, Trace, LatestWrite;
    t := SecondWriteUndone();
    t := Issue(t, THREE, map[1 := ONE, 2 := TWO], [], [1], {1, 2});
    t := Finish(t, THREE, map[1 := ONE, 2 := TWO][3 := THREE], [], [1], {1, 2});
    var e := Trace(C, t)[|t| - 1];
    assert e.data[0] == 1 && LatestWrite(Trace(C, t)[..|t| - 1], e.request.offset + 0) == 2;
  }
}
