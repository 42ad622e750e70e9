/** The replicated block device as a system of atomic steps: the client and the NBD proxy, the
    master's to-cloud and to-NBD tasks, the tracking map with its resending thread, the datagrams
    in both directions, and the slaves with their pending tasks and storage files. */
module Protocol {
  import opened Base
  import opened Data
  import opened Address
  import opened SlaveTasks
  import opened Wire

  /** When a tracked request may be sent again, and what the links and slaves may reorder and
      repeat. The code enforces neither rule; it only waits for a deadline. Under every rule any
      message may be lost. */
  datatype Discipline =
    | CleanResend  // any reordering, no repetition, a resend only when no copy or reply is alive
    | InOrder      // any repetition, resends at any time after the first send, but links and slaves keep order
    | Unrestricted // any reordering, any repetition and any resend

  datatype Config = Config(slaveSize: nat, slaves: nat, maxLength: nat, discipline: Discipline)

  predicate ValidConfig(c: Config) {
    c.slaveSize > 0 && c.slaves > 0
  }

  /** How far the to-cloud task of a request has come; a task that has sent is gone. */
  datatype CloudStage = Queued | BackedUp | Tracked

  datatype Packet = Packet(dst: nat, data: DriverData)

  datatype State = State(
    counter: nat,                  // m_id_counter
    log: map<int, DriverData>,     // every request accepted so far (history)
    handles: map<int, bytes>,      // m_handles_map: accepted and not answered
    toCloud: map<int, CloudStage>, // to-cloud tasks, pending or executing
    tracking: map<int, Packet>,    // m_tracking_map
    net: seq<Packet>,              // requests in flight, oldest first
    inbox: seq<Packet>,            // requests received by slaves and not executed, oldest first
    stores: seq<bytes>,            // the storage file of each slave
    replies: multiset<DriverData>, // replies in flight, as the master will parse them
    toNbd: multiset<DriverData>,   // to-NBD tasks pending
    executed: set<int>)            // ids whose primary copy some slave has executed (history)

  datatype Step =
    | Accept(request: DriverData, handle: bytes)
    | SendBackup(id: int)
    | Track(id: int)
    | Send(id: int)
    | LosePacket(i: nat)
    | DuplicatePacket(i: nat)
    | Deliver(i: nat)
    | Execute(i: nat)
    | LoseReply(reply: DriverData)
    | DuplicateReply(reply: DriverData)
    | Receive(reply: DriverData)
    | Resend(id: int)
    | Answer(reply: DriverData)

  function Init(c: Config): State {
    State(0, map[], map[], map[], map[], [], [], seq(c.slaves, _ => []), multiset{}, multiset{}, {})
  }

  // ---------------------------------------------------------------- messages

  /** The tracked message, as the primary slave parses it. */
  function Primary(c: Config, d: DriverData): Packet
    requires ValidConfig(c)
  {
    Packet(SlaveIndex(d.offset, c.slaveSize),
           d.(offset := LocalOffset(d.offset, c.slaveSize), buffer := Carried(d, WRITE)))
  }

  /** The backup message: it is built without the payload, so the slave parses zeros. */
  function Backup(c: Config, d: DriverData): Packet
    requires ValidConfig(c)
  {
    Packet(BackupIndex(d.offset, c.slaveSize, c.slaves),
           d.(offset := BackupOffset(d.offset, c.slaveSize), buffer := Zeros(d.len)))
  }

  predicate IsPrimary(c: Config, p: Packet) {
    p.data.offset < c.slaveSize
  }

  /** A reply as the master parses it. */
  function Heard(d: DriverData): DriverData {
    d.(offset := 0, buffer := Carried(d, READ))
  }

  // ------------------------------------------------------------------ guards

  predicate Overlap(a: DriverData, b: DriverData) {
    a.len > 0 && b.len > 0 && a.offset < b.offset + b.len && b.offset < a.offset + a.len
  }

  /** A READ or WRITE inside the device that stays in one slave-sized extent. */
  predicate Acceptable(c: Config, d: DriverData)
    requires ValidConfig(c)
  {
    && (d.kind == READ || d.kind == WRITE)
    && |d.buffer| == d.len <= c.maxLength
    && d.offset < c.slaves * c.slaveSize
    && LocalOffset(d.offset, c.slaveSize) + d.len <= c.slaveSize
  }

  /** No request copy and no reply of id is alive. */
  predicate NoCopy(c: Config, s: State, id: int) {
    && (forall p :: p in s.net && IsPrimary(c, p) ==> p.data.id != id)
    && (forall p :: p in s.inbox && IsPrimary(c, p) ==> p.data.id != id)
    && (forall r :: r in s.replies ==> r.id != id)
  }

  predicate FirstFor(q: seq<Packet>, i: nat)
    requires i < |q|
  {
    forall j :: 0 <= j < i ==> q[j].dst != q[i].dst
  }

  predicate Enabled(c: Config, s: State, step: Step)
    requires ValidConfig(c)
  {
    match step
    case Accept(request, _) =>
      && Acceptable(c, request)
      && s.counter < INT_MAX
      && forall id :: id in s.handles && id in s.log ==> !Overlap(s.log[id], request)
    case SendBackup(id) => id in s.toCloud && s.toCloud[id] == Queued && id in s.log && s.log[id].kind == WRITE
    case Track(id) =>
      id in s.toCloud && id in s.log && s.toCloud[id] == if s.log[id].kind == WRITE then BackedUp else Queued
    case Send(id) => id in s.toCloud && s.toCloud[id] == Tracked && id in s.log
    case LosePacket(i) => i < |s.net|
    case DuplicatePacket(i) => i < |s.net| && c.discipline != CleanResend
    case Deliver(i) => i < |s.net| && (c.discipline == InOrder ==> FirstFor(s.net, i))
    case Execute(i) =>
      i < |s.inbox| && s.inbox[i].dst < |s.stores| && (c.discipline == InOrder ==> FirstFor(s.inbox, i))
    case LoseReply(reply) => reply in s.replies
    case DuplicateReply(reply) => reply in s.replies && c.discipline != CleanResend
    case Receive(reply) => reply in s.replies
    case Resend(id) =>
      && id in s.tracking
      && (c.discipline != Unrestricted ==> id !in s.toCloud)
      && (c.discipline == CleanResend ==> NoCopy(c, s, id))
    case Answer(reply) => reply in s.toNbd
  }

  // ------------------------------------------------------------------- steps

  function Without<T>(q: seq<T>, i: nat): seq<T>
    requires i < |q|
  {
    q[..i] + q[i + 1..]
  }

  /** A copy right behind the original. */
  function Twice<T>(q: seq<T>, i: nat): seq<T>
    requires i < |q|
  {
    q[..i + 1] + q[i..]
  }

  /** convert_handle_to_id and process_request(TO_CLOUD_TASK). */
  function DoAccept(s: State, request: DriverData, handle: bytes): State {
    var id := s.counter + 1;
    s.(counter := id, log := s.log[id := request.(id := id)], handles := s.handles[id := handle],
       toCloud := s.toCloud[id := Queued])
  }

  /** The slave runs the task of one received request. */
  function DoExecute(c: Config, s: State, i: nat): State
    requires i < |s.inbox| && s.inbox[i].dst < |s.stores|
  {
    var p := s.inbox[i];
    var file := s.stores[p.dst];
    var reply := Reply(file, p.data, c.slaveSize);
    s.(inbox := Without(s.inbox, i),
       stores := s.stores[p.dst := Stored(file, p.data)],
       replies := if reply.Some? then s.replies + multiset{Heard(reply.value)} else s.replies,
       executed := if IsPrimary(c, p) then s.executed + {p.data.id} else s.executed)
  }

  function Apply(c: Config, s: State, step: Step): State
    requires ValidConfig(c) && Enabled(c, s, step)
  {
    match step
    case Accept(request, handle) => DoAccept(s, request, handle)
    case SendBackup(id) => s.(toCloud := s.toCloud[id := BackedUp], net := s.net + [Backup(c, s.log[id])])
    case Track(id) =>
      s.(toCloud := s.toCloud[id := Tracked],
         tracking := if id in s.tracking then s.tracking else s.tracking[id := Primary(c, s.log[id])])
    case Send(id) => s.(toCloud := s.toCloud - {id}, net := s.net + [Primary(c, s.log[id])])
    case LosePacket(i) => s.(net := Without(s.net, i))
    case DuplicatePacket(i) => s.(net := Twice(s.net, i))
    case Deliver(i) => s.(net := Without(s.net, i), inbox := s.inbox + [s.net[i]])
    case Execute(i) => DoExecute(c, s, i)
    case LoseReply(reply) => s.(replies := s.replies - multiset{reply})
    case DuplicateReply(reply) => s.(replies := s.replies + multiset{reply})
    case Receive(reply) =>
      s.(replies := s.replies - multiset{reply}, tracking := s.tracking - {reply.id},
         toNbd := s.toNbd + multiset{reply})
    case Resend(id) => s.(net := s.net + [s.tracking[id]])
    case Answer(reply) => s.(toNbd := s.toNbd - multiset{reply}, handles := s.handles - {reply.id})
  }

  // -------------------------------------------------------------------- runs

  predicate Legal(c: Config, steps: seq<Step>)
    requires ValidConfig(c)
    decreases |steps|, 0
  {
    steps == [] ||
    (Legal(c, steps[..|steps| - 1]) && Enabled(c, Run(c, steps[..|steps| - 1]), steps[|steps| - 1]))
  }

  /** The state a legal run ends in. */
  function Run(c: Config, steps: seq<Step>): State
    requires ValidConfig(c) && Legal(c, steps)
    decreases |steps|, 1
  {
    if steps == [] then Init(c)
    else Apply(c, Run(c, steps[..|steps| - 1]), steps[|steps| - 1])
  }

  /** What the client sees of a step. */
  datatype Event =
    | Accepted(id: int, handle: bytes, request: DriverData)
    | Answered(id: int, handle: bytes, request: DriverData, data: bytes)
    | Internal

  function Seen(c: Config, s: State, step: Step): Event
    requires ValidConfig(c) && Enabled(c, s, step)
  {
    match step
    case Accept(request, handle) => Accepted(s.counter + 1, handle, request.(id := s.counter + 1))
    case Answer(reply) =>
      if reply.id in s.handles && reply.id in s.log
      then Answered(reply.id, s.handles[reply.id], s.log[reply.id], reply.buffer)
      else Internal // an unmapped handle: the answer to a late duplicate
    case _ => Internal
  }

  function Trace(c: Config, steps: seq<Step>): (t: seq<Event>)
    requires ValidConfig(c) && Legal(c, steps)
    ensures |t| == |steps|
  {
    if steps == [] then []
    else
      var before := steps[..|steps| - 1];
      Trace(c, before) + [Seen(c, Run(c, before), steps[|steps| - 1])]
  }

  /** A legal run followed by an enabled step is a legal run. */
  lemma Extend(c: Config, steps: seq<Step>, step: Step)
    requires ValidConfig(c) && Legal(c, steps) && Enabled(c, Run(c, steps), step)
    ensures Legal(c, steps + [step]) && Run(c, steps + [step]) == Apply(c, Run(c, steps), step)
    ensures Trace(c, steps + [step]) == Trace(c, steps) + [Seen(c, Run(c, steps), step)]
  {
    hide Apply, Enabled, Seen;
    var longer := steps + [step];
    assert longer[..|longer| - 1] == steps && longer[|longer| - 1] == step;
  }
}
