/** The protocol's structured messages are exactly what its datagrams say. */
module EndToEnd {
  import opened Base
  import opened Data
  import opened Address
  import opened Wire
  import opened Protocol
  import opened Invariants
  import N = NbdProxy
  import M = SlavesManager

  predicate Sendable(c: Config, d: DriverData) {
    && d.offset < 2 * c.slaveSize && d.len <= c.maxLength && 0 <= d.id <= INT_MAX
    && (d.kind == READ || d.kind == WRITE) && |d.buffer| <= d.len
  }

  /** Messages are big enough for every request and reply of this configuration. */
  ghost predicate Roomy(c: Config, size: nat) {
    && 2 * c.slaveSize <= LONG_MAX && c.maxLength <= INT_MAX
    && forall d :: Sendable(c, d) ==> RequestFits(d, size) && ReplyFits(d, size)
  }

  /** The datagram that the master makes of a logged request (SlavesManager.SendToDriver). */
  function Datagram(c: Config, d: DriverData, backup: bool, size: nat): Result<(nat, bytes)>
    requires ValidConfig(c)
  {
    if backup then M.BackupDatagram(d, c.slaveSize, c.slaves, size) else M.PrimaryDatagram(d, c.slaveSize, size)
  }

  /** What the protocol logs when it accepts a request is what the NBD stream said: the record that
      receive_from_driver returns, under the same id and with the same handle. */
  lemma AcceptsWhatTheStreamSays(c: Config, s: State, r: N.NbdRequest, tail: bytes)
    requires ValidConfig(c) && N.WellFormed(r) && r.flags == 0
    requires Enabled(c, s, Accept(N.Record(r, 0), r.handle))
    ensures var s' := Apply(c, s, Accept(N.Record(r, 0), r.handle));
            && s'.counter in s'.log && s'.counter in s'.handles
            && N.Receive(N.Encode(r) + tail, s.counter + 1)
               == N.Received(Ok(s'.log[s'.counter]), Some(s'.handles[s'.counter]), tail)
  {
    hide N.Receive, N.Encode;
    N.TakesExactlyOne(r, tail, s.counter + 1);
  }

  /** Where the copies of a request go: the primary copy to the slave that its offset names, under
      the offset within that slave; the backup copy of a WRITE to the slave behind that one, the
      first one being behind the last, under the same offset in the upper half. Two slaves are
      enough to keep them apart. */
  ghost predicate WellAddressed(c: Config, d: DriverData, p: Packet)
    requires ValidConfig(c)
  {
    var home := d.offset / c.slaveSize;
    && p.dst < c.slaves && home < c.slaves
    && p.data.id == d.id && p.data.kind == d.kind && p.data.len == d.len
    && (p.data.offset < c.slaveSize ==>
          && p.dst * c.slaveSize + p.data.offset == d.offset
          && p.data.buffer == if d.kind == 1 then d.buffer else [])
    && (p.data.offset >= c.slaveSize ==>
          && d.kind == 1 && p.data.offset == c.slaveSize + d.offset % c.slaveSize
          && p.dst == (home + 1) % c.slaves && (p.dst != home <==> c.slaves >= 2)
          && BackupOf(p.dst, p.data.offset, c.slaveSize, c.slaves) == d.offset
          && |p.data.buffer| == d.len && forall i :: 0 <= i < d.len ==> p.data.buffer[i] == 0)
  }

  /** Every copy of every request, wherever it is on its way to a task of a slave, is addressed so. */
  lemma CopiesGoWhereTheyBelong(c: Config, steps: seq<Step>, p: Packet)
    requires ValidConfig(c) && Legal(c, steps)
    requires p in Run(c, steps).net || p in Run(c, steps).inbox
    ensures p.data.id in Run(c, steps).log && WellAddressed(c, Run(c, steps).log[p.data.id], p)
  {
    RunKeeps(c, steps);
    var s := Run(c, steps);
    assert GoodPacket(c, s, p);
    var d := s.log[p.data.id];
    hide Inv, Run, Legal, WellAddressed;
    PacketAddressed(c, d, p);
  }

  lemma PacketAddressed(c: Config, d: DriverData, p: Packet)
    requires ValidConfig(c) && Acceptable(c, d)
    requires p == Primary(c, d) || (p == Backup(c, d) && d.kind == WRITE)
    ensures WellAddressed(c, d, p)
  {
    var home, local := d.offset / c.slaveSize, d.offset % c.slaveSize;
    PrimaryBijection(d.offset, 0, 0, c.slaveSize, c.slaves);
    BackupBijection(d.offset, 0, c.slaveSize, c.slaveSize, c.slaves);
    NextInRing(home, c.slaves);
  }

  lemma NextInRing(index: nat, slaves: nat)
    requires index < slaves
    ensures NextSlave(index, slaves) == (index + 1) % slaves
  {
  }

  /** In every reachable state, under any network: each request in flight is the datagram that the
      master's code makes of the logged request, to that slave, and the slave's codec parses it to
      exactly the record the protocol delivers, ready for its task. */
  lemma RequestsSurviveTheWire(c: Config, steps: seq<Step>, size: nat, p: Packet)
    requires ValidConfig(c) && Legal(c, steps) && Roomy(c, size)
    requires p in Run(c, steps).net || p in Run(c, steps).inbox
    ensures p.data.id in Run(c, steps).log
    ensures var sent := Datagram(c, Run(c, steps).log[p.data.id], p.data.offset >= c.slaveSize, size);
            sent.Ok? && sent.value.0 == p.dst && ParseRequest(sent.value.1) == Ok(p.data)
    ensures if p.data.kind == READ then p.data.buffer == [] else |p.data.buffer| == p.data.len
  {
    RunKeeps(c, steps);
    var s := Run(c, steps);
    assert GoodPacket(c, s, p);
    var d := s.log[p.data.id];
    hide Inv, Run, Legal, ParseRequest, RequestHeader, RequestFits, ReplyFits, RequestMessage;
    PacketSurvives(c, d, p, size);
  }

  lemma PacketSurvives(c: Config, d: DriverData, p: Packet, size: nat)
    requires ValidConfig(c) && Roomy(c, size) && Acceptable(c, d) && 0 <= d.id <= INT_MAX
    requires p == Primary(c, d) || (p == Backup(c, d) && d.kind == WRITE)
    ensures var sent := Datagram(c, d, p.data.offset >= c.slaveSize, size);
            sent.Ok? && sent.value.0 == p.dst && ParseRequest(sent.value.1) == Ok(p.data)
  {
    hide ParseRequest, RequestFits, ReplyFits;
    assert Sendable(c, p.data) && RequestFits(p.data, size);
    if p == Primary(c, d) {
      var sent := PrimaryData(d, c.slaveSize);
      assert Carried(p.data, WRITE) == Carried(sent, WRITE) && RequestHeader(p.data) == RequestHeader(sent);
      RequestRoundTrip(p.data, size);
    } else {
      BackupCarriesOnlyZeros(p.data, size);
    }
  }

  /** Likewise for every reply on its way to the master. */
  lemma RepliesSurviveTheWire(c: Config, steps: seq<Step>, size: nat, r: DriverData)
    requires ValidConfig(c) && Legal(c, steps) && Roomy(c, size)
    requires r in Run(c, steps).replies
    ensures ReplyMessage(r, size).Ok? && ParseReply(ReplyMessage(r, size).value) == Ok(r)
  {
    RunKeeps(c, steps);
    var s := Run(c, steps);
    assert GoodReply(s, r) && Acceptable(c, s.log[r.id]);
    hide Inv, Run, Legal, ParseReply, TailHeader, RequestFits, ReplyFits;
    assert Sendable(c, r) && ReplyFits(r, size);
    ReplyRoundTrip(r, size);
  }

  /** The shipped configuration has room. */
  lemma ConfiguredIsRoomy(c: Config)
    requires c.slaveSize == 4194304 && c.maxLength == 4096
    ensures Roomy(c, 4136)
  {
    hide RequestFits, ReplyFits;
    forall d | Sendable(c, d)
      ensures RequestFits(d, 4136) && ReplyFits(d, 4136)
    {
      ConfiguredMessagesFit(d);
    }
  }
}
