/** The master's SlavesManager: it routes requests to slaves, tracks what it sent, and sends it
    again when no reply came in time. Time is in nanoseconds and never runs backwards. */
module SlavesManager {
  import opened Base
  import opened Data
  import opened Address
  import opened Wire

  const SECOND := 1_000_000_000

  datatype DataTracker = DataTracker(slave: nat, deadline: int, message: bytes)

  type Datagram = (nat, bytes)

  /** What goes to the slave that keeps the primary copy, and to which slave that is. */
  function PrimaryDatagram(d: DriverData, slaveSize: nat, size: nat): Result<Datagram>
    requires slaveSize > 0
  {
    var message :- RequestMessage(PrimaryData(d, slaveSize), size);
    Ok((SlaveIndex(d.offset, slaveSize), message))
  }

  /** What goes to the slave behind it. */
  function BackupDatagram(d: DriverData, slaveSize: nat, slaves: nat, size: nat): Result<Datagram>
    requires slaveSize > 0
  {
    var message :- RequestMessage(BackupData(d, slaveSize), size);
    Ok((BackupIndex(d.offset, slaveSize, slaves), message))
  }

  function Latest(a: int, b: int): int {
    if a < b then b else a
  }

  class SlavesManager {
    const slaveSize: nat
    const slaves: nat
    const messageSize: nat
    const timeout: nat // m_timeout_before_resend
    const born: nat    // when the resending thread started
    var sockets: nat   // m_servers_vec.size()
    var tracking: map<int, DataTracker>
    var outbox: seq<Datagram> // every datagram sent so far
    var nextWakeUp: int
    var now: nat
    var ticks: seq<nat> // how far the clock moves before each of the next readings
    var faults: seq<bool> // which of the next sends fail
    var resending: bool // the resending thread has not ended

    /** Configuration the code relies on: slaves have a size, a resend waits at least a second. */
    ghost predicate Valid()
      reads this`now
    {
      slaveSize > 0 && timeout >= SECOND && born <= now
    }

    /** The resending thread sleeps past no deadline: not past a tracked one, and not past one
        stamped within the last second that has yet to enter the map. */
    ghost predicate OnTime()
      reads this`tracking, this`nextWakeUp, this`now
    {
      && (forall id :: id in tracking ==> nextWakeUp <= tracking[id].deadline)
      && nextWakeUp <= Latest(born, now - SECOND) + timeout
    }

    constructor (slaveSize: nat, slaves: nat, messageSize: nat, timeout: nat, now: nat, ticks: seq<nat>,
                 faults: seq<bool>)
      requires slaveSize > 0 && timeout >= SECOND
      ensures Valid() && OnTime() && resending
      ensures this.slaveSize == slaveSize && this.slaves == slaves && this.messageSize == messageSize
      ensures this.timeout == timeout && tracking == map[] && outbox == [] && sockets == 0
    {
      this.slaveSize, this.slaves, this.messageSize, this.timeout := slaveSize, slaves, messageSize, timeout;
      this.born, this.now, this.ticks, this.faults := now, now, ticks, faults;
      sockets, tracking, outbox, resending := 0, map[], [], true;
      nextWakeUp := now + SECOND;
    }

    /** system_clock::now */
    method Now() returns (t: nat)
      modifies this`now, this`ticks
      ensures t == now >= old(now)
    {
      if ticks != [] {
        now := now + ticks[0];
        ticks := ticks[1..];
      }
      t := now;
    }

    /** m_servers_vec.at throws when there is no such slave, and check_fail when send_msg fails. */
    method WriteIntoSocket(message: bytes, slave: nat) returns (thrown: Option<Error>)
      modifies this`outbox, this`faults
      ensures thrown == SendOutcome(slave, sockets, old(faults)) && faults == LaterFaults(slave, sockets, old(faults))
      ensures outbox == if thrown.None? then old(outbox) + [(slave, message)] else old(outbox)
      ensures thrown == Some(OutOfRange) <==> slave >= sockets
      ensures thrown == Some(IoFailure) <==> slave < sockets && old(faults) != [] && old(faults)[0]
      ensures thrown.None? <==> slave < sockets && (old(faults) == [] || !old(faults)[0])
      ensures slave < sockets && old(faults) != [] ==> faults == old(faults)[1..]
    {
      if slave >= sockets {
        return Some(OutOfRange);
      }
      var failed := faults != [] && faults[0];
      faults := if faults == [] then [] else faults[1..];
      if failed {
        return Some(IoFailure);
      }
      outbox := outbox + [(slave, message)];
      return None;
    }

    /** keep_track_on_data, first half: the deadline is stamped before the lock is taken. */
    method Stamp() returns (deadline: int)
      requires Valid()
      modifies this`now, this`ticks
      ensures now >= old(now) && deadline == now + timeout
      ensures old(OnTime()) ==> OnTime()
    {
      var t := Now();
      deadline := t + timeout;
    }

    /** keep_track_on_data, second half: the entry enters the map at most a second later. An id
        that is already there keeps its entry. */
    method Insert(id: int, slave: nat, message: bytes, deadline: int)
      requires Valid() && born + timeout <= deadline <= now + timeout <= deadline + SECOND
      modifies this`tracking
      ensures tracking == if id in old(tracking) then old(tracking)
                          else old(tracking)[id := DataTracker(slave, deadline, message)]
      ensures old(OnTime()) ==> OnTime()
    {
      if id !in tracking {
        tracking := tracking[id := DataTracker(slave, deadline, message)];
      }
    }

    method SendBackup(d: DriverData) returns (thrown: Option<Error>)
      requires Valid() && d.kind == WRITE
      modifies this`outbox, this`faults
      ensures var copy := BackupDatagram(d, slaveSize, slaves, messageSize);
              && copy.Ok?
              && thrown == SendOutcome(copy.value.0, sockets, old(faults))
              && faults == LaterFaults(copy.value.0, sockets, old(faults))
              && outbox == if thrown.None? then old(outbox) + [copy.value] else old(outbox)
    {
      var slave := NextSlave(SlaveIndex(d.offset, slaveSize), slaves);
      var message := SerializeData(d.(offset := d.offset % slaveSize + slaveSize, buffer := []), messageSize);
      thrown := WriteIntoSocket(message.value, slave);
    }

    /** send_to_driver, run without interruption. The request is tracked before it is sent, with
        the message that is sent; a write goes to the backup slave first. A send that throws leaves
        what was done before it: a failed backup sends and tracks nothing more, a failed primary
        copy stays tracked. A payload that does not fit its message is an overrun; what follows it is
        undefined in the source. */
    method SendToDriver(d: DriverData) returns (thrown: Option<Error>)
      requires Valid() && OnTime()
      modifies this`outbox, this`tracking, this`now, this`ticks, this`faults
      ensures Valid() && OnTime()
      ensures
        var primary, copy := PrimaryDatagram(d, slaveSize, messageSize),
                             BackupDatagram(d, slaveSize, slaves, messageSize);
        copy.Ok? &&
        var early := if d.kind == WRITE then SendOutcome(copy.value.0, sockets, old(faults)) else None;
        var later := if d.kind == WRITE then LaterFaults(copy.value.0, sockets, old(faults)) else old(faults);
        var sent := if d.kind == WRITE then old(outbox) + [copy.value] else old(outbox);
        if early.Some? then thrown == early && outbox == old(outbox) && tracking == old(tracking)
        else if primary.Err? then thrown == Some(primary.error) && outbox == sent && tracking == old(tracking)
        else
          && thrown == SendOutcome(primary.value.0, sockets, later)
          && outbox == (if thrown.None? then sent + [primary.value] else sent)
          && tracking == (if d.id in old(tracking) then old(tracking)
                          else old(tracking)[d.id := DataTracker(primary.value.0, now + timeout, primary.value.1)])
    {
      if d.kind == WRITE {
        thrown := SendBackup(d);
        if thrown.Some? {
          return;
        }
      }
      var slave := SlaveIndex(d.offset, slaveSize);
      var message := SerializeData(d.(offset := d.offset % slaveSize), messageSize);
      if message.Err? {
        return Some(message.error);
      }
      var deadline := Stamp();
      Insert(d.id, slave, message.value, deadline);
      thrown := WriteIntoSocket(message.value, slave);
    }

    /** receive_from_driver: the reply's entry is erased; the offset it carries means nothing. */
    method ReceiveFromDriver(slave: nat, message: bytes) returns (r: Result<DriverData>)
      requires Valid()
      modifies this`tracking
      ensures r == if slave < sockets then ParseReply(message) else Err(OutOfRange)
      ensures tracking == if r.Ok? then old(tracking) - {r.value.id} else old(tracking)
      ensures old(OnTime()) ==> OnTime()
    {
      if slave >= sockets {
        return Err(OutOfRange);
      }
      r := DeserializeData(message);
      if r.Ok? {
        r := Ok(r.value.(offset := r.value.offset * (slave + 1)));
        tracking := tracking - {r.value.id};
      }
    }

    /** One map entry of a round: sent again and armed anew if it is overdue at this moment. */
    method Visit(id: int) returns (thrown: Option<Error>, overdue: bool)
      requires Valid() && OnTime() && id in tracking
      modifies this`outbox, this`tracking, this`now, this`ticks, this`nextWakeUp, this`faults
      ensures Valid() && OnTime() && now >= old(now) && nextWakeUp <= old(nextWakeUp) && id in tracking
      ensures old(tracking)[id].deadline < old(now) ==> overdue
      ensures overdue ==> old(tracking)[id].deadline < now
      ensures thrown == if overdue then SendOutcome(old(tracking)[id].slave, sockets, old(faults)) else None
      ensures old(faults) == [] ==> faults == []
      ensures overdue && thrown.None? ==>
                && outbox == old(outbox) + [(old(tracking)[id].slave, old(tracking)[id].message)]
                && tracking == old(tracking)[id := old(tracking)[id].(deadline := tracking[id].deadline)]
                && tracking[id].deadline == now + timeout
      ensures !overdue || thrown.Some? ==> tracking == old(tracking) && outbox == old(outbox)
    {
      var entry := tracking[id];
      var t := Now();
      overdue := entry.deadline < t;
      thrown := None;
      if overdue {
        thrown := WriteIntoSocket(entry.message, entry.slave);
        if thrown.Some? {
          return;
        }
        t := Now();
        tracking := tracking[id := entry.(deadline := t + timeout)];
      }
      if nextWakeUp > tracking[id].deadline {
        nextWakeUp := tracking[id].deadline;
      }
    }

    /** One round of resending_thread, in whatever order the map is walked and however the clock
        moves meanwhile. Every entry already overdue when the round begins is sent again; the next
        wake-up comes no later than any deadline. While anything is tracked the wake-up never moves
        to a later time, so from the first expiry on the thread does not sleep until the map
        empties. A send that throws leaves the loop, and with it ends the thread: nothing is sent
        again after that. */
    method ResendRound() returns (thrown: Option<Error>, ghost resent: seq<int>)
      requires Valid() && OnTime() && resending
      modifies this`outbox, this`tracking, this`now, this`ticks, this`nextWakeUp, this`faults, this`resending
      ensures Valid() && OnTime() && now >= old(now) && resending == thrown.None?
      ensures old(outbox) <= outbox
      ensures Round(old(tracking), tracking, resent, outbox[|old(outbox)|..], old(now), now, timeout)
      ensures thrown.None? ==>
                forall id :: id in old(tracking) && old(tracking)[id].deadline < old(now) ==> id in resent
      ensures old(faults) == [] && (forall id :: id in old(tracking) ==> old(tracking)[id].slave < sockets) ==>
                thrown.None?
      ensures old(tracking) != map[] ==> nextWakeUp <= old(nextWakeUp)
      ensures thrown.None? && old(tracking) == map[] ==> nextWakeUp == now + timeout - SECOND
    {
      hide OnTime, Valid, Round;
      resent, thrown := [], None;
      assert outbox[|outbox|..] == [];
      RoundBegins(tracking, now, timeout);
      var todo := tracking.Keys;
      while todo != {}
        invariant todo <= tracking.Keys == old(tracking).Keys && thrown.None? && resending
        invariant Valid() && now >= old(now) && OnTime() && nextWakeUp <= old(nextWakeUp) && old(outbox) <= outbox
        invariant Round(old(tracking), tracking, resent, outbox[|old(outbox)|..], old(now), now, timeout)
        invariant forall id :: id in todo ==> tracking[id] == old(tracking)[id] && id !in resent
        invariant Covered(old(tracking), todo, resent, old(now)) && (old(faults) == [] ==> faults == [])
        decreases todo
      {
        var id := AnyOf(todo);
        ghost var map0, out0, visited := tracking, outbox, now;
        var overdue;
        thrown, overdue := Visit(id);
        if thrown.Some? {
          RoundLater(old(tracking), tracking, resent, outbox[|old(outbox)|..], old(now), visited, now, timeout);
          resending := false;
          return;
        }
        ghost var more := if overdue then [(map0[id].slave, map0[id].message)] else [];
        assert outbox[|old(outbox)|..] == out0[|old(outbox)|..] + more;
        VisitInRound(old(tracking), map0, tracking, resent, out0[|old(outbox)|..], old(now), visited, now, timeout, id,
                     overdue);
        CoveredOnce(old(tracking), todo, resent, old(now), id, overdue);
        resent := if overdue then resent + [id] else resent;
        todo := todo - {id};
      }
      if tracking == map[] {
        EmptyRound(old(tracking), tracking, resent, outbox[|old(outbox)|..], old(now), now, timeout);
        SleepUntil();
      }
    }

    /** With nothing tracked: a second before any new entry could expire. */
    method SleepUntil()
      requires Valid() && tracking == map[]
      modifies this`now, this`ticks, this`nextWakeUp
      ensures Valid() && OnTime() && now >= old(now) && nextWakeUp == now + timeout - SECOND
    {
      var t := Now();
      nextWakeUp := t + timeout - SECOND;
    }
  }

  /** What a send does: there is no such slave, or send_msg fails, or the datagram leaves. */
  function SendOutcome(slave: nat, sockets: nat, faults: seq<bool>): Option<Error> {
    if slave >= sockets then Some(OutOfRange) else if faults != [] && faults[0] then Some(IoFailure) else None
  }

  function LaterFaults(slave: nat, sockets: nat, faults: seq<bool>): seq<bool> {
    if slave >= sockets || faults == [] then faults else faults[1..]
  }

  /** What a round did between two clock readings: the ids in `resent`, each once, each found
      overdue, went out again in that order to their own slaves with their own messages and are
      armed anew; every other entry is as it was. */
  ghost predicate Round(before: map<int, DataTracker>, after: map<int, DataTracker>, resent: seq<int>,
                        sent: seq<Datagram>, start: int, end: int, timeout: nat)
  {
    && after.Keys == before.Keys && |sent| == |resent|
    && (forall k :: 0 <= k < |resent| ==>
          && resent[k] in before && before[resent[k]].deadline < end
          && sent[k] == (before[resent[k]].slave, before[resent[k]].message))
    && (forall j, k :: 0 <= j < k < |resent| ==> resent[j] != resent[k])
    && (forall id :: id in before && id !in resent ==> after[id] == before[id])
    && (forall id :: id in before && id in resent ==>
          && after[id] == before[id].(deadline := after[id].deadline)
          && start + timeout <= after[id].deadline <= end + timeout)
  }

  /** What was overdue at the start and is no longer to be visited has been sent again. */
  ghost predicate Covered(before: map<int, DataTracker>, todo: set<int>, resent: seq<int>, start: int) {
    forall id :: id in before && id !in todo && before[id].deadline < start ==> id in resent
  }

  lemma CoveredOnce(before: map<int, DataTracker>, todo: set<int>, resent: seq<int>, start: int, id: int, overdue: bool)
    requires Covered(before, todo, resent, start) && id in before && (before[id].deadline < start ==> overdue)
    ensures Covered(before, todo - {id}, if overdue then resent + [id] else resent, start)
  {
    assert id in resent + [id];
  }

  lemma RoundBegins(before: map<int, DataTracker>, start: int, timeout: nat)
    ensures Round(before, before, [], [], start, start, timeout)
  {
  }

  lemma EmptyRound(before: map<int, DataTracker>, after: map<int, DataTracker>, resent: seq<int>,
                   sent: seq<Datagram>, start: int, end: int, timeout: nat)
    requires Round(before, after, resent, sent, start, end, timeout) && after == map[]
    ensures before == map[]
    ensures forall later :: end <= later ==> Round(before, after, resent, sent, start, later, timeout)
  {
  }

  lemma RoundLater(before: map<int, DataTracker>, after: map<int, DataTracker>, resent: seq<int>,
                   sent: seq<Datagram>, start: int, end: int, later: int, timeout: nat)
    requires Round(before, after, resent, sent, start, end, timeout) && end <= later
    ensures Round(before, after, resent, sent, start, later, timeout)
  {
  }

  /** One visit of a round. */
  lemma VisitInRound(before: map<int, DataTracker>, map0: map<int, DataTracker>, map1: map<int, DataTracker>,
                     resent: seq<int>, sent: seq<Datagram>, start: int, visited: int, now: int, timeout: nat, id: int,
                     overdue: bool)
    requires Round(before, map0, resent, sent, start, visited, timeout) && start <= visited <= now
    requires id in before && id in map0 && id !in resent
    requires overdue ==>
               && map0[id].deadline < now && id in map1 && map1 == map0[id := map0[id].(deadline := map1[id].deadline)]
               && visited + timeout <= map1[id].deadline <= now + timeout
    requires !overdue ==> map1 == map0
    ensures map0[id] == before[id]
    ensures var more := if overdue then [(map0[id].slave, map0[id].message)] else [];
            Round(before, map1, if overdue then resent + [id] else resent, sent + more, start, now, timeout)
  {
    RoundLater(before, map0, resent, sent, start, visited, now, timeout);
    assert sent + [] == sent;
  }
}
