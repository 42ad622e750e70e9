/** Harm reaches the reader. With no rule at all, executing a packet is harmless if and only if no
    reader can ever tell. */
module Exposure {
  import opened Base
  import opened Data
  import opened ByteArray
  import opened Address
  import opened SlaveTasks
  import opened Protocol
  import opened Invariants
  import opened Device
  import opened Agreement
  import opened Theorems

  /** A longer run that from `base` on executes only harmless packets. */
  ghost predicate Continues(c: Config, base: seq<Step>, t: seq<Step>)
    requires ValidConfig(c)
  {
    base <= t && Legal(c, t) && HarmlessFrom(c, t, |base|)
  }

  /** Every READ that the run answers returns the latest acknowledged writes. */
  ghost predicate ReadsAreLatest(c: Config, t: seq<Step>)
    requires ValidConfig(c)
  {
    Legal(c, t) && forall k :: 0 <= k < |t| ==> ReadsLatest(Trace(c, t), k)
  }

  // ---------------------------------------------------------- harmless is safe

  lemma {:induction false} HarmlessJoin(c: Config, base: seq<Step>, t: seq<Step>)
    requires ValidConfig(c) && Legal(c, base) && HarmlessRun(c, base) && Continues(c, base, t)
    ensures HarmlessRun(c, t)
  {
    if |t| == |base| {
      assert t == base;
    } else {
      HarmlessJoin(c, base, t[..|t| - 1]);
    }
  }

  lemma HarmlessRunsReadLatest(c: Config, t: seq<Step>)
    requires ValidConfig(c) && Legal(c, t) && HarmlessRun(c, t)
    ensures ReadsAreLatest(c, t)
  {
    AgreesIffHarmless(c, t);
    hide Legal, Trace, Follows, ReadsLatest;
    forall k | 0 <= k < |t|
      ensures ReadsLatest(Trace(c, t), k)
    {
      FollowersReadLatest(Trace(c, t), k);
    }
  }

  // ---------------------------------------------------------- harm shows

  lemma On(c: Config, base: seq<Step>, t: seq<Step>, step: Step) returns (longer: seq<Step>)
    requires ValidConfig(c) && Continues(c, base, t) && Enabled(c, Run(c, t), step)
    requires step.Execute? ==> Run(c, t).inbox[step.i].data.kind == READ
    ensures longer == t + [step] && Continues(c, base, longer) && Run(c, longer) == Apply(c, Run(c, t), step)
    ensures Trace(c, longer) == Trace(c, t) + [Seen(c, Run(c, t), step)]
  {
    longer := t + [step];
    hide Enabled, Apply, Seen, Run, Legal, Trace;
    Extend(c, t, step);
    assert longer[..|longer| - 1] == t && longer[|longer| - 1] == step;
  }

  lemma LatestAfter(t: seq<Event>, e: Event, p: nat)
    ensures LatestWrite(t + [e], p)
         == if e.Answered? && e.request.kind == WRITE && e.request.offset <= p < e.request.offset + |e.request.buffer|
            then e.request.buffer[p - e.request.offset] else LatestWrite(t, p)
  {
    assert (t + [e])[..|t|] == t;
  }

  /** What a step leaves alone that only moves messages. */
  ghost predicate Still(s: State, s': State) {
    s'.stores == s.stores && s'.handles == s.handles && s'.log == s.log && s'.counter == s.counter
  }

  /** And what it does not change for a reader of p. */
  ghost predicate Quietly(c: Config, t: seq<Step>, longer: seq<Step>, p: nat)
    requires ValidConfig(c) && Legal(c, t) && Legal(c, longer)
  {
    Still(Run(c, t), Run(c, longer)) && LatestWrite(Trace(c, longer), p) == LatestWrite(Trace(c, t), p)
  }

  lemma Known(c: Config, base: seq<Step>, t: seq<Step>)
    requires ValidConfig(c) && Continues(c, base, t)
    ensures Legal(c, t)
  {
  }

  predicate MovesOnly(step: Step) {
    step.Track? || step.Resend? || step.Deliver? || step.Receive?
  }

  lemma Move(c: Config, base: seq<Step>, t: seq<Step>, step: Step, p: nat) returns (longer: seq<Step>)
    requires ValidConfig(c) && Continues(c, base, t) && Enabled(c, Run(c, t), step) && MovesOnly(step)
    ensures Continues(c, base, longer) && Quietly(c, t, longer, p)
    ensures Run(c, longer) == Apply(c, Run(c, t), step)
  {
    hide Continues, Run, Trace, LatestWrite;
    Known(c, base, t);
    longer := On(c, base, t, step);
    LatestAfter(Trace(c, t), Seen(c, Run(c, t), step), p);
  }

  /** A pending READ that nobody has answered yet can be tracked. */
  lemma Tracks(c: Config, base: seq<Step>, t: seq<Step>, id: int, p: nat) returns (longer: seq<Step>)
    requires ValidConfig(c) && Continues(c, base, t)
    requires var s := Run(c, t); id in s.handles && id in s.log && s.log[id].kind == READ && !Evidence(s, id)
    ensures Continues(c, base, longer) && Quietly(c, t, longer, p) && id in Run(c, longer).tracking
  {
    var s := Run(c, t);
    RunKeeps(c, t);
    hide Continues, Run, Trace, LatestWrite, Legal;
    assert ReplyPending(s, id) ==> Evidence(s, id);
    if Started(s, id) {
      longer := t;
    } else {
      assert s.toCloud[id] == Queued;
      longer := Move(c, base, t, Track(id), p);
    }
  }

  /** Once tracked it is sent again and arrives as the last packet of its slave. */
  lemma Arrives(c: Config, base: seq<Step>, t: seq<Step>, id: int, p: nat) returns (longer: seq<Step>)
    requires ValidConfig(c) && c.discipline == Unrestricted && Continues(c, base, t) && id in Run(c, t).tracking
    ensures Continues(c, base, longer) && Quietly(c, t, longer, p) && id in Run(c, longer).log
    ensures var s := Run(c, longer); s.inbox != [] && s.inbox[|s.inbox| - 1] == Primary(c, s.log[id])
  {
    hide *;
    Known(c, base, t);
    var s := Run(c, t);
    RunKeeps(c, t);
    LastSent(c, s, id);
    MovesThem(id, |s.net|);
    var sent := Move(c, base, t, Resend(id), p);
    Known(c, base, sent);
    LastDelivered(c, Run(c, sent));
    longer := Move(c, base, sent, Deliver(|s.net|), p);
    Known(c, base, longer);
    QuietlyTwice(c, t, sent, longer, p);
  }

  lemma MovesThem(id: int, i: nat)
    ensures MovesOnly(Resend(id)) && MovesOnly(Deliver(i))
  {
  }

  lemma QuietlyTwice(c: Config, t: seq<Step>, more: seq<Step>, longer: seq<Step>, p: nat)
    requires ValidConfig(c) && Legal(c, t) && Legal(c, more) && Legal(c, longer)
    requires Quietly(c, t, more, p) && Quietly(c, more, longer, p)
    ensures Quietly(c, t, longer, p) && Run(c, longer).log == Run(c, t).log
  {
    hide Legal, Run, Trace, LatestWrite;
  }

  lemma LastSent(c: Config, s: State, id: int)
    requires ValidConfig(c) && c.discipline == Unrestricted && Inv(c, s) && id in s.tracking
    ensures Enabled(c, s, Resend(id)) && id in s.log
    ensures Apply(c, s, Resend(id)).net == s.net + [Primary(c, s.log[id])]
  {
    hide Stages, NothingLost, Replies, LatestPending, BackupsZero, Primary, NoCopy;
  }

  lemma LastDelivered(c: Config, s: State)
    requires ValidConfig(c) && c.discipline == Unrestricted && s.net != []
    ensures Enabled(c, s, Deliver(|s.net| - 1))
    ensures Apply(c, s, Deliver(|s.net| - 1)).inbox == s.inbox + [s.net[|s.net| - 1]]
  {
  }

  /** A READ is answered with what its slave holds, and changes nothing there. */
  lemma ExecuteReads(c: Config, s: State, i: nat, d: DriverData) returns (r: DriverData)
    requires ValidConfig(c) && Enabled(c, s, Execute(i)) && s.inbox[i] == Primary(c, d) && d.kind == READ
    ensures Still(s, DoExecute(c, s, i)) && r in DoExecute(c, s, i).replies
    ensures r.id == d.id && r.buffer == ReadBack(s.stores[s.inbox[i].dst], LocalOffset(d.offset, c.slaveSize), d.len)
  {
    var file := s.stores[s.inbox[i].dst];
    r := Heard(Reply(file, s.inbox[i].data, c.slaveSize).value);
    assert DoExecute(c, s, i).stores == s.stores;
  }

  lemma IsRead(c: Config, base: seq<Step>, t: seq<Step>, id: int, p: nat)
      returns (longer: seq<Step>, r: DriverData)
    requires ValidConfig(c) && c.discipline == Unrestricted && Continues(c, base, t) && id in Run(c, t).log
    requires var s := Run(c, t);
             s.inbox != [] && s.inbox[|s.inbox| - 1] == Primary(c, s.log[id]) && s.log[id].kind == READ
    ensures Continues(c, base, longer) && Quietly(c, t, longer, p) && r in Run(c, longer).replies && r.id == id
    ensures var d, k := Run(c, t).log[id], SlaveIndex(Run(c, t).log[id].offset, c.slaveSize);
            && k < |Run(c, t).stores|
            && r.buffer == ReadBack(Run(c, t).stores[k], LocalOffset(d.offset, c.slaveSize), d.len)
  {
    hide *;
    Known(c, base, t);
    RunKeeps(c, t);
    var s := Run(c, t);
    LastIsEnabled(c, s, id);
    var i := |s.inbox| - 1;
    r := ExecuteReads(c, s, i, s.log[id]);
    longer := On(c, base, t, Execute(i));
    ExecuteIsInternal(c, s, i);
    LatestAfter(Trace(c, t), Internal, p);
    Known(c, base, longer);
    QuietlyIs(c, t, longer, p);
  }

  lemma LastIsEnabled(c: Config, s: State, id: int)
    requires ValidConfig(c) && c.discipline == Unrestricted && Inv(c, s) && id in s.log
    requires s.inbox != [] && s.inbox[|s.inbox| - 1] == Primary(c, s.log[id])
    ensures Enabled(c, s, Execute(|s.inbox| - 1)) && s.log[id].id == id
    ensures var p := s.inbox[|s.inbox| - 1];
            p.dst == SlaveIndex(s.log[id].offset, c.slaveSize) < |s.stores| && p.data.kind == s.log[id].kind
  {
    PrimaryIsPrimary(c, s.log[id]);
  }

  lemma ExecuteIsInternal(c: Config, s: State, i: nat)
    requires ValidConfig(c) && Enabled(c, s, Execute(i))
    ensures Seen(c, s, Execute(i)) == Internal && Apply(c, s, Execute(i)) == DoExecute(c, s, i)
  {
  }

  lemma QuietlyIs(c: Config, t: seq<Step>, longer: seq<Step>, p: nat)
    requires ValidConfig(c) && Legal(c, t) && Legal(c, longer) && Still(Run(c, t), Run(c, longer))
    requires LatestWrite(Trace(c, longer), p) == LatestWrite(Trace(c, t), p)
    ensures Quietly(c, t, longer, p)
  {
  }

  /** A reply on its way is received and answered. */
  lemma Answers(c: Config, base: seq<Step>, t: seq<Step>, r: DriverData, p: nat)
      returns (before: seq<Step>, longer: seq<Step>)
    requires ValidConfig(c) && Continues(c, base, t) && r.id in Run(c, t).handles && r.id in Run(c, t).log
    requires r in Run(c, t).replies || r in Run(c, t).toNbd
    ensures Continues(c, base, before) && Quietly(c, t, before, p) && Continues(c, base, longer)
    ensures var s := Run(c, t);
            Trace(c, longer) == Trace(c, before) + [Answered(r.id, s.handles[r.id], s.log[r.id], r.buffer)]
    ensures var s, s' := Run(c, t), Run(c, longer);
            s'.stores == s.stores && s'.handles == s.handles - {r.id} && s'.log == s.log && s'.counter == s.counter
  {
    hide Continues, Run, Trace, LatestWrite, Legal;
    Known(c, base, t);
    if r in Run(c, t).toNbd {
      before := t;
    } else {
      before := Move(c, base, t, Receive(r), p);
    }
    longer := On(c, base, before, Answer(r));
  }

  /** An unanswered READ that covers q of slave k can be driven to an answer that carries the byte
      the slave holds there now. */
  lemma Drives(c: Config, base: seq<Step>, t: seq<Step>, id: int, k: nat, q: nat) returns (longer: seq<Step>)
    requires ValidConfig(c) && c.discipline == Unrestricted && Continues(c, base, t)
    requires var s := Run(c, t);
             && id in s.handles && id in s.log && s.log[id].kind == READ && !Evidence(s, id)
             && CoversAt(c, s.log[id], k, q) && k < |s.stores|
             && At(s.stores[k], q) != LatestWrite(Trace(c, t), Absolute(k, q, c.slaveSize))
    ensures Continues(c, base, longer) && !ReadsAreLatest(c, longer)
  {
    hide Continues, Run, Trace, LatestWrite, Legal, LocalOffset, Absolute, Evidence;
    Known(c, base, t);
    var p := Absolute(k, q, c.slaveSize);
    var tracked := Tracks(c, base, t, id, p);
    var arrived := Arrives(c, base, tracked, id, p);
    var replied, r := IsRead(c, base, arrived, id, p);
    var before, last := Answers(c, base, replied, r, p);
    longer := last;
    Known(c, base, before);
    Known(c, base, longer);
    StaleIsSeen(c, before, longer, Run(c, t), r, k, q);
  }

  /** The last event answers a READ with a byte that is not the latest write. */
  lemma StaleIsSeen(c: Config, before: seq<Step>, longer: seq<Step>, s: State, r: DriverData, k: nat, q: nat)
    requires ValidConfig(c) && Legal(c, before) && Legal(c, longer) && r.id in s.handles && r.id in s.log
    requires Trace(c, longer) == Trace(c, before) + [Answered(r.id, s.handles[r.id], s.log[r.id], r.buffer)]
    requires var d := s.log[r.id];
             && d.kind == READ && CoversAt(c, d, k, q) && k < |s.stores|
             && r.buffer == ReadBack(s.stores[k], LocalOffset(d.offset, c.slaveSize), d.len)
    requires At(s.stores[k], q) != LatestWrite(Trace(c, before), Absolute(k, q, c.slaveSize))
    ensures !ReadsAreLatest(c, longer)
  {
    hide Legal, LatestWrite;
    hide Trace;
    var t, d := Trace(c, longer), s.log[r.id];
    Recompose(d.offset, c.slaveSize);
    var j := q - LocalOffset(d.offset, c.slaveSize);
    assert d.offset + j == Absolute(k, q, c.slaveSize);
    assert t[..|t| - 1] == Trace(c, before);
    assert r.buffer[j] == At(s.stores[k], q);
    assert !ReadsLatest(t, |t| - 1);
  }

  /** A READ of the one byte at p. */
  function OneByteRead(p: nat): DriverData {
    DriverData(p, 1, 0, READ, [0])
  }

  /** Any place of the device can be read in an acceptable request, and only requests that cover it
      are in the way. */
  lemma OneByteIsAcceptable(c: Config, s: State, k: nat, q: nat)
    requires ValidConfig(c) && Ids(c, s) && c.maxLength > 0 && k < c.slaves && q < c.slaveSize && s.counter < INT_MAX
    requires forall id :: id in s.handles && id in s.log ==> !CoversAt(c, s.log[id], k, q)
    ensures var p := Absolute(k, q, c.slaveSize);
            Enabled(c, s, Accept(OneByteRead(p), [])) && CoversAt(c, OneByteRead(p), k, q)
  {
    var p := Absolute(k, q, c.slaveSize);
    Locate(k, q, c.slaveSize);
    IndexBelow(p, c.slaveSize, c.slaves);
    assert Acceptable(c, OneByteRead(p));
    hide SlaveIndex, LocalOffset, Absolute;
    forall id | id in s.handles && id in s.log
      ensures !Overlap(s.log[id], OneByteRead(p))
    {
      CoversAbsolute(c, s.log[id], k, q);
    }
  }

  lemma FreshIdIsQuiet(c: Config, s: State, request: DriverData)
    requires ValidConfig(c) && Inv(c, s) && Enabled(c, s, Accept(request, []))
    ensures var s' := DoAccept(s, request, []); s'.counter !in s.log && !Evidence(s', s'.counter)
  {
    assert forall r :: r in s.replies || r in s.toNbd ==> GoodReply(s, r);
  }

  /** With nobody else at the byte, a new READ of it is accepted and driven to its answer. */
  lemma AsksAndDrives(c: Config, base: seq<Step>, t: seq<Step>, k: nat, q: nat) returns (longer: seq<Step>)
    requires ValidConfig(c) && c.discipline == Unrestricted && c.maxLength > 0 && Continues(c, base, t)
    requires var s := Run(c, t);
             && k < |s.stores| && q < c.slaveSize && s.counter < INT_MAX
             && (forall id :: id in s.handles && id in s.log ==> !CoversAt(c, s.log[id], k, q))
             && At(s.stores[k], q) != LatestWrite(Trace(c, t), Absolute(k, q, c.slaveSize))
    ensures Continues(c, base, longer) && !ReadsAreLatest(c, longer)
  {
    hide Continues, Run, Trace, LatestWrite, Legal, Inv, CoversAt, Absolute, Evidence, ReadsAreLatest, At, Enabled;
    Known(c, base, t);
    var s, p := Run(c, t), Absolute(k, q, c.slaveSize);
    RunKeeps(c, t);
    IdsHold(c, s);
    OneByteIsAcceptable(c, s, k, q);
    FreshIdIsQuiet(c, s, OneByteRead(p));
    var step := Accept(OneByteRead(p), []);
    var asked := On(c, base, t, step);
    AcceptIsSeen(c, s, OneByteRead(p));
    LatestAfter(Trace(c, t), Seen(c, s, step), p);
    SameCover(c, OneByteRead(p), s.counter + 1, k, q);
    hide Seen, Apply;
    longer := Drives(c, base, asked, s.counter + 1, k, q);
  }

  lemma IdsHold(c: Config, s: State)
    requires ValidConfig(c) && Inv(c, s)
    ensures Ids(c, s) && |s.stores| == c.slaves
  {
  }

  lemma AcceptIsSeen(c: Config, s: State, d: DriverData)
    requires ValidConfig(c) && Enabled(c, s, Accept(d, []))
    ensures Seen(c, s, Accept(d, [])).Accepted?
    ensures var s' := Apply(c, s, Accept(d, []));
            && s' == DoAccept(s, d, []) && s'.counter == s.counter + 1 && s'.stores == s.stores
            && s'.counter in s'.handles && s'.counter in s'.log && s'.log[s'.counter] == d.(id := s'.counter)
  {
    hide Acceptable, Overlap;
  }

  lemma SameCover(c: Config, d: DriverData, id: int, k: nat, q: nat)
    requires ValidConfig(c)
    ensures CoversAt(c, d.(id := id), k, q) == CoversAt(c, d, k, q)
  {
  }

  // -------------------------------------------------------------- harm is read

  /** A place where executing packet i does harm. */
  ghost predicate HarmsAt(c: Config, s: State, i: nat, k: nat, q: nat)
    requires ValidConfig(c) && i < |s.inbox| && s.inbox[i].data.id in s.log
  {
    && WritesPrimary(c, s.inbox[i]) && s.inbox[i].data.id !in s.handles
    && CoversAt(c, s.log[s.inbox[i].data.id], k, q) && k < |s.stores|
    && At(s.stores[k], q) != ByteAt(c, s.log[s.inbox[i].data.id], q) && !Shielded(c, s, k, q)
  }

  lemma HarmfulPlace(c: Config, s: State, i: nat) returns (k: nat, q: nat)
    requires ValidConfig(c) && Inv(c, s) && i < |s.inbox| && !Harmless(c, s, s.inbox[i])
    ensures s.inbox[i].data.id in s.log && HarmsAt(c, s, i, k, q) && q < c.slaveSize
  {
    var id := s.inbox[i].data.id;
    k, q :| CoversAt(c, s.log[id], k, q) && k < |s.stores|
            && At(s.stores[k], q) != ByteAt(c, s.log[id], q) && !Shielded(c, s, k, q);
    CoversInside(c, s.log[id], k, q);
  }

  /** After a harmful execution the slave's byte is not the one it held, and what it held was what the
      client had last written, or what a write now waiting for its answer had written. */
  lemma HarmDone(c: Config, s: State, i: nat, flat: bytes, k: nat, q: nat)
    requires ValidConfig(c) && Inv(c, s) && Enabled(c, s, Execute(i)) && Agrees(c, s, flat)
    requires s.inbox[i].data.id in s.log && HarmsAt(c, s, i, k, q) && q < c.slaveSize
    ensures var s' := DoExecute(c, s, i);
            && s'.handles == s.handles && s'.log == s.log && s'.counter == s.counter && |s'.stores| == |s.stores|
            && At(s'.stores[k], q) != At(s.stores[k], q)
    ensures !Busy(c, s, k, q) ==> At(s.stores[k], q) == At(flat, Absolute(k, q, c.slaveSize))
    ensures forall w :: BusyWith(c, s, w, k, q) ==>
              Evidence(DoExecute(c, s, i), w) && At(s.stores[k], q) == ByteAt(c, s.log[w], q)
  {
    ExecuteFrame(c, s, i);
    hide Inv, DoExecute, IsPrimary, ByteAt, CoversAt, Absolute;
    ExecutedByte(c, s, i, k, q);
    forall w | BusyWith(c, s, w, k, q)
      ensures Evidence(DoExecute(c, s, i), w) && At(s.stores[k], q) == ByteAt(c, s.log[w], q)
    {
      ExecutedEvidence(c, s, i, w);
    }
  }

  /** Where the client's latest write at a place stands once the one pending request v that covers it
      has been answered. */
  lemma LatestOnceAnswered(c: Config, s: State, t: seq<Event>, v: int, data: bytes, k: nat, q: nat, held: byte)
    requires ValidConfig(c) && Inv(c, s) && v in s.handles && v in s.log && CoversAt(c, s.log[v], k, q)
    requires BusyWith(c, s, v, k, q) ==> held == ByteAt(c, s.log[v], q)
    requires !Busy(c, s, k, q) ==> held == LatestWrite(t, Absolute(k, q, c.slaveSize))
    ensures LatestWrite(t + [Answered(v, s.handles[v], s.log[v], data)], Absolute(k, q, c.slaveSize)) == held
    ensures forall id :: id in s.handles && id in s.log && CoversAt(c, s.log[id], k, q) ==> id == v
  {
    var d := s.log[v];
    assert Ids(c, s) && LatestPending(s) && Acceptable(c, d);
    CoversInside(c, d, k, q);
    CoversAbsolute(c, d, k, q);
    hide CoversAt, Inv, ByteAt, Absolute, LatestWrite;
    LatestAfter(t, Answered(v, s.handles[v], d, data), Absolute(k, q, c.slaveSize));
    forall id | id in s.handles && id in s.log && CoversAt(c, s.log[id], k, q)
      ensures id == v
    {
      OnePendingPerByte(c, s, id, v, k, q);
    }
    assert d.kind != WRITE ==> !Busy(c, s, k, q);
  }

  /** Harm at a place that a pending request covers and nobody else does. */
  lemma PendingReads(c: Config, base: seq<Step>, v: int, k: nat, q: nat, held: byte) returns (t: seq<Step>)
    requires ValidConfig(c) && c.discipline == Unrestricted && c.maxLength > 0 && Continues(c, base, base)
    requires var s := Run(c, base);
             && v in s.handles && v in s.log && CoversAt(c, s.log[v], k, q)
             && k < |s.stores| && q < c.slaveSize && s.counter < INT_MAX && At(s.stores[k], q) != held
             && (BusyWith(c, s, v, k, q) ==> Evidence(s, v) && held == ByteAt(c, s.log[v], q))
             && (!Busy(c, s, k, q) ==> held == LatestWrite(Trace(c, base), Absolute(k, q, c.slaveSize)))
    ensures Continues(c, base, t) && !ReadsAreLatest(c, t)
  {
    var s, p := Run(c, base), Absolute(k, q, c.slaveSize);
    Known(c, base, base);
    RunKeeps(c, base);
    LatestOnceAnswered(c, s, Trace(c, base), v, [], k, q, held);
    hide Continues, Run, Trace, LatestWrite, Legal, Inv, CoversAt, Absolute, ByteAt;
    if Evidence(s, v) {
      var r :| (r in s.replies || r in s.toNbd) && r.id == v;
      var before, after := Answers(c, base, base, r, p);
      Known(c, base, before);
      LatestOnceAnswered(c, s, Trace(c, before), v, r.buffer, k, q, held);
      t := AsksAndDrives(c, base, after, k, q);
    } else {
      assert forall w :: BusyWith(c, s, w, k, q) ==> w == v;
      PendingKind(c, s, v);
      t := Drives(c, base, base, v, k, q);
    }
  }

  lemma PendingKind(c: Config, s: State, v: int)
    requires ValidConfig(c) && Inv(c, s) && v in s.handles
    ensures v in s.log && (s.log[v].kind == READ || s.log[v].kind == WRITE)
  {
  }

  /** A harmful execution can be made to show: a continuation that executes nothing harmful any more
      ends in a READ that does not return the latest write. */
  lemma HarmIsRead(c: Config, steps: seq<Step>, i: nat) returns (t: seq<Step>)
    requires ValidConfig(c) && c.discipline == Unrestricted && c.maxLength > 0
    requires Legal(c, steps) && HarmlessRun(c, steps) && Enabled(c, Run(c, steps), Execute(i))
    requires !Harmless(c, Run(c, steps), Run(c, steps).inbox[i]) && Run(c, steps).counter < INT_MAX
    ensures Continues(c, steps + [Execute(i)], t) && !ReadsAreLatest(c, t)
  {
    var s, flat, base := Run(c, steps), After(Trace(c, steps)).flat, steps + [Execute(i)];
    AgreesIffHarmless(c, steps);
    RunKeeps(c, steps);
    Extend(c, steps, Execute(i));
    Begins(c, base);
    hide Run, Legal, Trace, After, LatestWrite, HarmlessRun, Harmless, Follows, Continues, ReadsAreLatest, Inv;
    ExecuteIsInternal(c, s, i);
    var k, q := HarmfulPlace(c, s, i);
    var p, held := Absolute(k, q, c.slaveSize), At(s.stores[k], q);
    HarmDone(c, s, i, flat, k, q);
    FlatIsLatestWrite(Trace(c, steps), p);
    LatestAfter(Trace(c, steps), Internal, p);
    var s1 := DoExecute(c, s, i);
    hide HarmsAt, DoExecute, CoversAt, ByteAt, Absolute, At, Evidence, Agrees;
    assert forall w :: BusyWith(c, s1, w, k, q) == BusyWith(c, s, w, k, q);
    assert Busy(c, s1, k, q) == Busy(c, s, k, q);
    if v :| v in s1.handles && v in s1.log && CoversAt(c, s1.log[v], k, q) {
      t := PendingReads(c, base, v, k, q, held);
    } else {
      t := AsksAndDrives(c, base, base, k, q);
    }
  }

  lemma Begins(c: Config, base: seq<Step>)
    requires ValidConfig(c) && Legal(c, base)
    ensures Continues(c, base, base)
  {
  }

  // ---------------------------------------------------------- exactly when it holds

  /** With no rule at all, after a run that has done no harm: executing a packet is harmless if and
      only if every continuation that executes only harmless packets answers every READ with the
      latest acknowledged writes. */
  lemma HarmlessIffReadsAreLatest(c: Config, steps: seq<Step>, i: nat)
    requires ValidConfig(c) && c.discipline == Unrestricted && c.maxLength > 0
    requires Legal(c, steps) && HarmlessRun(c, steps) && Enabled(c, Run(c, steps), Execute(i))
    requires Run(c, steps).counter < INT_MAX
    ensures Harmless(c, Run(c, steps), Run(c, steps).inbox[i])
       <==> forall t :: Continues(c, steps + [Execute(i)], t) ==> ReadsAreLatest(c, t)
  {
    if Harmless(c, Run(c, steps), Run(c, steps).inbox[i]) {
      forall t | Continues(c, steps + [Execute(i)], t)
        ensures ReadsAreLatest(c, t)
      {
        HarmlessStepJoins(c, steps, i);
        HarmlessJoin(c, steps + [Execute(i)], t);
        HarmlessRunsReadLatest(c, t);
      }
    } else {
      var t := HarmIsRead(c, steps, i);
    }
  }

  lemma HarmlessStepJoins(c: Config, steps: seq<Step>, i: nat)
    requires ValidConfig(c) && Legal(c, steps) && HarmlessRun(c, steps) && Enabled(c, Run(c, steps), Execute(i))
    requires Harmless(c, Run(c, steps), Run(c, steps).inbox[i])
    ensures Legal(c, steps + [Execute(i)]) && HarmlessRun(c, steps + [Execute(i)])
  {
    Extend(c, steps, Execute(i));
    var longer := steps + [Execute(i)];
    assert longer[..|longer| - 1] == steps;
    hide Harmless, Run, Legal, Enabled;
  }

  /** Wherever the run executed a packet: had it gone on from there without further harm, no READ would
      have told. */
  ghost predicate NoReaderCanTell(c: Config, steps: seq<Step>)
    requires ValidConfig(c)
  {
    forall n, t :: 0 <= n < |steps| && steps[n].Execute? && Continues(c, steps[..n + 1], t) ==> ReadsAreLatest(c, t)
  }

  lemma OneMoreStep(c: Config, steps: seq<Step>)
    requires ValidConfig(c) && steps != []
    ensures NoReaderCanTell(c, steps)
       <==> NoReaderCanTell(c, steps[..|steps| - 1])
            && (steps[|steps| - 1].Execute? ==> forall t :: Continues(c, steps, t) ==> ReadsAreLatest(c, t))
  {
    hide Continues, ReadsAreLatest;
    var before := steps[..|steps| - 1];
    assert steps[..|before| + 1] == steps;
    assert forall n :: 0 <= n < |before| ==> before[..n + 1] == steps[..n + 1] && before[n] == steps[n];
  }

  lemma CounterGrows(c: Config, s: State, step: Step)
    requires ValidConfig(c) && Enabled(c, s, step)
    ensures s.counter <= Apply(c, s, step).counter
  {
    hide Acceptable, Overlap, NoCopy;
  }

  /** For whole runs, with no rule at all: a run executes only harmless packets if and only if from
      none of its executions on a reader can tell. */
  lemma {:induction false} HarmlessRunIffNoReaderCanTell(c: Config, steps: seq<Step>)
    requires ValidConfig(c) && c.discipline == Unrestricted && c.maxLength > 0
    requires Legal(c, steps) && Run(c, steps).counter < INT_MAX
    ensures HarmlessRun(c, steps) <==> NoReaderCanTell(c, steps)
  {
    if steps != [] {
      var before, step := steps[..|steps| - 1], steps[|steps| - 1];
      TraceStep(c, steps);
      assert HarmlessRun(c, steps)
        <==> HarmlessRun(c, before) && (step.Execute? ==> Harmless(c, Run(c, before), Run(c, before).inbox[step.i]));
      hide *;
      CounterGrows(c, Run(c, before), step);
      HarmlessRunIffNoReaderCanTell(c, before);
      OneMoreStep(c, steps);
      if HarmlessRun(c, before) && step.Execute? {
        assert before + [Execute(step.i)] == steps;
        HarmlessIffReadsAreLatest(c, before, step.i);
      }
    } else {
      hide Legal, Run;
    }
  }
}
