/** What holds of every run of the replicated device. */
module Theorems {
  import opened Base
  import opened Data
  import opened ByteArray
  import opened Address
  import opened Protocol
  import opened Invariants
  import opened Device
  import opened Agreement
  import opened Refinement
  import opened Disciplines

  // ------------------------------------------------- the flat device, refined

  /** Under either rule, whatever is lost, repeated and (as the rule allows) reordered, each run
      keeps its invariants and shows the client nothing that the flat device would not. */
  lemma {:induction false} RunRefines(c: Config, steps: seq<Step>)
    requires ValidConfig(c) && c.discipline != Unrestricted && Legal(c, steps)
    ensures Inv(c, Run(c, steps)) && Disciplined(c, Run(c, steps))
    ensures Follows(Trace(c, steps)) && Refines(c, Run(c, steps), After(Trace(c, steps)))
  {
    if steps == [] {
      InitInv(c);
      InitDisciplined(c);
      InitRefines(c);
    } else {
      var before, step := steps[..|steps| - 1], steps[|steps| - 1];
      RunRefines(c, before);
      var s := Run(c, before);
      hide Inv, Refines, Apply, Enabled, Harmless, Queues, Unsent, OneCopy;
      TraceStep(c, steps);
      OneStep(c, s, step, After(Trace(c, before)));
    }
  }

  lemma TraceStep(c: Config, steps: seq<Step>)
    requires ValidConfig(c) && steps != [] && Legal(c, steps)
    ensures var before, step := steps[..|steps| - 1], steps[|steps| - 1];
            && Enabled(c, Run(c, before), step)
            && Run(c, steps) == Apply(c, Run(c, before), step)
            && Trace(c, steps)[..|steps| - 1] == Trace(c, before)
            && Trace(c, steps)[|steps| - 1] == Seen(c, Run(c, before), step)
  {
  }

  lemma OneStep(c: Config, s: State, step: Step, d: Device)
    requires ValidConfig(c) && c.discipline != Unrestricted && Enabled(c, s, step)
    requires Inv(c, s) && Disciplined(c, s) && Refines(c, s, d)
    ensures Inv(c, Apply(c, s, step)) && Disciplined(c, Apply(c, s, step))
    ensures Allowed(d, Seen(c, s, step)) && Refines(c, Apply(c, s, step), Next(d, Seen(c, s, step)))
  {
    hide Inv, BytesAgree, ReadsAgree, Settled, Queues, Unsent, OneCopy, Harmless;
    assert step.Execute? ==> Harmless(c, s, s.inbox[step.i]);
    StepRefines(c, s, step, d);
    StepKeeps(c, s, step);
    DisciplineKeeps(c, s, step);
  }

  /** Every answered READ of a run returns, byte for byte, what the latest acknowledged WRITE put
      there, and zero where nothing was ever written. */
  lemma ReadsReturnLatestWrites(c: Config, steps: seq<Step>, k: nat)
    requires ValidConfig(c) && c.discipline != Unrestricted && Legal(c, steps) && k < |steps|
    ensures ReadsLatest(Trace(c, steps), k)
  {
    RunRefines(c, steps);
    FollowersReadLatest(Trace(c, steps), k);
  }

  /** With links and slaves in order: where no write is pending, every duplicate of an earlier
      write that is still to be executed carries exactly the byte its slave holds. */
  lemma DuplicatesCarrySettledBytes(c: Config, steps: seq<Step>, p: Packet, k: nat, q: nat)
    requires ValidConfig(c) && c.discipline == InOrder && Legal(c, steps)
    requires p in Run(c, steps).net || p in Run(c, steps).inbox
    requires WritesPrimary(c, p) && !Busy(c, Run(c, steps), k, q)
    requires p.data.id in Run(c, steps).log && CoversAt(c, Run(c, steps).log[p.data.id], k, q)
    ensures k < |Run(c, steps).stores|
    ensures At(Run(c, steps).stores[k], q) == ByteAt(c, Run(c, steps).log[p.data.id], q)
  {
    RunRefines(c, steps);
    var s := Run(c, steps);
    CoversInside(c, s.log[p.data.id], k, q);
    assert GoodPacket(c, s, p) && Harmless(c, s, p);
    PacketKind(c, s, p);
    if p.data.id in s.handles {
      PendingWriterIsBusy(c, s, p, k, q);
    }
  }

  // -------------------------------------------------- exactly when it holds

  /** Every packet that a run executes from its step n on is harmless when it is executed. */
  ghost predicate HarmlessFrom(c: Config, steps: seq<Step>, n: nat)
    requires ValidConfig(c) && Legal(c, steps)
  {
    |steps| <= n ||
    (var before, step := steps[..|steps| - 1], steps[|steps| - 1];
     && HarmlessFrom(c, before, n)
     && (step.Execute? ==> Harmless(c, Run(c, before), Run(c, before).inbox[step.i])))
  }

  ghost predicate HarmlessRun(c: Config, steps: seq<Step>)
    requires ValidConfig(c) && Legal(c, steps)
  {
    HarmlessFrom(c, steps, 0)
  }

  /** Slaves and flat device agree after every step of a run. */
  ghost predicate AgreesThroughout(c: Config, steps: seq<Step>)
    requires ValidConfig(c) && Legal(c, steps)
  {
    && Agrees(c, Run(c, steps), After(Trace(c, steps)).flat)
    && (steps != [] ==> AgreesThroughout(c, steps[..|steps| - 1]))
  }

  /** With no rule at all: the slaves agree with the flat device throughout a run if and only if
      every packet it executes is harmless at that moment, and then the client sees the flat
      device. */
  lemma {:induction false} AgreesIffHarmless(c: Config, steps: seq<Step>)
    requires ValidConfig(c) && Legal(c, steps)
    ensures AgreesThroughout(c, steps) <==> HarmlessRun(c, steps)
    ensures HarmlessRun(c, steps) ==>
              Follows(Trace(c, steps)) && Refines(c, Run(c, steps), After(Trace(c, steps)))
  {
    if steps == [] {
      InitRefines(c);
    } else {
      var before, step := steps[..|steps| - 1], steps[|steps| - 1];
      AgreesIffHarmless(c, before);
      RunKeeps(c, before);
      TraceStep(c, steps);
      var s, d := Run(c, before), After(Trace(c, before));
      hide Inv, Harmless, Settled, BytesAgree, ReadsAgree, Apply, Enabled, Seen;
      if HarmlessRun(c, before) {
        if !step.Execute? || Harmless(c, s, s.inbox[step.i]) {
          StepRefines(c, s, step, d);
        } else {
          HarmfulStep(c, s, step.i, d);
        }
      }
    }
  }

  lemma HarmfulStep(c: Config, s: State, i: nat, d: Device)
    requires ValidConfig(c) && Inv(c, s) && Enabled(c, s, Execute(i)) && Agrees(c, s, d.flat)
    requires !Harmless(c, s, s.inbox[i])
    ensures !Agrees(c, Apply(c, s, Execute(i)), Next(d, Seen(c, s, Execute(i))).flat)
  {
    HarmShows(c, s, i, d.flat);
  }

  // -------------------------------------- tracking, for any network whatever

  /** Every accepted, unanswered request is in exactly one place: not yet tracked, tracked for
      resend, or waiting as a to-NBD task. */
  lemma ExactlyOneStage(c: Config, steps: seq<Step>, id: int)
    requires ValidConfig(c) && Legal(c, steps) && id in Run(c, steps).handles
    ensures var s := Run(c, steps);
            var untracked, tracked, replying := !Started(s, id), id in s.tracking, ReplyPending(s, id);
            && (untracked || tracked || replying)
            && !(untracked && tracked) && !(untracked && replying) && !(tracked && replying)
  {
    RunKeeps(c, steps);
    var s := Run(c, steps);
    assert forall r :: r in s.toNbd ==> GoodReply(s, r);
  }

  /** Every handle held was stored for its request, and none is held once it was answered. */
  ghost predicate HandlesFrom(s: State, t: seq<Event>) {
    && (forall id :: id in s.handles ==>
          id in s.log && exists j :: 0 <= j < |t| && t[j] == Accepted(id, s.handles[id], s.log[id]))
    && (forall j :: 0 <= j < |t| && t[j].Answered? ==> t[j].id in s.log && t[j].id !in s.handles)
  }

  lemma AcceptStoresHandle(c: Config, s: State, request: DriverData, handle: bytes, t: seq<Event>)
    requires ValidConfig(c) && Ids(c, s) && Enabled(c, s, Accept(request, handle)) && HandlesFrom(s, t)
    ensures HandlesFrom(DoAccept(s, request, handle), t + [Seen(c, s, Accept(request, handle))])
  {
    hide Acceptable, Overlap;
    var s', t' := DoAccept(s, request, handle), t + [Seen(c, s, Accept(request, handle))];
    assert s'.counter !in s.log;
    forall id | id in s'.handles
      ensures exists j :: 0 <= j < |t'| && t'[j] == Accepted(id, s'.handles[id], s'.log[id])
    {
      if id == s'.counter {
        assert t'[|t|] == Accepted(id, s'.handles[id], s'.log[id]);
      } else {
        var j :| 0 <= j < |t| && t[j] == Accepted(id, s.handles[id], s.log[id]);
        assert t'[j] == t[j];
      }
    }
  }

  lemma HandlesFromLonger(s: State, s': State, t: seq<Event>, e: Event)
    requires HandlesFrom(s, t) && s'.log == s.log && s'.handles.Keys <= s.handles.Keys
    requires forall id :: id in s'.handles ==> s'.handles[id] == s.handles[id]
    requires e.Answered? ==> e.id in s.log && e.id !in s'.handles
    ensures HandlesFrom(s', t + [e])
  {
    forall id | id in s'.handles
      ensures exists j :: 0 <= j < |t + [e]| && (t + [e])[j] == Accepted(id, s'.handles[id], s'.log[id])
    {
      var j :| 0 <= j < |t| && t[j] == Accepted(id, s.handles[id], s.log[id]);
      assert (t + [e])[j] == t[j];
    }
  }

  lemma {:induction false} HandleHistory(c: Config, steps: seq<Step>)
    requires ValidConfig(c) && Legal(c, steps)
    ensures HandlesFrom(Run(c, steps), Trace(c, steps))
  {
    if steps != [] {
      var before, step := steps[..|steps| - 1], steps[|steps| - 1];
      HandleHistory(c, before);
      RunKeeps(c, before);
      TraceStep(c, steps);
      assert Trace(c, steps) == Trace(c, before) + [Seen(c, Run(c, before), step)];
      hide HandlesFrom, Stages, NothingLost, Packets, Replies, LatestPending, BackupsZero, Legal, Run, Trace, DoAccept;
      if step.Accept? {
        AcceptStoresHandle(c, Run(c, before), step.request, step.handle, Trace(c, before));
      } else {
        HandlesFromLonger(Run(c, before), Run(c, steps), Trace(c, before), Seen(c, Run(c, before), step));
      }
    }
  }

  /** An answer carries the handle its own request came with, and no request is answered twice,
      however often its reply is repeated and whatever the network does. */
  lemma HandlesReturnOnce(c: Config, steps: seq<Step>, k: nat)
    requires ValidConfig(c) && Legal(c, steps) && k < |steps| && Trace(c, steps)[k].Answered?
    ensures var t := Trace(c, steps);
            && (exists j :: 0 <= j < k && t[j] == Accepted(t[k].id, t[k].handle, t[k].request))
            && (forall j :: 0 <= j < |t| && j != k && t[j].Answered? ==> t[j].id != t[k].id)
  {
    var t := Trace(c, steps);
    AnsweredAt(c, steps, k);
    forall j | 0 <= j < |t| && j != k && t[j].Answered?
      ensures t[j].id != t[k].id
    {
      AnsweredAt(c, steps, j);
    }
  }

  lemma {:induction false} AnsweredAt(c: Config, steps: seq<Step>, k: nat)
    requires ValidConfig(c) && Legal(c, steps) && k < |steps| && Trace(c, steps)[k].Answered?
    ensures var t := Trace(c, steps);
            && (exists j :: 0 <= j < k && t[j] == Accepted(t[k].id, t[k].handle, t[k].request))
            && (forall j :: 0 <= j < k && t[j].Answered? ==> t[j].id != t[k].id)
  {
    TraceStep(c, steps);
    var before, t := steps[..|steps| - 1], Trace(c, steps);
    assert forall j :: 0 <= j < |before| ==> t[j] == Trace(c, before)[j];
    if k < |before| {
      AnsweredAt(c, before, k);
      var j :| 0 <= j < k && Trace(c, before)[j] == Accepted(t[k].id, t[k].handle, t[k].request);
      assert t[j] == Accepted(t[k].id, t[k].handle, t[k].request);
    } else {
      HandleHistory(c, before);
      var j :| 0 <= j < k && Trace(c, before)[j] == Accepted(t[k].id, t[k].handle, t[k].request);
      assert t[j] == Accepted(t[k].id, t[k].handle, t[k].request);
    }
  }

  /** A tracking entry disappears only when a reply is received, and only after the primary slave
      has executed the request; so no reply overtakes its entry and no backup is ever answered. */
  lemma ErasedOnlyAfterExecution(c: Config, steps: seq<Step>, step: Step, id: int)
    requires ValidConfig(c) && Legal(c, steps) && Enabled(c, Run(c, steps), step)
    requires id in Run(c, steps).tracking && id !in Apply(c, Run(c, steps), step).tracking
    ensures step.Receive? && step.reply.id == id && id in Run(c, steps).executed
  {
    RunKeeps(c, steps);
    var s := Run(c, steps);
    assert step.Receive? && step.reply.id == id && GoodReply(s, step.reply);
  }

  /** The byte of the device at p, and its backup. */
  function DeviceByte(c: Config, s: State, p: nat): byte
    requires ValidConfig(c) && |s.stores| == c.slaves && p < c.slaves * c.slaveSize
  {
    IndexBelow(p, c.slaveSize, c.slaves);
    At(s.stores[SlaveIndex(p, c.slaveSize)], LocalOffset(p, c.slaveSize))
  }

  function BackupByte(c: Config, s: State, p: nat): byte
    requires ValidConfig(c) && |s.stores| == c.slaves && p < c.slaves * c.slaveSize
  {
    At(s.stores[BackupIndex(p, c.slaveSize, c.slaves)], BackupOffset(p, c.slaveSize))
  }

  /** A write that covers device byte p is not answered yet. */
  ghost predicate WritePending(s: State, p: nat) {
    exists id :: id in s.handles && id in s.log && s.log[id].kind == WRITE
                 && s.log[id].offset <= p < s.log[id].offset + s.log[id].len
  }

  lemma PendingIsBusy(c: Config, s: State, p: nat)
    requires ValidConfig(c) && Inv(c, s) && Busy(c, s, SlaveIndex(p, c.slaveSize), LocalOffset(p, c.slaveSize))
    ensures WritePending(s, p)
  {
    var k, q := SlaveIndex(p, c.slaveSize), LocalOffset(p, c.slaveSize);
    var w :| BusyWith(c, s, w, k, q);
    hide Stages, NothingLost, Packets, Replies, LatestPending, BackupsZero;
    Recompose(p, c.slaveSize);
    CoversAbsolute(c, s.log[w], k, q);
  }

  /** Under either rule a slave holds what the client last wrote, wherever no write is pending. */
  lemma DeviceHoldsLatestWrite(c: Config, steps: seq<Step>, p: nat)
    requires ValidConfig(c) && c.discipline != Unrestricted && Legal(c, steps)
    requires p < c.slaves * c.slaveSize && !WritePending(Run(c, steps), p)
    ensures |Run(c, steps).stores| == c.slaves
    ensures DeviceByte(c, Run(c, steps), p) == LatestWrite(Trace(c, steps), p)
  {
    RunRefines(c, steps);
    var s, d := Run(c, steps), After(Trace(c, steps));
    FlatIsLatestWrite(Trace(c, steps), p);
    assert |s.stores| == c.slaves;
    hide Run, Legal, Trace, After, LatestWrite, Inv, Disciplined, Follows;
    if Busy(c, s, SlaveIndex(p, c.slaveSize), LocalOffset(p, c.slaveSize)) {
      PendingIsBusy(c, s, p);
    }
    IndexBelow(p, c.slaveSize, c.slaves);
    Recompose(p, c.slaveSize);
  }

  /** The second copy the documentation promises is not there. Whatever the network does, the backup
      of a byte is what the client last wrote there if and only if that is zero. */
  lemma BackupRestoresOnlyZero(c: Config, steps: seq<Step>, p: nat)
    requires ValidConfig(c) && Legal(c, steps) && p < c.slaves * c.slaveSize
    ensures |Run(c, steps).stores| == c.slaves
    ensures BackupByte(c, Run(c, steps), p) == LatestWrite(Trace(c, steps), p) <==> LatestWrite(Trace(c, steps), p) == 0
  {
    RunKeeps(c, steps);
    assert BackupsZero(c, Run(c, steps));
    hide Run, Legal, Trace, LatestWrite;
  }
}
