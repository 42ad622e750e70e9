/** Step by step, the replicated system does what the flat device does. */
module Refinement {
  import opened Base
  import opened Data
  import opened ByteArray
  import opened Address
  import opened Protocol
  import opened Invariants
  import opened Device
  import opened Agreement

  /** The flat device stands for the system: same pending requests, same settled bytes. */
  ghost predicate Refines(c: Config, s: State, d: Device)
    requires ValidConfig(c)
  {
    && d.used == s.log.Keys
    && d.pending.Keys == s.handles.Keys
    && (forall id :: id in s.handles && id in s.log ==> d.pending[id] == (s.handles[id], s.log[id]))
    && Agrees(c, s, d.flat)
  }

  lemma InitRefines(c: Config)
    requires ValidConfig(c)
    ensures Refines(c, Init(c), Fresh())
  {
  }

  // --------------------------------------------------- steps that are silent

  /** Only handles, log, stores and the replies on their way matter to agreement. */
  lemma QuietKeepsAgreement(c: Config, s: State, s': State, flat: bytes)
    requires ValidConfig(c) && Agrees(c, s, flat)
    requires s'.handles == s.handles && s'.log == s.log && s'.stores == s.stores
    requires forall r :: r in s'.replies || r in s'.toNbd ==> r in s.replies || r in s.toNbd
    ensures Agrees(c, s', flat)
  {
    hide CoversAt, ByteAt, Absolute;
    forall w, k: nat, q: nat
      ensures BusyWith(c, s', w, k, q) == BusyWith(c, s, w, k, q)
    {
    }
    assert forall k: nat, q: nat :: Busy(c, s, k, q) ==> Busy(c, s', k, q);
    assert forall w :: Evidence(s', w) ==> Evidence(s, w);
    assert forall r :: ReadAgrees(s, flat, r) ==> ReadAgrees(s', flat, r);
  }

  /** A new request overlaps no pending one and has no reply yet. */
  lemma AcceptIsFresh(c: Config, s: State, request: DriverData, handle: bytes)
    requires ValidConfig(c) && Inv(c, s) && Enabled(c, s, Accept(request, handle))
    ensures var s' := DoAccept(s, request, handle);
            && s'.counter !in s.log && s'.counter !in s.handles
            && (forall r :: r in s.replies || r in s.toNbd ==> r.id in s.log && r.id != s'.counter)
  {
    hide Acceptable, GoodPacket, Overlap;
    assert forall r :: r in s.replies || r in s.toNbd ==> GoodReply(s, r);
  }

  lemma AcceptKeepsAgreement(c: Config, s: State, request: DriverData, handle: bytes, flat: bytes)
    requires ValidConfig(c) && Inv(c, s) && Enabled(c, s, Accept(request, handle))
    requires Agrees(c, s, flat)
    ensures Agrees(c, DoAccept(s, request, handle), flat)
  {
    AcceptIsFresh(c, s, request, handle);
    hide CoversAt, ByteAt, Absolute, Inv, Enabled;
    var s' := DoAccept(s, request, handle);
    assert forall w, k: nat, q: nat :: w != s'.counter ==> BusyWith(c, s', w, k, q) == BusyWith(c, s, w, k, q);
    forall k: nat, q: nat | Busy(c, s, k, q)
      ensures Busy(c, s', k, q)
    {
      var w :| BusyWith(c, s, w, k, q);
      assert BusyWith(c, s', w, k, q);
    }
    assert forall w :: Evidence(s', w) ==> Evidence(s, w);
    assert !Evidence(s', s'.counter);
    assert forall r :: r in s.replies || r in s.toNbd ==> ReadAgrees(s, flat, r) && ReadAgrees(s', flat, r);
  }

  // ------------------------------------------------------------------ answer

  lemma OverlayElsewhere(flat: bytes, offset: nat, data: bytes, other: nat, len: nat)
    requires len == 0 || data == [] || offset + |data| <= other || other + len <= offset
    ensures ReadBack(Overlay(flat, offset, data), other, len) == ReadBack(flat, other, len)
  {
    var before, after := ReadBack(flat, other, len), ReadBack(Overlay(flat, offset, data), other, len);
    forall i | 0 <= i < len
      ensures after[i] == before[i]
    {
      OverlayAt(flat, offset, data, other + i);
    }
  }

  lemma AnswerIsAllowed(c: Config, s: State, reply: DriverData, d: Device)
    requires ValidConfig(c) && Inv(c, s) && Refines(c, s, d) && Enabled(c, s, Answer(reply))
    ensures Allowed(d, Seen(c, s, Answer(reply)))
  {
    assert GoodReply(s, reply);
    assert ReadAgrees(s, d.flat, reply);
  }

  lemma AnswerKeepsSettled(c: Config, s: State, reply: DriverData)
    requires ValidConfig(c) && Inv(c, s) && Settled(c, s) && Enabled(c, s, Answer(reply))
    ensures Settled(c, Apply(c, s, Answer(reply)))
  {
    hide CoversAt, ByteAt, Inv;
    var s' := Apply(c, s, Answer(reply));
    assert forall w, k: nat, q: nat :: BusyWith(c, s', w, k, q) ==> BusyWith(c, s, w, k, q);
    assert forall w :: Evidence(s', w) ==> Evidence(s, w);
  }

  /** An answer frees only the bytes of its own request. */
  lemma AnswerFreesItsOwn(c: Config, s: State, reply: DriverData, k: nat, q: nat)
    requires ValidConfig(c) && Enabled(c, s, Answer(reply)) && !Busy(c, Apply(c, s, Answer(reply)), k, q)
    ensures Busy(c, s, k, q) <==> BusyWith(c, s, reply.id, k, q)
  {
    hide CoversAt;
    var s' := Apply(c, s, Answer(reply));
    assert forall w :: BusyWith(c, s, w, k, q) && w != reply.id ==> BusyWith(c, s', w, k, q);
  }

  /** A write changes on the flat device what it changes on its slave. */
  lemma FlatWrite(c: Config, d: DriverData, flat: bytes, k: nat, q: nat)
    requires ValidConfig(c) && Acceptable(c, d) && q < c.slaveSize
    ensures At(Overlay(flat, d.offset, d.buffer), Absolute(k, q, c.slaveSize))
         == if CoversAt(c, d, k, q) then ByteAt(c, d, q) else At(flat, Absolute(k, q, c.slaveSize))
  {
    CoversAbsolute(c, d, k, q);
    OverlayAt(flat, d.offset, d.buffer, Absolute(k, q, c.slaveSize));
    hide Overlay, At, Absolute, CoversAt, ByteAt, LocalOffset;
  }

  lemma AnswerKeepsByte(c: Config, s: State, reply: DriverData, flat: bytes, k: nat, q: nat)
    requires ValidConfig(c) && Inv(c, s) && Settled(c, s) && BytesAgree(c, s, flat)
    requires Enabled(c, s, Answer(reply))
    requires k < |s.stores| && q < c.slaveSize && !Busy(c, Apply(c, s, Answer(reply)), k, q)
    ensures At(s.stores[k], q) == At(FlatStep(flat, Seen(c, s, Answer(reply))), Absolute(k, q, c.slaveSize))
  {
    AnswerFreesItsOwn(c, s, reply, k, q);
    assert GoodReply(s, reply);
    var d := s.log[reply.id];
    assert Acceptable(c, d) && Evidence(s, reply.id);
    hide CoversAt, ByteAt, Absolute, Inv, Overlay, At, Busy, Acceptable, GoodReply, Apply, Evidence;
    if reply.id in s.handles && d.kind == WRITE {
      FlatWrite(c, d, flat, k, q);
    }
  }

  lemma AnswerKeepsBytes(c: Config, s: State, reply: DriverData, flat: bytes)
    requires ValidConfig(c) && Inv(c, s) && Settled(c, s) && BytesAgree(c, s, flat)
    requires Enabled(c, s, Answer(reply))
    ensures BytesAgree(c, Apply(c, s, Answer(reply)), FlatStep(flat, Seen(c, s, Answer(reply))))
  {
    var s' := Apply(c, s, Answer(reply));
    forall k: nat, q: nat | k < |s'.stores| && q < c.slaveSize && !Busy(c, s', k, q)
      ensures At(s'.stores[k], q) == At(FlatStep(flat, Seen(c, s, Answer(reply))), Absolute(k, q, c.slaveSize))
    {
      AnswerKeepsByte(c, s, reply, flat, k, q);
    }
    hide Inv, Settled, Busy, At, FlatStep, Absolute, Seen;
  }

  lemma AnswerKeepsReads(c: Config, s: State, reply: DriverData, flat: bytes)
    requires ValidConfig(c) && Inv(c, s) && ReadsAgree(s, flat) && Enabled(c, s, Answer(reply))
    ensures ReadsAgree(Apply(c, s, Answer(reply)), FlatStep(flat, Seen(c, s, Answer(reply))))
  {
    var s', e := Apply(c, s, Answer(reply)), Seen(c, s, Answer(reply));
    forall r | r in s'.replies || r in s'.toNbd
      ensures ReadAgrees(s', FlatStep(flat, e), r)
    {
      assert ReadAgrees(s, flat, r);
      if r.id in s'.handles && r.kind == READ && e.Answered? && e.request.kind == WRITE {
        var read := s.log[r.id];
        assert !Overlap(read, e.request) by {
          assert Overlap(e.request, read) == Overlap(read, e.request);
        }
        OverlayElsewhere(flat, e.request.offset, e.request.buffer, read.offset, read.len);
      }
    }
  }

  // -------------------------------------------------------------- every step

  /** A step is one the flat device allows, and leads to a state it stands for, provided that the
      packet it executes, if any, is harmless. */
  lemma StepRefines(c: Config, s: State, step: Step, d: Device)
    requires ValidConfig(c) && Inv(c, s) && Refines(c, s, d) && Enabled(c, s, step)
    requires step.Execute? ==> Harmless(c, s, s.inbox[step.i])
    ensures Allowed(d, Seen(c, s, step)) && Refines(c, Apply(c, s, step), Next(d, Seen(c, s, step)))
  {
    match step {
      case Accept(request, handle) => AcceptRefines(c, s, request, handle, d);
      case Execute(i) => ExecuteAgreesIff(c, s, i, d.flat);
      case Answer(reply) => AnswerRefines(c, s, reply, d);
      case _ => SilentRefines(c, s, step, d);
    }
  }

  lemma AcceptRefines(c: Config, s: State, request: DriverData, handle: bytes, d: Device)
    requires ValidConfig(c) && Inv(c, s) && Refines(c, s, d) && Enabled(c, s, Accept(request, handle))
    ensures var e := Seen(c, s, Accept(request, handle));
            Allowed(d, e) && Refines(c, DoAccept(s, request, handle), Next(d, e))
  {
    hide Agrees, Acceptable;
    AcceptKeepsAgreement(c, s, request, handle, d.flat);
  }

  /** The client's view of an answer. */
  lemma AnswerShows(c: Config, s: State, reply: DriverData)
    requires ValidConfig(c) && Inv(c, s) && Enabled(c, s, Answer(reply))
    ensures var e := Seen(c, s, Answer(reply));
            if reply.id in s.handles then e.Answered? && e.id == reply.id else e.Internal?
  {
    assert GoodReply(s, reply);
  }

  lemma AnswerRefines(c: Config, s: State, reply: DriverData, d: Device)
    requires ValidConfig(c) && Inv(c, s) && Refines(c, s, d) && Enabled(c, s, Answer(reply))
    ensures var e := Seen(c, s, Answer(reply));
            Allowed(d, e) && Refines(c, Apply(c, s, Answer(reply)), Next(d, e))
  {
    AnswerIsAllowed(c, s, reply, d);
    AnswerKeepsAgreement(c, s, reply, d.flat);
    AnswerShows(c, s, reply);
    hide Agrees, Inv, Allowed, Seen, FlatStep;
  }

  lemma AnswerKeepsAgreement(c: Config, s: State, reply: DriverData, flat: bytes)
    requires ValidConfig(c) && Inv(c, s) && Agrees(c, s, flat) && Enabled(c, s, Answer(reply))
    ensures Agrees(c, Apply(c, s, Answer(reply)), FlatStep(flat, Seen(c, s, Answer(reply))))
  {
    hide Settled, BytesAgree, ReadsAgree, Inv;
    AnswerKeepsSettled(c, s, reply);
    AnswerKeepsBytes(c, s, reply, flat);
    AnswerKeepsReads(c, s, reply, flat);
  }

  lemma SilentRefines(c: Config, s: State, step: Step, d: Device)
    requires ValidConfig(c) && Refines(c, s, d) && Enabled(c, s, step)
    requires !step.Accept? && !step.Execute? && !step.Answer?
    ensures Seen(c, s, step) == Internal && Refines(c, Apply(c, s, step), d)
  {
    var s' := Apply(c, s, step);
    hide Agrees, NoCopy, Primary, Backup;
    QuietKeepsAgreement(c, s, s', d.flat);
  }
}
