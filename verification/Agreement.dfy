/** When the slaves and the flat device agree, and which execution of a request keeps it so. */
module Agreement {
  import opened Base
  import opened Data
  import opened ByteArray
  import opened Address
  import opened Protocol
  import opened Invariants

  /** d goes to slave k and covers q there. */
  predicate CoversAt(c: Config, d: DriverData, k: nat, q: nat)
    requires ValidConfig(c)
  {
    && k == SlaveIndex(d.offset, c.slaveSize)
    && LocalOffset(d.offset, c.slaveSize) <= q < LocalOffset(d.offset, c.slaveSize) + d.len
  }

  /** The byte that d writes at q of its slave. */
  function ByteAt(c: Config, d: DriverData, q: nat): byte
    requires ValidConfig(c)
  {
    var i := q - LocalOffset(d.offset, c.slaveSize);
    if 0 <= i < |d.buffer| then d.buffer[i] else 0
  }

  /** An unanswered write covers q of slave k. */
  ghost predicate BusyWith(c: Config, s: State, w: int, k: nat, q: nat)
    requires ValidConfig(c)
  {
    w in s.handles && w in s.log && s.log[w].kind == WRITE && CoversAt(c, s.log[w], k, q)
  }

  ghost predicate Busy(c: Config, s: State, k: nat, q: nat)
    requires ValidConfig(c)
  {
    exists w :: BusyWith(c, s, w, k, q)
  }

  /** A reply to w is on its way. */
  ghost predicate Evidence(s: State, w: int) {
    exists r :: (r in s.replies || r in s.toNbd) && r.id == w
  }

  /** Once a reply to a write is on its way, its slave holds what it wrote. */
  ghost predicate Settled(c: Config, s: State)
    requires ValidConfig(c)
  {
    forall w, k: nat, q: nat :: BusyWith(c, s, w, k, q) && Evidence(s, w) && k < |s.stores| ==>
      At(s.stores[k], q) == ByteAt(c, s.log[w], q)
  }

  /** Where no write is pending, the slaves hold the flat device. */
  ghost predicate BytesAgree(c: Config, s: State, flat: bytes)
    requires ValidConfig(c)
  {
    forall k: nat, q: nat :: k < |s.stores| && q < c.slaveSize && !Busy(c, s, k, q) ==>
      At(s.stores[k], q) == At(flat, Absolute(k, q, c.slaveSize))
  }

  ghost predicate ReadAgrees(s: State, flat: bytes, r: DriverData) {
    r.id in s.handles && r.id in s.log && r.kind == READ ==>
      r.buffer == ReadBack(flat, s.log[r.id].offset, s.log[r.id].len)
  }

  /** Every reply to a pending read carries the flat device's bytes. */
  ghost predicate ReadsAgree(s: State, flat: bytes) {
    forall r :: r in s.replies || r in s.toNbd ==> ReadAgrees(s, flat, r)
  }

  ghost predicate Agrees(c: Config, s: State, flat: bytes)
    requires ValidConfig(c)
  {
    Settled(c, s) && BytesAgree(c, s, flat) && ReadsAgree(s, flat)
  }

  /** A pending write that has yet to be executed and will overwrite q of slave k. */
  ghost predicate Shielded(c: Config, s: State, k: nat, q: nat)
    requires ValidConfig(c)
  {
    exists w :: BusyWith(c, s, w, k, q) && !Evidence(s, w)
  }

  /** Executing p now does no damage: it is no primary write, or its request is still pending, or
      every byte it writes is there already or about to be overwritten. */
  ghost predicate Harmless(c: Config, s: State, p: Packet)
    requires ValidConfig(c)
  {
    IsPrimary(c, p) && p.data.kind == WRITE && p.data.id in s.log && p.data.id !in s.handles ==>
      forall k: nat, q: nat :: CoversAt(c, s.log[p.data.id], k, q) && k < |s.stores| ==>
        At(s.stores[k], q) == ByteAt(c, s.log[p.data.id], q) || Shielded(c, s, k, q)
  }

  // -------------------------------------------------------------- geometry

  lemma CoversAbsolute(c: Config, d: DriverData, k: nat, q: nat)
    requires ValidConfig(c) && Acceptable(c, d) && q < c.slaveSize
    ensures CoversAt(c, d, k, q) <==> d.offset <= Absolute(k, q, c.slaveSize) < d.offset + d.len
    ensures CoversAt(c, d, k, q) ==> ByteAt(c, d, q) == d.buffer[Absolute(k, q, c.slaveSize) - d.offset]
  {
    CoversLocally(d.offset, d.len, k, q, c.slaveSize);
  }

  lemma CoversInside(c: Config, d: DriverData, k: nat, q: nat)
    requires ValidConfig(c) && Acceptable(c, d) && CoversAt(c, d, k, q)
    ensures q < c.slaveSize && k < c.slaves
  {
    IndexBelow(d.offset, c.slaveSize, c.slaves);
  }

  lemma CommonByteOverlaps(c: Config, a: DriverData, b: DriverData, k: nat, q: nat)
    requires ValidConfig(c) && Acceptable(c, a) && Acceptable(c, b)
    requires CoversAt(c, a, k, q) && CoversAt(c, b, k, q)
    ensures Overlap(a, b)
  {
    CoversInside(c, a, k, q);
    CoversAbsolute(c, a, k, q);
    CoversAbsolute(c, b, k, q);
  }

  lemma OverlapSameSlave(c: Config, a: DriverData, b: DriverData)
    requires ValidConfig(c) && Acceptable(c, a) && Acceptable(c, b) && Overlap(a, b)
    ensures SlaveIndex(a.offset, c.slaveSize) == SlaveIndex(b.offset, c.slaveSize)
  {
    var p := if a.offset < b.offset then b.offset else a.offset;
    Contiguous(a.offset, p - a.offset, c.slaveSize);
    Contiguous(b.offset, p - b.offset, c.slaveSize);
  }

  /** At most one pending request covers a byte. */
  lemma OnePendingPerByte(c: Config, s: State, v: int, w: int, k: nat, q: nat)
    requires ValidConfig(c) && Ids(c, s) && LatestPending(s)
    requires v in s.handles && w in s.handles
    requires CoversAt(c, s.log[v], k, q) && CoversAt(c, s.log[w], k, q)
    ensures v == w
  {
    CommonByteOverlaps(c, s.log[v], s.log[w], k, q);
    CommonByteOverlaps(c, s.log[w], s.log[v], k, q);
  }

  // --------------------------------------------------------------- execute

  predicate WritesPrimary(c: Config, p: Packet) {
    IsPrimary(c, p) && p.data.kind == WRITE
  }

  /** What executing one packet does to a primary byte. */
  lemma ExecutedByte(c: Config, s: State, i: nat, k: nat, q: nat)
    requires ValidConfig(c) && Ids(c, s) && Packets(c, s) && Enabled(c, s, Execute(i))
    requires k < |s.stores| && q < c.slaveSize
    ensures var p := s.inbox[i];
            && p.data.id in s.log
            && At(DoExecute(c, s, i).stores[k], q)
            == if WritesPrimary(c, p) && CoversAt(c, s.log[p.data.id], k, q) then ByteAt(c, s.log[p.data.id], q)
               else At(s.stores[k], q)
  {
    var p := s.inbox[i];
    assert GoodPacket(c, s, p);
    OverlayAt(s.stores[p.dst], p.data.offset, p.data.buffer, q);
  }

  lemma ExecutedEvidence(c: Config, s: State, i: nat, w: int)
    requires ValidConfig(c) && Enabled(c, s, Execute(i))
    ensures Evidence(s, w) ==> Evidence(DoExecute(c, s, i), w)
    ensures w != s.inbox[i].data.id && Evidence(DoExecute(c, s, i), w) ==> Evidence(s, w)
  {
    var s' := DoExecute(c, s, i);
    if Evidence(s, w) {
      var r :| (r in s.replies || r in s.toNbd) && r.id == w;
      assert r in s'.replies || r in s'.toNbd;
    }
  }

  lemma ExecuteKeepsSettled(c: Config, s: State, i: nat)
    requires ValidConfig(c) && Inv(c, s) && Enabled(c, s, Execute(i))
    requires Settled(c, s) && Harmless(c, s, s.inbox[i])
    ensures Settled(c, DoExecute(c, s, i))
  {
    hide Inv, DoExecute, IsPrimary, CoversAt, ByteAt, GoodPacket, Acceptable;
    var s', id := DoExecute(c, s, i), s.inbox[i].data.id;
    ExecuteFrame(c, s, i);
    forall w, k: nat, q: nat | BusyWith(c, s', w, k, q) && Evidence(s', w) && k < |s'.stores|
      ensures At(s'.stores[k], q) == ByteAt(c, s'.log[w], q)
    {
      CoversInside(c, s.log[w], k, q);
      ExecutedByte(c, s, i, k, q);
      ExecutedEvidence(c, s, i, w);
      assert BusyWith(c, s, w, k, q);
      if w == id {
        PacketKind(c, s, s.inbox[i]);
        BackupGivesNoEvidence(c, s, i);
      } else if WritesPrimary(c, s.inbox[i]) && CoversAt(c, s.log[id], k, q) {
        if id in s.handles {
          OnePendingPerByte(c, s, id, w, k, q);
        } else if Shielded(c, s, k, q) {
          var v :| BusyWith(c, s, v, k, q) && !Evidence(s, v);
          OnePendingPerByte(c, s, v, w, k, q);
        }
      }
    }
  }

  lemma ExecuteFrame(c: Config, s: State, i: nat)
    requires ValidConfig(c) && Inv(c, s) && Enabled(c, s, Execute(i))
    ensures var s' := DoExecute(c, s, i);
            && s'.handles == s.handles && s'.log == s.log && |s'.stores| == |s.stores|
            && Ids(c, s) && LatestPending(s) && Packets(c, s)
  {
  }

  /** Only the primary copy of a request is answered. */
  lemma BackupGivesNoEvidence(c: Config, s: State, i: nat)
    requires ValidConfig(c) && Inv(c, s) && Enabled(c, s, Execute(i))
    ensures var s' := DoExecute(c, s, i);
            !IsPrimary(c, s.inbox[i]) ==> forall w :: Evidence(s', w) ==> Evidence(s, w)
  {
    assert GoodPacket(c, s, s.inbox[i]);
  }

  lemma ExecuteKeepsBytes(c: Config, s: State, i: nat, flat: bytes)
    requires ValidConfig(c) && Inv(c, s) && Enabled(c, s, Execute(i))
    requires BytesAgree(c, s, flat) && Harmless(c, s, s.inbox[i])
    ensures BytesAgree(c, DoExecute(c, s, i), flat)
  {
    hide Inv, DoExecute, IsPrimary, CoversAt, ByteAt, GoodPacket, Acceptable, Absolute;
    var s', id := DoExecute(c, s, i), s.inbox[i].data.id;
    ExecuteFrame(c, s, i);
    forall k: nat, q: nat | k < |s'.stores| && q < c.slaveSize && !Busy(c, s', k, q)
      ensures At(s'.stores[k], q) == At(flat, Absolute(k, q, c.slaveSize))
    {
      ExecutedByte(c, s, i, k, q);
      assert forall w :: BusyWith(c, s, w, k, q) == BusyWith(c, s', w, k, q);
      assert !Busy(c, s, k, q) && !Shielded(c, s, k, q);
      if id in s.handles && WritesPrimary(c, s.inbox[i]) && CoversAt(c, s.log[id], k, q) {
        PendingWriterIsBusy(c, s, s.inbox[i], k, q);
      }
    }
  }

  lemma PacketKind(c: Config, s: State, p: Packet)
    requires ValidConfig(c) && GoodPacket(c, s, p)
    ensures p.data.kind == s.log[p.data.id].kind && p.data.len == s.log[p.data.id].len
  {
  }

  lemma PendingWriterIsBusy(c: Config, s: State, p: Packet, k: nat, q: nat)
    requires ValidConfig(c) && GoodPacket(c, s, p) && WritesPrimary(c, p)
    requires p.data.id in s.handles && CoversAt(c, s.log[p.data.id], k, q)
    ensures Busy(c, s, k, q)
  {
    assert BusyWith(c, s, p.data.id, k, q);
  }

  /** A pending read is answered with the flat device's bytes. */
  lemma ExecuteKeepsReads(c: Config, s: State, i: nat, flat: bytes)
    requires ValidConfig(c) && Inv(c, s) && Enabled(c, s, Execute(i))
    requires BytesAgree(c, s, flat) && ReadsAgree(s, flat)
    ensures ReadsAgree(DoExecute(c, s, i), flat)
  {
    var p, s' := s.inbox[i], DoExecute(c, s, i);
    forall r | (r in s'.replies || r in s'.toNbd) && r !in s.replies && r !in s.toNbd
      ensures ReadAgrees(s', flat, r)
    {
      if r.id in s'.handles && r.kind == READ {
        assert GoodPacket(c, s, p);
        ReadIsFlat(c, s, r.id, flat);
      }
    }
  }

  lemma ReadIsFlat(c: Config, s: State, id: int, flat: bytes)
    requires ValidConfig(c) && Inv(c, s) && BytesAgree(c, s, flat)
    requires id in s.handles && s.log[id].kind == READ
    ensures var p := Primary(c, s.log[id]);
            && p.dst < |s.stores|
            && ReadBack(s.stores[p.dst], p.data.offset, p.data.len) == ReadBack(flat, s.log[id].offset, s.log[id].len)
  {
    var p, request := Primary(c, s.log[id]), s.log[id];
    IndexBelow(request.offset, c.slaveSize, c.slaves);
    var here := ReadBack(s.stores[p.dst], p.data.offset, request.len);
    var there := ReadBack(flat, request.offset, request.len);
    hide Inv, BytesAgree;
    forall j | 0 <= j < request.len
      ensures here[j] == there[j]
    {
      ReadByteIsFlat(c, s, id, flat, j);
    }
  }

  lemma ReadByteIsFlat(c: Config, s: State, id: int, flat: bytes, j: nat)
    requires ValidConfig(c) && Inv(c, s) && BytesAgree(c, s, flat)
    requires id in s.handles && s.log[id].kind == READ && j < s.log[id].len
    ensures var p := Primary(c, s.log[id]);
            p.dst < |s.stores| && At(s.stores[p.dst], p.data.offset + j) == At(flat, s.log[id].offset + j)
  {
    var request := s.log[id];
    var k, q := SlaveIndex(request.offset, c.slaveSize), LocalOffset(request.offset, c.slaveSize) + j;
    assert CoversAt(c, request, k, q);
    CoversInside(c, request, k, q);
    assert Absolute(k, q, c.slaveSize) == request.offset + j by {
      Recompose(request.offset, c.slaveSize);
    }
    hide SlaveIndex, LocalOffset, Absolute, CoversAt, Packets, Replies;
    forall w | BusyWith(c, s, w, k, q)
      ensures w == id
    {
      OnePendingPerByte(c, s, id, w, k, q);
    }
    assert !Busy(c, s, k, q);
  }

  /** The harm a stale write does: it shows at once. */
  lemma HarmShows(c: Config, s: State, i: nat, flat: bytes)
    requires ValidConfig(c) && Inv(c, s) && Enabled(c, s, Execute(i))
    requires Agrees(c, s, flat) && !Harmless(c, s, s.inbox[i])
    ensures !Agrees(c, DoExecute(c, s, i), flat)
  {
    hide Inv, DoExecute, IsPrimary, ByteAt, GoodPacket, Acceptable, Absolute;
    var s', id := DoExecute(c, s, i), s.inbox[i].data.id;
    ExecuteFrame(c, s, i);
    var k: nat, q: nat :| CoversAt(c, s.log[id], k, q) && k < |s.stores|
                          && At(s.stores[k], q) != ByteAt(c, s.log[id], q) && !Shielded(c, s, k, q);
    CoversInside(c, s.log[id], k, q);
    ExecutedByte(c, s, i, k, q);
    if Busy(c, s, k, q) {
      var w :| BusyWith(c, s, w, k, q);
      ExecutedEvidence(c, s, i, w);
      assert BusyWith(c, s', w, k, q) && Evidence(s, w);
    } else {
      assert forall w :: BusyWith(c, s, w, k, q) == BusyWith(c, s', w, k, q);
    }
  }

  /** Executing one received packet keeps slaves and flat device in agreement if and only if that
      packet is harmless, under every discipline and none. */
  lemma ExecuteAgreesIff(c: Config, s: State, i: nat, flat: bytes)
    requires ValidConfig(c) && Inv(c, s) && Enabled(c, s, Execute(i)) && Agrees(c, s, flat)
    ensures Agrees(c, DoExecute(c, s, i), flat) <==> Harmless(c, s, s.inbox[i])
  {
    if Harmless(c, s, s.inbox[i]) {
      ExecuteKeepsSettled(c, s, i);
      ExecuteKeepsBytes(c, s, i, flat);
      ExecuteKeepsReads(c, s, i, flat);
    } else {
      HarmShows(c, s, i, flat);
    }
  }
}
