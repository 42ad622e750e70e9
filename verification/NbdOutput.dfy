/** Any number of worker threads run DriverProxyNBD::send_to_driver at once on one socket. Each
    holds its own record, buffer position and count; what they share is the mutex and the socket. */
module NbdOutput {
  import opened Base
  import opened Data
  import opened NbdProxy

  /** A reply about to be written, its handle already looked up. */
  datatype Outgoing = Outgoing(handle: bytes, d: DriverData)

  /** Where a call is: before the mutex, inside it with so many bytes written, or over. */
  datatype Pc = Waiting | Inside(sent: nat) | Over(sent: nat)

  datatype Call = Call(reply: Outgoing, pc: Pc)

  datatype State = State(calls: seq<Call>, locked: bool, output: bytes, ledger: seq<nat>)
  // ledger is history: the calls in the order they took the mutex

  datatype Step =
    | Begin(reply: Outgoing)
    | Lock(w: nat)
    | Write(w: nat, n: nat) // a write that moves n bytes, however few
    | Unlock(w: nat)        // everything was written
    | Stall(w: nat)         // a write moved nothing: the exception releases the mutex

  function Bytes(reply: Outgoing): (s: bytes)
    ensures |s| == HeaderSize(reply) + |DataOf(reply)|
  {
    ReplyBytes(reply.handle, reply.d)
  }

  function HeaderSize(reply: Outgoing): nat {
    REPLY_SIZE - HANDLE_SIZE + |reply.handle|
  }

  function DataOf(r: Outgoing): bytes {
    Payload(r.d)
  }

  /** What is left of the write_to_sock the call is in: the header first, then the data. */
  function Left(reply: Outgoing, sent: nat): int {
    if sent < HeaderSize(reply) then HeaderSize(reply) - sent else |Bytes(reply)| - sent
  }

  predicate Enabled(s: State, step: Step) {
    match step
    case Begin(reply) => |reply.handle| == HANDLE_SIZE
    case Lock(w) => w < |s.calls| && s.calls[w].pc.Waiting? && !s.locked
    case Write(w, n) => w < |s.calls| && s.calls[w].pc.Inside? && 0 < n <= Left(s.calls[w].reply, s.calls[w].pc.sent)
    case Unlock(w) => w < |s.calls| && s.calls[w].pc.Inside? && s.calls[w].pc.sent == |Bytes(s.calls[w].reply)|
    case Stall(w) => w < |s.calls| && s.calls[w].pc.Inside? && s.calls[w].pc.sent < |Bytes(s.calls[w].reply)|
  }

  /** A write may move any number of bytes up to the end of the header or of the data, whichever comes
      next, and never reaches over it; a call can leave well exactly when both are out. */
  lemma WritesWhatIsLeft(s: State, w: nat, n: nat)
    requires w < |s.calls| && s.calls[w].pc.Inside? && |s.calls[w].reply.handle| == 8
    ensures var sent, d := s.calls[w].pc.sent, s.calls[w].reply.d;
            var all := 16 + if d.kind == READ then Min(d.len, |d.buffer|) else 0;
            && (Enabled(s, Write(w, n)) <==> 0 < n && sent + n <= if sent < 16 then 16 else all)
            && (Enabled(s, Unlock(w)) <==> sent == all)
            && (Enabled(s, Stall(w)) <==> sent < all)
  {
  }

  function Moved(s: State, w: nat, pc: Pc): (calls: seq<Call>)
    requires w < |s.calls|
    ensures |calls| == |s.calls|
  {
    s.calls[w := s.calls[w].(pc := pc)]
  }

  function Apply(s: State, step: Step): State
    requires Enabled(s, step)
  {
    match step
    case Begin(reply) => s.(calls := s.calls + [Call(reply, Waiting)])
    case Lock(w) => s.(calls := Moved(s, w, Inside(0)), locked := true, ledger := s.ledger + [w])
    case Write(w, n) =>
      var sent := s.calls[w].pc.sent;
      s.(calls := Moved(s, w, Inside(sent + n)), output := s.output + Bytes(s.calls[w].reply)[sent..sent + n])
    case Unlock(w) => s.(calls := Moved(s, w, Over(s.calls[w].pc.sent)), locked := false)
    case Stall(w) => s.(calls := Moved(s, w, Over(s.calls[w].pc.sent)), locked := false)
  }

  predicate Legal(steps: seq<Step>)
    decreases |steps|, 0
  {
    steps == [] || (Legal(steps[..|steps| - 1]) && Enabled(Run(steps[..|steps| - 1]), steps[|steps| - 1]))
  }

  function Run(steps: seq<Step>): State
    requires Legal(steps)
    decreases |steps|, 1
  {
    if steps == [] then State([], false, [], []) else Apply(Run(steps[..|steps| - 1]), steps[|steps| - 1])
  }

  // --------------------------------------------------------------- invariant

  predicate Counted(call: Call) {
    |call.reply.handle| == HANDLE_SIZE && (!call.pc.Waiting? ==> call.pc.sent <= |Bytes(call.reply)|)
  }

  /** The bytes a call has put on the socket so far. */
  function Chunk(call: Call): bytes {
    if call.pc.Waiting? then [] else Bytes(call.reply)[..Min(call.pc.sent, |Bytes(call.reply)|)]
  }

  predicate Listed(calls: seq<Call>, ledger: seq<nat>) {
    forall k :: 0 <= k < |ledger| ==> ledger[k] < |calls|
  }

  /** The chunks of the listed calls, one behind the other. */
  function Joined(calls: seq<Call>, ledger: seq<nat>): bytes
    requires Listed(calls, ledger)
  {
    if ledger == [] then []
    else Joined(calls, ledger[..|ledger| - 1]) + Chunk(calls[ledger[|ledger| - 1]])
  }

  /** Only the last call in the ledger can be inside, and it is inside exactly while the mutex is
      taken. */
  ghost predicate Excluded(s: State) {
    && (forall w :: 0 <= w < |s.calls| ==> Counted(s.calls[w]))
    && Listed(s.calls, s.ledger)
    && (forall j, k :: 0 <= j < k < |s.ledger| ==> s.ledger[j] != s.ledger[k])
    && (forall w :: 0 <= w < |s.calls| ==> (s.calls[w].pc.Waiting? <==> w !in s.ledger))
    && (forall w :: 0 <= w < |s.calls| ==>
          (s.calls[w].pc.Inside? <==> s.locked && s.ledger != [] && w == s.ledger[|s.ledger| - 1]))
  }

  /** And the socket holds the chunks in ledger order, and nothing else. */
  ghost predicate Inv(s: State) {
    Excluded(s) && s.output == Joined(s.calls, s.ledger)
  }

  lemma {:induction false} JoinedSame(a: seq<Call>, b: seq<Call>, ledger: seq<nat>)
    requires Listed(a, ledger) && Listed(b, ledger)
    requires forall k :: 0 <= k < |ledger| ==> Chunk(a[ledger[k]]) == Chunk(b[ledger[k]])
    ensures Joined(a, ledger) == Joined(b, ledger)
  {
    hide Chunk;
    if ledger != [] {
      JoinedSame(a, b, ledger[..|ledger| - 1]);
    }
  }

  lemma StepExcludes(s: State, step: Step)
    requires Excluded(s) && Enabled(s, step)
    ensures Excluded(Apply(s, step))
  {
    hide Bytes;
  }

  /** A change of one call that leaves its chunk alone changes nothing on the socket. */
  lemma JoinedOther(calls: seq<Call>, ledger: seq<nat>, w: nat, call: Call)
    requires w < |calls| && Listed(calls, ledger) && (w in ledger ==> Chunk(call) == Chunk(calls[w]))
    ensures Listed(calls[w := call], ledger) && Joined(calls[w := call], ledger) == Joined(calls, ledger)
  {
    hide Chunk;
    JoinedSame(calls[w := call], calls, ledger);
  }

  lemma JoinedGrows(calls: seq<Call>, ledger: seq<nat>, w: nat, call: Call, more: bytes)
    requires w < |calls| && Listed(calls, ledger) && ledger != []
    requires ledger[|ledger| - 1] == w && w !in ledger[..|ledger| - 1]
    requires Chunk(call) == Chunk(calls[w]) + more
    ensures Listed(calls[w := call], ledger) && Joined(calls[w := call], ledger) == Joined(calls, ledger) + more
  {
    hide Chunk;
    var front := ledger[..|ledger| - 1];
    JoinedOther(calls, front, w, call);
    assert Joined(calls, front) + (Chunk(calls[w]) + more) == Joined(calls, front) + Chunk(calls[w]) + more;
  }

  lemma WriteExtends(s: State, w: nat, n: nat)
    requires Inv(s) && Enabled(s, Write(w, n))
    ensures Listed(Apply(s, Write(w, n)).calls, s.ledger)
    ensures Apply(s, Write(w, n)).output == Joined(Apply(s, Write(w, n)).calls, s.ledger)
  {
    hide Joined, Bytes;
    var sent, all := s.calls[w].pc.sent, Bytes(s.calls[w].reply);
    assert s.ledger[|s.ledger| - 1] == w && w !in s.ledger[..|s.ledger| - 1];
    assert Counted(s.calls[w]);
    hide Excluded, Listed;
    assert all[..sent] + all[sent..sent + n] == all[..sent + n];
    JoinedGrows(s.calls, s.ledger, w, Apply(s, Write(w, n)).calls[w], all[sent..sent + n]);
  }

  lemma StepExtends(s: State, step: Step)
    requires Inv(s) && Enabled(s, step)
    ensures Listed(Apply(s, step).calls, Apply(s, step).ledger)
    ensures Apply(s, step).output == Joined(Apply(s, step).calls, Apply(s, step).ledger)
  {
    hide Joined;
    var s' := Apply(s, step);
    match step
    case Begin(reply) =>
      hide Bytes, Chunk;
      JoinedSame(s.calls, s'.calls, s.ledger);
    case Write(w, n) => WriteExtends(s, w, n);
    case Lock(w) =>
      hide Bytes;
      assert w !in s.ledger && s'.ledger[..|s'.ledger| - 1] == s.ledger;
      JoinedOther(s.calls, s.ledger, w, s'.calls[w]);
      JoinedLast(s'.calls, s'.ledger);
    case _ =>
      hide Bytes;
      JoinedOther(s.calls, s.ledger, step.w, s'.calls[step.w]);
  }

  lemma JoinedLast(calls: seq<Call>, ledger: seq<nat>)
    requires Listed(calls, ledger) && ledger != []
    ensures Joined(calls, ledger) == Joined(calls, ledger[..|ledger| - 1]) + Chunk(calls[ledger[|ledger| - 1]])
  {
  }

  lemma JoinedNone(calls: seq<Call>)
    ensures Joined(calls, []) == []
  {
  }

  lemma {:induction false} RunKeeps(steps: seq<Step>)
    requires Legal(steps)
    ensures Inv(Run(steps))
  {
    if steps != [] {
      var s, step := Run(steps[..|steps| - 1]), steps[|steps| - 1];
      RunKeeps(steps[..|steps| - 1]);
      hide Excluded, Joined, Enabled, Apply;
      StepExcludes(s, step);
      StepExtends(s, step);
    } else {
      assert Excluded(Run(steps));
    }
  }

  // -------------------------------------------------------------- whole replies

  predicate Whole(call: Call) {
    Counted(call) && (call.pc.Over? ==> call.pc.sent == |Bytes(call.reply)|)
  }

  predicate NoStall(steps: seq<Step>) {
    forall e :: e in steps ==> !e.Stall?
  }

  /** Every reply that is over went out whole, if and only if no write ever stalled. */
  lemma {:induction false} WholeIffNoStall(steps: seq<Step>)
    requires Legal(steps)
    ensures AllWhole(Run(steps)) <==> NoStall(steps)
  {
    if steps != [] {
      var before, step := steps[..|steps| - 1], steps[|steps| - 1];
      WholeIffNoStall(before);
      RunKeeps(before);
      RunKeeps(steps);
      LastStep(steps);
      hide *;
      StallShows(Run(before), step);
      NoStallLast(steps);
    } else {
      hide Legal;
      assert NoStall(steps);
    }
  }

  lemma LastStep(steps: seq<Step>)
    requires Legal(steps) && steps != []
    ensures Legal(steps[..|steps| - 1]) && Enabled(Run(steps[..|steps| - 1]), steps[|steps| - 1])
    ensures Run(steps) == Apply(Run(steps[..|steps| - 1]), steps[|steps| - 1])
  {
  }

  lemma NoStallLast(steps: seq<Step>)
    requires steps != []
    ensures NoStall(steps) <==> NoStall(steps[..|steps| - 1]) && !steps[|steps| - 1].Stall?
  {
    assert steps == steps[..|steps| - 1] + [steps[|steps| - 1]];
  }

  predicate AllWhole(s: State) {
    forall w :: 0 <= w < |s.calls| ==> Whole(s.calls[w])
  }

  lemma StallShows(s: State, step: Step)
    requires Inv(s) && Enabled(s, step) && Inv(Apply(s, step))
    ensures AllWhole(Apply(s, step)) <==> AllWhole(s) && !step.Stall?
  {
    hide Bytes;
    OverStays(s, step);
    var s' := Apply(s, step);
    if step.Stall? {
      assert !Whole(s'.calls[step.w]);
    } else if !AllWhole(s) {
      var w :| 0 <= w < |s.calls| && !Whole(s.calls[w]);
      assert !Whole(s'.calls[w]);
    }
  }

  lemma OverStays(s: State, step: Step)
    requires Inv(s) && Enabled(s, step)
    ensures |Apply(s, step).calls| >= |s.calls|
    ensures forall w :: 0 <= w < |s.calls| && s.calls[w].pc.Over? ==> Apply(s, step).calls[w] == s.calls[w]
    ensures forall w :: 0 <= w < |Apply(s, step).calls| && Apply(s, step).calls[w].pc.Over? ==>
              (w < |s.calls| && s.calls[w] == Apply(s, step).calls[w])
              || ((step.Unlock? || step.Stall?) && w == step.w && Apply(s, step).calls[w].reply == s.calls[w].reply
                  && Apply(s, step).calls[w].pc.sent == s.calls[w].pc.sent)
  {
    hide Bytes;
  }

  /** Whole replies, one behind the other. */
  function Concat(rs: seq<Outgoing>): bytes {
    if rs == [] then [] else Concat(rs[..|rs| - 1]) + Bytes(rs[|rs| - 1])
  }

  /** The replies of the first n calls in the ledger. */
  function Finished(s: State, n: nat): (rs: seq<Outgoing>)
    requires Listed(s.calls, s.ledger) && n <= |s.ledger|
    ensures |rs| == n && forall k :: 0 <= k < n ==> rs[k] == s.calls[s.ledger[k]].reply
  {
    seq(n, k requires 0 <= k < n => s.calls[s.ledger[k]].reply)
  }

  lemma {:induction false} JoinedWhole(s: State, n: nat)
    requires Listed(s.calls, s.ledger) && n <= |s.ledger|
    requires forall k :: 0 <= k < n ==> s.calls[s.ledger[k]].pc.Over? && Whole(s.calls[s.ledger[k]])
    ensures Joined(s.calls, s.ledger[..n]) == Concat(Finished(s, n))
  {
    hide Bytes, Joined;
    if n == 0 {
      assert Joined(s.calls, []) == [] by { JoinedNone(s.calls); }
    } else {
      JoinedWhole(s, n - 1);
      var call := s.calls[s.ledger[n - 1]];
      JoinedLast(s.calls, s.ledger[..n]);
      assert s.ledger[..n][..n - 1] == s.ledger[..n - 1] && Finished(s, n)[..n - 1] == Finished(s, n - 1);
      assert Chunk(call) == Bytes(call.reply);
    }
  }

  /** How many calls have left the mutex. */
  function Closed(s: State): nat {
    if s.locked && s.ledger != [] then |s.ledger| - 1 else |s.ledger|
  }

  /** The part of a reply that the thread inside the mutex has written. */
  function Partial(s: State): bytes
    requires Listed(s.calls, s.ledger)
  {
    if Closed(s) < |s.ledger| then Chunk(s.calls[s.ledger[|s.ledger| - 1]]) else []
  }

  /** For every interleaving and every pattern of positive short writes, the socket carries whole
      replies in the order the mutex was taken, and behind them at most the beginning of the one
      reply whose thread holds it. */
  lemma RepliesNeverInterleave(steps: seq<Step>)
    requires Legal(steps) && NoStall(steps)
    ensures Inv(Run(steps))
    ensures var s := Run(steps); s.output == Concat(Finished(s, Closed(s))) + Partial(s)
  {
    RunKeeps(steps);
    WholeIffNoStall(steps);
    var s := Run(steps);
    hide Run, Bytes;
    forall k | 0 <= k < Closed(s)
      ensures s.calls[s.ledger[k]].pc.Over? && Whole(s.calls[s.ledger[k]])
    {
      assert s.ledger[k] in s.ledger;
    }
    JoinedWhole(s, Closed(s));
    assert s.ledger[..|s.ledger|] == s.ledger;
  }

  // ------------------------------------------------------------ what the client reads

  datatype Heard = Heard(handle: bytes, data: bytes)

  /** The client reads headers that say there was no error, looks up how many bytes it asked for under
      the handle, and stops where the stream holds no whole reply yet. */
  function Parse(s: bytes, asked: map<bytes, nat>): (seq<Heard>, bytes)
    decreases |s|
  {
    if |s| < REPLY_SIZE || s[..8] != [0x67, 0x44, 0x66, 0x98, 0, 0, 0, 0] then ([], s)
    else if s[8..16] !in asked || |s| < REPLY_SIZE + asked[s[8..16]] then ([], s)
    else
      var n := REPLY_SIZE + asked[s[8..16]];
      var (later, rest) := Parse(s[n..], asked);
      ([Heard(s[8..16], s[16..n])] + later, rest)
  }

  /** The client knows how much it wants to READ, and the record's buffer holds that much. */
  predicate Expected(r: Outgoing, asked: map<bytes, nat>) {
    && |r.handle| == HANDLE_SIZE && r.handle in asked
    && asked[r.handle] == (if r.d.kind == READ then r.d.len else 0)
    && (r.d.kind == READ ==> r.d.len <= |r.d.buffer|)
  }

  function HeardAll(rs: seq<Outgoing>): (hs: seq<Heard>)
    ensures |hs| == |rs| && forall k :: 0 <= k < |rs| ==> hs[k] == Heard(rs[k].handle, DataOf(rs[k]))
  {
    seq(|rs|, k requires 0 <= k < |rs| => Heard(rs[k].handle, DataOf(rs[k])))
  }

  /** The client hears the reply's handle and, for a READ, as many bytes as were asked for. */
  ghost predicate Hears(h: Heard, r: Outgoing) {
    && h.handle == r.handle
    && (r.d.kind == READ ==> r.d.len <= |r.d.buffer| && h.data == r.d.buffer[..r.d.len])
    && (r.d.kind != READ ==> h.data == [])
  }

  lemma ParseOne(r: Outgoing, tail: bytes, asked: map<bytes, nat>)
    requires Expected(r, asked)
    ensures Parse(Bytes(r) + tail, asked)
         == ([Heard(r.handle, DataOf(r))] + Parse(tail, asked).0, Parse(tail, asked).1)
  {
    var s, n := Bytes(r) + tail, |Bytes(r)|;
    ReplyLayout(r.handle, r.d);
    assert s[..8] == [0x67, 0x44, 0x66, 0x98, 0, 0, 0, 0];
    assert s[8..16] == r.handle && s[16..n] == DataOf(r) && s[n..] == tail;
  }

  lemma ParsePrefix(r: Outgoing, n: nat, asked: map<bytes, nat>)
    requires Expected(r, asked) && n < |Bytes(r)|
    ensures Parse(Bytes(r)[..n], asked) == ([], Bytes(r)[..n])
  {
    if n >= REPLY_SIZE {
      ReplyLayout(r.handle, r.d);
      assert Bytes(r)[..n][8..16] == r.handle;
    }
  }

  lemma {:induction false} ParseAll(rs: seq<Outgoing>, tail: bytes, asked: map<bytes, nat>)
    requires forall k :: 0 <= k < |rs| ==> Expected(rs[k], asked)
    ensures Parse(Concat(rs) + tail, asked) == (HeardAll(rs) + Parse(tail, asked).0, Parse(tail, asked).1)
  {
    hide Parse, Bytes;
    if rs == [] {
      assert Concat(rs) + tail == tail && HeardAll(rs) + Parse(tail, asked).0 == Parse(tail, asked).0;
    } else {
      var front, last := rs[..|rs| - 1], rs[|rs| - 1];
      assert Concat(rs) + tail == Concat(front) + (Bytes(last) + tail);
      ParseAll(front, Bytes(last) + tail, asked);
      ParseOne(last, tail, asked);
      assert HeardAll(rs) + Parse(tail, asked).0
          == HeardAll(front) + ([Heard(last.handle, DataOf(last))] + Parse(tail, asked).0);
    }
  }

  /** Whether the thread inside the mutex has written everything and only has to leave. */
  predicate LastIsOut(s: State)
    requires Listed(s.calls, s.ledger)
  {
    Closed(s) < |s.ledger| && Partial(s) == Bytes(s.calls[s.ledger[|s.ledger| - 1]].reply)
  }

  /** A client that knows what it asked for under each handle reads from the socket exactly the
      finished replies, in the order the mutex was taken, each with its own data; the beginning of
      an unfinished one is left for later. */
  lemma ClientReadsReplies(steps: seq<Step>, asked: map<bytes, nat>)
    requires Legal(steps) && NoStall(steps)
    requires forall w :: 0 <= w < |Run(steps).calls| ==> Expected(Run(steps).calls[w].reply, asked)
    ensures Inv(Run(steps))
    ensures var s := Run(steps);
            Parse(s.output, asked)
              == if LastIsOut(s) then (HeardAll(Finished(s, |s.ledger|)), [])
                    else (HeardAll(Finished(s, Closed(s))), Partial(s))
    ensures var s, heard := Run(steps), Parse(Run(steps).output, asked).0;
            |heard| <= |s.ledger| && forall k :: 0 <= k < |heard| ==> Hears(heard[k], s.calls[s.ledger[k]].reply)
  {
    RepliesNeverInterleave(steps);
    StateParses(Run(steps), asked);
    AllHeard(Run(steps), asked);
  }

  lemma AllHeard(s: State, asked: map<bytes, nat>)
    requires Listed(s.calls, s.ledger)
    requires forall w :: 0 <= w < |s.calls| ==> Expected(s.calls[w].reply, asked)
    ensures forall n: nat, k :: n <= |s.ledger| && 0 <= k < n ==>
              Hears(HeardAll(Finished(s, n))[k], s.calls[s.ledger[k]].reply)
  {
    forall n: nat, k | n <= |s.ledger| && 0 <= k < n
      ensures Hears(HeardAll(Finished(s, n))[k], s.calls[s.ledger[k]].reply)
    {
      assert Expected(s.calls[s.ledger[k]].reply, asked);
    }
  }

  lemma StateParses(s: State, asked: map<bytes, nat>)
    requires Inv(s) && forall w :: 0 <= w < |s.calls| ==> Expected(s.calls[w].reply, asked)
    ensures Parse(Concat(Finished(s, Closed(s))) + Partial(s), asked)
         == if LastIsOut(s) then (HeardAll(Finished(s, |s.ledger|)), [])
               else (HeardAll(Finished(s, Closed(s))), Partial(s))
  {
    hide Bytes, Parse, Concat, Joined;
    ParseAll(Finished(s, Closed(s)), Partial(s), asked);
    PartialParses(s, asked);
    if LastIsOut(s) {
      var reply := s.calls[s.ledger[|s.ledger| - 1]].reply;
      assert HeardAll(Finished(s, |s.ledger|))
            == HeardAll(Finished(s, Closed(s))) + [Heard(reply.handle, DataOf(reply))];
    } else {
      assert HeardAll(Finished(s, Closed(s))) + [] == HeardAll(Finished(s, Closed(s)));
    }
  }

  lemma PartialParses(s: State, asked: map<bytes, nat>)
    requires Inv(s) && forall w :: 0 <= w < |s.calls| ==> Expected(s.calls[w].reply, asked)
    ensures Parse(Partial(s), asked)
         == if LastIsOut(s) then
              var reply := s.calls[s.ledger[|s.ledger| - 1]].reply;
              ([Heard(reply.handle, DataOf(reply))], [])
            else ([], Partial(s))
  {
    hide Bytes, Joined;
    if Closed(s) < |s.ledger| {
      var call := s.calls[s.ledger[|s.ledger| - 1]];
      assert call.pc.Inside?;
      if call.pc.sent == |Bytes(call.reply)| {
        assert Partial(s) == Bytes(call.reply) == Bytes(call.reply) + [];
        ParseOne(call.reply, [], asked);
        assert LastIsOut(s) && Parse([], asked) == ([], []);
        assert [Heard(call.reply.handle, DataOf(call.reply))] + [] == [Heard(call.reply.handle, DataOf(call.reply))];
      } else {
        ParsePrefix(call.reply, call.pc.sent, asked);
      }
    }
  }
}
