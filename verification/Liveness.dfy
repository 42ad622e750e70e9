/** No request is stuck. Each pending request has a rank that no step raises unless the network loses
    or repeats a packet; some step that lowers it can always be made; at the lowest rank the request
    is answered. */
module Liveness {
  import opened Base
  import opened Data
  import opened SlaveTasks
  import opened Protocol
  import opened Invariants

  /** A step during which the network keeps what it was given. */
  predicate Faithful(step: Step) {
    !step.LosePacket? && !step.LoseReply? && !step.DuplicatePacket?
  }

  // --------------------------------------------------------------------- rank

  predicate IsCopy(c: Config, p: Packet, id: int) {
    IsPrimary(c, p) && p.data.id == id
  }

  /** The place of the first copy of a request in a queue, or the end of the queue. */
  function FirstCopy(c: Config, q: seq<Packet>, id: int): (r: nat)
    ensures r <= |q| && (r < |q| ==> IsCopy(c, q[r], id))
    ensures forall k :: 0 <= k < r ==> !IsCopy(c, q[k], id)
  {
    if q == [] || IsCopy(c, q[0], id) then 0 else FirstCopy(c, q[1..], id) + 1
  }

  /** The place of the first packet for a slave. */
  function FirstTo(q: seq<Packet>, dst: nat): (r: nat)
    ensures r <= |q| && (r < |q| ==> q[r].dst == dst)
    ensures forall k :: 0 <= k < r ==> q[k].dst != dst
  {
    if q == [] || q[0].dst == dst then 0 else FirstTo(q[1..], dst) + 1
  }

  ghost predicate ReplyUnderWay(s: State, id: int) {
    exists r :: r in s.replies && r.id == id
  }

  /** How much of its sending a request still has before it, when nothing of it is under way. */
  function CloudRank(s: State, id: int): nat {
    if id !in s.toCloud then 5
    else match s.toCloud[id]
      case Tracked => 6
      case BackedUp => 7
      case Queued => 8
  }

  /** How far a request is from its answer: answered, its reply waiting, its reply under way, a copy of
      it at its slave, a copy of it in flight, to be sent again, or still to be sent at all. */
  ghost function Stage(c: Config, s: State, id: int): nat {
    if id !in s.handles then 0
    else if ReplyPending(s, id) then 1
    else if ReplyUnderWay(s, id) then 2
    else if FirstCopy(c, s.inbox, id) < |s.inbox| then 3
    else if FirstCopy(c, s.net, id) < |s.net| then 4
    else CloudRank(s, id)
  }

  /** How many packets stand before that copy. */
  ghost function Before(c: Config, s: State, id: int): nat {
    if Stage(c, s, id) == 3 then FirstCopy(c, s.inbox, id)
    else if Stage(c, s, id) == 4 then FirstCopy(c, s.net, id)
    else 0
  }

  /** Ranks are compared stage first. */
  ghost predicate Lower(c: Config, s': State, s: State, id: int) {
    Stage(c, s', id) < Stage(c, s, id) || (Stage(c, s', id) == Stage(c, s, id) && Before(c, s', id) < Before(c, s, id))
  }

  ghost predicate NotHigher(c: Config, s': State, s: State, id: int) {
    Lower(c, s', s, id) || (Stage(c, s', id) == Stage(c, s, id) && Before(c, s', id) == Before(c, s, id))
  }

  // -------------------------------------------------------- no step raises it

  lemma CopyBounds(c: Config, s: State, id: int)
    ensures forall k :: 0 <= k < |s.inbox| && IsCopy(c, s.inbox[k], id) ==>
              Stage(c, s, id) <= 3 && (Stage(c, s, id) == 3 ==> Before(c, s, id) <= k)
    ensures forall k :: 0 <= k < |s.net| && IsCopy(c, s.net[k], id) ==>
              Stage(c, s, id) <= 4 && (Stage(c, s, id) == 4 ==> Before(c, s, id) <= k)
  {
    hide IsCopy;
  }

  lemma CloudBound(c: Config, s: State, id: int)
    ensures Stage(c, s, id) <= CloudRank(s, id)
  {
    hide FirstCopy;
  }

  lemma CloudOnlyFalls(c: Config, s: State, step: Step, id: int)
    requires ValidConfig(c) && Ids(c, s) && Enabled(c, s, step) && id in s.log
    ensures CloudRank(Apply(c, s, step), id) <= CloudRank(s, id)
  {
    hide Acceptable, Overlap, NoCopy, Primary, Backup, DoExecute;
    if step.Execute? {
      ExecuteLeaves(c, s, step.i);
    } else if step.Accept? {
      assert id != s.counter + 1;
    }
  }

  lemma WaitingOnlyFalls(c: Config, s: State, step: Step, id: int)
    requires ValidConfig(c) && Enabled(c, s, step) && ReplyPending(s, id)
    ensures Stage(c, Apply(c, s, step), id) <= 1
  {
    hide Acceptable, Overlap, NoCopy, Primary, Backup, FirstCopy;
    var r :| r in s.toNbd && r.id == id;
    if step != Answer(r) {
      assert r in Apply(c, s, step).toNbd;
    }
  }

  lemma ExecuteReplies(c: Config, s: State, i: nat)
    requires i < |s.inbox| && s.inbox[i].dst < |s.stores|
    ensures forall r :: r in s.replies ==> r in DoExecute(c, s, i).replies
  {
    hide Stored, Reply, Heard;
  }

  lemma AcceptReplies(s: State, request: DriverData, handle: bytes)
    ensures DoAccept(s, request, handle).replies == s.replies
  {
  }

  lemma ReplyOnlyFalls(c: Config, s: State, step: Step, id: int)
    requires ValidConfig(c) && Enabled(c, s, step) && Faithful(step) && ReplyUnderWay(s, id)
    ensures Stage(c, Apply(c, s, step), id) <= 2
  {
    hide Acceptable, Overlap, NoCopy, Primary, Backup, FirstCopy, DoExecute, DoAccept, CloudRank;
    var r :| r in s.replies && r.id == id;
    var s' := Apply(c, s, step);
    if step == Receive(r) {
      assert r in s'.toNbd;
    } else if step.Execute? {
      ExecuteReplies(c, s, step.i);
    } else if step.Accept? {
      AcceptReplies(s, step.request, step.handle);
    } else {
      assert r in s'.replies;
    }
  }

  /** Executing the primary copy of a request sends a reply to it. */
  lemma Acknowledged(c: Config, s: State, i: nat)
    requires ValidConfig(c) && Inv(c, s) && i < |s.inbox| && s.inbox[i].dst < |s.stores| && IsPrimary(c, s.inbox[i])
    ensures ReplyUnderWay(DoExecute(c, s, i), s.inbox[i].data.id)
  {
    var p := s.inbox[i];
    assert GoodPacket(c, s, p);
    var r := Heard(Reply(s.stores[p.dst], p.data, c.slaveSize).value);
    assert r in DoExecute(c, s, i).replies && r.id == p.data.id;
  }

  lemma ReplyBounds(c: Config, s: State, id: int)
    requires ReplyUnderWay(s, id)
    ensures Stage(c, s, id) <= 2
  {
    hide FirstCopy;
  }

  /** A queue that lost one packet still holds every other one, no further back. */
  lemma StillThere(q: seq<Packet>, i: nat, j: nat) returns (k: nat)
    requires i < |q| && j < |q| && i != j
    ensures k < |Without(q, j)| && Without(q, j)[k] == q[i] && k == if j < i then i - 1 else i
  {
    k := if j < i then i - 1 else i;
  }

  lemma OthersKeepInbox(c: Config, s: State, step: Step)
    requires ValidConfig(c) && Enabled(c, s, step) && !step.Execute?
    ensures |s.inbox| <= |Apply(c, s, step).inbox|
    ensures forall i :: 0 <= i < |s.inbox| ==> Apply(c, s, step).inbox[i] == s.inbox[i]
  {
    hide Acceptable, Overlap, NoCopy, Primary, Backup;
  }

  lemma OthersKeepNet(c: Config, s: State, step: Step)
    requires ValidConfig(c) && Enabled(c, s, step) && Faithful(step) && !step.Deliver?
    ensures |s.net| <= |Apply(c, s, step).net|
    ensures forall i :: 0 <= i < |s.net| ==> Apply(c, s, step).net[i] == s.net[i]
  {
    hide Acceptable, Overlap, NoCopy, Primary, Backup, Stored, Reply;
  }

  /** A copy at its slave is executed in the end, and only gets nearer to it. */
  lemma InboxOnlyFalls(c: Config, s: State, step: Step, id: int)
    requires ValidConfig(c) && Inv(c, s) && Enabled(c, s, step) && Stage(c, s, id) == 3
    ensures NotHigher(c, Apply(c, s, step), s, id)
    ensures step.Execute? && step.i <= Before(c, s, id) ==> Lower(c, Apply(c, s, step), s, id)
  {
    var s', i := Apply(c, s, step), FirstCopy(c, s.inbox, id);
    CopyBounds(c, s', id);
    if step.Execute? {
      if step.i == i {
        Acknowledged(c, s, i);
        ReplyBounds(c, s', id);
      } else {
        var k := StillThere(s.inbox, i, step.i);
        assert s'.inbox == Without(s.inbox, step.i);
        assert IsCopy(c, s'.inbox[k], id);
      }
    } else {
      OthersKeepInbox(c, s, step);
      assert IsCopy(c, s'.inbox[i], id);
    }
  }

  /** A copy in flight is delivered in the end. */
  lemma NetOnlyFalls(c: Config, s: State, step: Step, id: int)
    requires ValidConfig(c) && Enabled(c, s, step) && Faithful(step) && Stage(c, s, id) == 4
    ensures NotHigher(c, Apply(c, s, step), s, id)
    ensures step.Deliver? && step.i <= Before(c, s, id) ==> Lower(c, Apply(c, s, step), s, id)
  {
    var s', i := Apply(c, s, step), FirstCopy(c, s.net, id);
    CopyBounds(c, s', id);
    if step.Deliver? {
      if step.i == i {
        assert IsCopy(c, s'.inbox[|s.inbox|], id);
      } else {
        var k := StillThere(s.net, i, step.i);
        assert IsCopy(c, s'.net[k], id);
      }
    } else {
      OthersKeepNet(c, s, step);
      assert IsCopy(c, s'.net[i], id);
    }
  }

  lemma AnsweredStaysAnswered(c: Config, s: State, step: Step, id: int)
    requires ValidConfig(c) && Ids(c, s) && Enabled(c, s, step) && id in s.log && id !in s.handles
    ensures id !in Apply(c, s, step).handles
  {
    hide Acceptable, Overlap, NoCopy, Primary, Backup, DoExecute;
    assert step.Execute? ==> DoExecute(c, s, step.i).handles == s.handles by {
      if step.Execute? {
        ExecuteLeaves(c, s, step.i);
      }
    }
  }

  /** Whatever happens, new requests and repeated replies included: as long as the network loses and
      repeats no packet, no request falls back. */
  lemma NothingFallsBack(c: Config, s: State, step: Step, id: int)
    requires ValidConfig(c) && Inv(c, s) && Enabled(c, s, step) && Faithful(step) && id in s.log
    ensures NotHigher(c, Apply(c, s, step), s, id)
  {
    assert Ids(c, s);
    hide Inv, Apply, Enabled, FirstCopy, CloudRank, Faithful;
    if id !in s.handles {
      AnsweredStaysAnswered(c, s, step, id);
    } else if ReplyPending(s, id) {
      WaitingOnlyFalls(c, s, step, id);
    } else if ReplyUnderWay(s, id) {
      ReplyOnlyFalls(c, s, step, id);
    } else if Stage(c, s, id) == 3 {
      InboxOnlyFalls(c, s, step, id);
    } else if Stage(c, s, id) == 4 {
      NetOnlyFalls(c, s, step, id);
    } else {
      CloudOnlyFalls(c, s, step, id);
      CloudBound(c, Apply(c, s, step), id);
      BeforeNothing(c, s, id);
      BeforeNothing(c, Apply(c, s, step), id);
    }
  }

  lemma BeforeNothing(c: Config, s: State, id: int)
    ensures Stage(c, s, id) != 3 && Stage(c, s, id) != 4 ==> Before(c, s, id) == 0
    ensures CloudRank(s, id) >= 5
  {
    hide Stage;
  }

  lemma LastOfMore(c: Config, steps: seq<Step>, more: seq<Step>)
    requires ValidConfig(c) && Legal(c, steps + more) && more != []
    ensures var front := more[..|more| - 1];
            && Legal(c, steps + front) && Enabled(c, Run(c, steps + front), more[|more| - 1])
            && Run(c, steps + more) == Apply(c, Run(c, steps + front), more[|more| - 1])
  {
    hide Enabled, Apply;
    assert (steps + more)[..|steps + more| - 1] == steps + more[..|more| - 1];
  }

  /** So over any stretch of a run in which the network loses and repeats no packet. */
  lemma {:induction false} RankOnlyFalls(c: Config, steps: seq<Step>, more: seq<Step>, id: int)
    requires ValidConfig(c) && Legal(c, steps) && Legal(c, steps + more) && AllFaithful(more) && id in Run(c, steps).log
    ensures id in Run(c, steps + more).log && NotHigher(c, Run(c, steps + more), Run(c, steps), id)
  {
    hide *;
    if more == [] {
      assert steps + more == steps;
      SameRank(c, Run(c, steps), id);
    } else {
      var front := more[..|more| - 1];
      LastOfMore(c, steps, more);
      RunKeeps(c, steps + front);
      FrontFaithful(more);
      RankOnlyFalls(c, steps, front, id);
      NothingFallsBack(c, Run(c, steps + front), more[|more| - 1], id);
      LogStays(c, Run(c, steps + front), more[|more| - 1], id);
      RanksCompose(c, Run(c, steps + more), Run(c, steps + front), Run(c, steps), id);
    }
  }

  lemma SameRank(c: Config, s: State, id: int)
    ensures NotHigher(c, s, s, id)
  {
  }

  lemma RanksCompose(c: Config, s2: State, s1: State, s0: State, id: int)
    requires NotHigher(c, s2, s1, id) && NotHigher(c, s1, s0, id)
    ensures NotHigher(c, s2, s0, id)
  {
    hide Stage, Before;
  }

  lemma FrontFaithful(more: seq<Step>)
    requires more != [] && AllFaithful(more)
    ensures AllFaithful(more[..|more| - 1]) && Faithful(more[|more| - 1])
  {
  }

  lemma LogStays(c: Config, s: State, step: Step, id: int)
    requires ValidConfig(c) && Inv(c, s) && Enabled(c, s, step) && id in s.log
    ensures id in Apply(c, s, step).log
  {
    assert Ids(c, s);
    StepExtends(c, s, step);
    hide Inv, Apply, Enabled;
  }

  predicate AllFaithful(steps: seq<Step>) {
    forall e :: e in steps ==> Faithful(e)
  }

  // ------------------------------------------------ and some step lowers it

  lemma PacketGoesToASlave(c: Config, s: State, p: Packet)
    requires ValidConfig(c) && Inv(c, s) && (p in s.net || p in s.inbox)
    ensures p.dst < |s.stores|
  {
    assert GoodPacket(c, s, p);
    PrimaryIsPrimary(c, s.log[p.data.id]);
  }

  lemma InboxHelps(c: Config, s: State, id: int) returns (step: Step)
    requires ValidConfig(c) && Inv(c, s) && Stage(c, s, id) == 3
    ensures Faithful(step) && !step.Answer? && Enabled(c, s, step) && Lower(c, Apply(c, s, step), s, id)
  {
    var i := FirstCopy(c, s.inbox, id);
    var j := FirstTo(s.inbox, s.inbox[i].dst);
    assert j <= i;
    PacketGoesToASlave(c, s, s.inbox[i]);
    hide Inv, FirstCopy, FirstTo, Apply;
    step := Execute(j);
    InboxOnlyFalls(c, s, step, id);
  }

  lemma NetHelps(c: Config, s: State, id: int) returns (step: Step)
    requires ValidConfig(c) && Stage(c, s, id) == 4
    ensures Faithful(step) && !step.Answer? && Enabled(c, s, step) && Lower(c, Apply(c, s, step), s, id)
  {
    var i := FirstCopy(c, s.net, id);
    var j := FirstTo(s.net, s.net[i].dst);
    assert j <= i;
    hide FirstCopy, FirstTo, Apply;
    step := Deliver(j);
    NetOnlyFalls(c, s, step, id);
  }

  lemma ReplyHelps(c: Config, s: State, id: int) returns (step: Step)
    requires ValidConfig(c) && Stage(c, s, id) == 2
    ensures Faithful(step) && !step.Answer? && Enabled(c, s, step) && Lower(c, Apply(c, s, step), s, id)
  {
    hide FirstCopy;
    var r :| r in s.replies && r.id == id;
    step := Receive(r);
    assert r in Apply(c, s, step).toNbd;
  }

  lemma AnswerHelps(c: Config, s: State, id: int) returns (step: Step)
    requires ValidConfig(c) && Inv(c, s) && Stage(c, s, id) == 1
    ensures step.Answer? && Enabled(c, s, step) && Lower(c, Apply(c, s, step), s, id)
    ensures var e := Seen(c, s, step); e.Answered? && e.id == id && e.handle == s.handles[id]
  {
    hide FirstCopy;
    var r :| r in s.toNbd && r.id == id;
    step := Answer(r);
  }

  lemma SentAgain(c: Config, s: State, id: int)
    requires ValidConfig(c) && Inv(c, s) && id in s.handles && id in s.tracking
    ensures id in s.log && s.tracking[id] == Primary(c, s.log[id]) && IsCopy(c, Primary(c, s.log[id]), id)
  {
    PrimaryIsPrimary(c, s.log[id]);
  }

  lemma ResendHelps(c: Config, s: State, id: int) returns (step: Step)
    requires ValidConfig(c) && Inv(c, s) && Stage(c, s, id) == 5
    ensures Faithful(step) && !step.Answer? && Enabled(c, s, step) && Lower(c, Apply(c, s, step), s, id)
  {
    assert id in s.tracking && NoCopy(c, s, id);
    SentAgain(c, s, id);
    hide Inv, Primary, FirstCopy, NoCopy;
    step := Resend(id);
    var s' := Apply(c, s, step);
    assert IsCopy(c, s'.net[|s.net|], id);
    CopyBounds(c, s', id);
  }

  lemma SendHelps(c: Config, s: State, id: int) returns (step: Step)
    requires ValidConfig(c) && Inv(c, s) && Stage(c, s, id) == 6
    ensures Faithful(step) && !step.Answer? && Enabled(c, s, step) && Lower(c, Apply(c, s, step), s, id)
  {
    assert id in s.toCloud && id in s.log && s.log[id].id == id;
    PrimaryIsPrimary(c, s.log[id]);
    hide Inv, Primary, FirstCopy;
    step := Send(id);
    var s' := Apply(c, s, step);
    assert Primary(c, s.log[id]).data.id == id by { PrimaryId(c, s.log[id]); }
    assert IsCopy(c, s'.net[|s.net|], id);
    CopyBounds(c, s', id);
  }

  lemma PrimaryId(c: Config, d: DriverData)
    requires ValidConfig(c)
    ensures Primary(c, d).data.id == d.id
  {
  }

  lemma CloudHelps(c: Config, s: State, id: int) returns (step: Step)
    requires ValidConfig(c) && Inv(c, s) && Stage(c, s, id) >= 7
    ensures Faithful(step) && !step.Answer? && Enabled(c, s, step) && Lower(c, Apply(c, s, step), s, id)
  {
    assert Ids(c, s) && Stages(s);
    hide Inv, Primary, Backup, FirstCopy;
    step := if s.toCloud[id] == Queued && s.log[id].kind == WRITE then SendBackup(id) else Track(id);
    CloudBound(c, Apply(c, s, step), id);
  }

  /** As long as a request is pending, some step brings it nearer to its answer, under every rule; nobody
      has to wait for what may never come. */
  lemma SomeStepHelps(c: Config, s: State, id: int) returns (step: Step)
    requires ValidConfig(c) && Inv(c, s) && id in s.handles
    ensures Faithful(step) && Enabled(c, s, step) && Lower(c, Apply(c, s, step), s, id)
    ensures step.Answer? <==> Stage(c, s, id) == 1
    ensures step.Answer? ==>
              var e := Seen(c, s, step); e.Answered? && e.id == id && e.handle == s.handles[id]
  {
    StageNames(c, s, id);
    hide *;
    if Stage(c, s, id) == 1 {
      step := AnswerHelps(c, s, id);
      AnswerIsFaithful(step);
    } else if Stage(c, s, id) == 2 {
      step := ReplyHelps(c, s, id);
    } else if Stage(c, s, id) == 3 {
      step := InboxHelps(c, s, id);
    } else if Stage(c, s, id) == 4 {
      step := NetHelps(c, s, id);
    } else if Stage(c, s, id) == 5 {
      step := ResendHelps(c, s, id);
    } else if Stage(c, s, id) == 6 {
      step := SendHelps(c, s, id);
    } else {
      step := CloudHelps(c, s, id);
    }
  }

  lemma AnswerIsFaithful(step: Step)
    requires step.Answer?
    ensures Faithful(step)
  {
  }

  lemma StageNames(c: Config, s: State, id: int)
    ensures id in s.handles ==> 1 <= Stage(c, s, id) <= 8
  {
    hide FirstCopy;
  }

  // ------------------------------------------------------------ so it is answered

  /** Helping it along answers it. */
  lemma {:induction false} HelpedToItsAnswer(c: Config, steps: seq<Step>, more: seq<Step>, id: int)
      returns (all: seq<Step>, answer: Step)
    requires ValidConfig(c) && Legal(c, steps + more) && AllFaithful(more) && id in Run(c, steps + more).handles
    ensures AllFaithful(all) && Legal(c, steps + all) && Enabled(c, Run(c, steps + all), answer)
    ensures var e := Seen(c, Run(c, steps + all), answer);
            e.Answered? && e.id == id && e.handle == Run(c, steps + more).handles[id]
    decreases Stage(c, Run(c, steps + more), id), Before(c, Run(c, steps + more), id)
  {
    var s := Run(c, steps + more);
    RunKeeps(c, steps + more);
    hide Run, Legal, Inv, Enabled, Apply, Stage, Before, Seen;
    var step := SomeStepHelps(c, s, id);
    if step.Answer? {
      all, answer := more, step;
    } else {
      Extend(c, steps + more, step);
      assert steps + (more + [step]) == steps + more + [step];
      HandleStays(c, s, step, id);
      all, answer := HelpedToItsAnswer(c, steps, more + [step], id);
    }
  }

  lemma HandleStays(c: Config, s: State, step: Step, id: int)
    requires ValidConfig(c) && Inv(c, s) && Enabled(c, s, step) && id in s.handles && !step.Answer?
    ensures var s' := Apply(c, s, step); id in s'.handles && s'.handles[id] == s.handles[id]
  {
    assert s.counter + 1 !in s.handles;
    hide Inv, Acceptable, Overlap, NoCopy, Primary, Backup;
  }

  /** Whatever has happened: if from now on the network loses and repeats no packet, every pending
      request can still be answered, and its answer carries the handle it came with. */
  lemma EveryRequestCanBeAnswered(c: Config, steps: seq<Step>, id: int) returns (more: seq<Step>, answer: Step)
    requires ValidConfig(c) && Legal(c, steps) && id in Run(c, steps).handles
    ensures AllFaithful(more) && Legal(c, steps + more) && Enabled(c, Run(c, steps + more), answer)
    ensures var e := Seen(c, Run(c, steps + more), answer);
            e.Answered? && e.id == id && e.handle == Run(c, steps).handles[id]
  {
    hide Run, Legal, Enabled, Seen;
    assert steps + [] == steps;
    more, answer := HelpedToItsAnswer(c, steps, [], id);
  }
}
