/** The storage file of a slave and the loops that move bytes in and out of it. */
module Storage {
  import opened Base
  import opened Data
  import opened ByteArray

  /** The kernel answers the calls as plan says: a negative entry is an error, any other entry
      caps the bytes that call moves, and calls beyond the plan move all they can. */
  function Answer(plan: seq<int>, most: nat): int {
    if plan == [] then most else if plan[0] < 0 then -1 else Min(plan[0], most)
  }

  function Later(plan: seq<int>): seq<int> {
    if plan == [] then [] else plan[1..]
  }

  /** What a whole transfer loop achieves: the bytes moved, and whether a call failed. `left`
      bytes are still wanted, `room` can be had at all. */
  function Moves(plan: seq<int>, left: nat, room: nat): (r: (nat, bool))
    ensures r.0 <= Min(left, room)
    decreases left
  {
    var n := Answer(plan, Min(left, room));
    if n < 0 then (0, true)
    else if n == 0 || n == left then (n, false)
    else Continued(n, Moves(Later(plan), left - n, room - n))
  }

  /** The outcome of a loop that has already moved `done` bytes. */
  function Continued(done: nat, rest: (nat, bool)): (nat, bool) {
    (done + rest.0, rest.1)
  }

  /** Every call moves at least one byte when there is one to move, and none fails. */
  predicate NeverStalls(plan: seq<int>) {
    forall k :: 0 <= k < |plan| ==> plan[k] >= 1
  }

  function Sum(plan: seq<int>): int {
    if plan == [] then 0 else plan[0] + Sum(plan[1..])
  }

  /** The first k calls are allowed to move something. */
  predicate Flows(plan: seq<int>, k: nat) {
    k <= |plan| && forall j :: 0 <= j < k ==> plan[j] > 0
  }

  lemma {:induction false} SumGrows(plan: seq<int>, k: nat)
    requires Flows(plan, k)
    ensures Sum(plan[..k]) >= 0 && (k > 0 ==> Sum(plan[..k]) == plan[0] + Sum(plan[1..][..k - 1]) >= plan[0])
  {
    if k > 0 {
      assert plan[..k][1..] == plan[1..][..k - 1];
      SumGrows(plan[1..], k - 1);
    }
  }

  /** Call k is made and fails: every earlier call moved something, they have not moved all that is
      wanted, and the last of them still had something to move. */
  predicate FailsAt(plan: seq<int>, k: nat, left: nat, room: nat) {
    && Flows(plan, k) && k < |plan| && plan[k] < 0
    && (k > 0 ==> Min(Sum(plan[..k]), room) < left && Sum(plan[..k - 1]) < room)
  }

  lemma FailsLater(plan: seq<int>, k: nat, left: nat, room: nat, n: nat)
    requires k > 0 && Flows(plan, 1) && n == Min(plan[0], Min(left, room)) && 0 < n < left
    ensures FailsAt(plan, k, left, room) <==> FailsAt(plan[1..], k - 1, left - n, room - n)
    ensures FailsAt(plan, k, left, room) ==>
              Min(Sum(plan[..k]), room) == n + Min(Sum(plan[1..][..k - 1]), room - n)
  {
    assert Flows(plan, k) <==> Flows(plan[1..], k - 1) && k <= |plan| by {
      assert k <= |plan| ==> forall j :: 0 < j < k ==> plan[j] == plan[1..][j - 1];
      assert k <= |plan| ==> forall j :: 0 <= j < k - 1 ==> plan[1..][j] == plan[j + 1];
    }
    if Flows(plan, k) {
      SumGrows(plan, k);
      SumGrows(plan, k - 1);
      SumGrows(plan[1..], k - 1);
      if k > 1 {
        SumGrows(plan[1..], k - 2);
      }
    }
  }

  /** A transfer in which some call is made and fails has failed, and exactly what the earlier calls were
      allowed to move has been moved, as far as there was anything to move. */
  lemma {:induction false} FailsSo(plan: seq<int>, k: nat, left: nat, room: nat)
    requires FailsAt(plan, k, left, room)
    ensures Moves(plan, left, room) == (Min(Sum(plan[..k]), room), true)
    decreases left
  {
    if k > 0 {
      var n := Answer(plan, Min(left, room));
      SumGrows(plan, k);
      SumGrows(plan, k - 1);
      FailsLater(plan, k, left, room, n);
      FailsSo(plan[1..], k - 1, left - n, room - n);
    }
  }

  /** And no other transfer has. */
  lemma {:induction false} FailsSomewhere(plan: seq<int>, left: nat, room: nat) returns (k: nat)
    requires Moves(plan, left, room).1
    ensures FailsAt(plan, k, left, room)
    decreases left
  {
    var n := Answer(plan, Min(left, room));
    if n < 0 {
      k := 0;
    } else {
      var j := FailsSomewhere(Later(plan), left - n, room - n);
      k := j + 1;
      FailsLater(plan, k, left, room, n);
    }
  }

  ghost predicate Fails(plan: seq<int>, left: nat, room: nat) {
    exists k: nat :: FailsAt(plan, k, left, room)
  }

  lemma FailsIff(plan: seq<int>, left: nat, room: nat)
    ensures Moves(plan, left, room).1 <==> Fails(plan, left, room)
    ensures forall k: nat :: FailsAt(plan, k, left, room) ==> Moves(plan, left, room).0 == Min(Sum(plan[..k]), room)
  {
    hide Flows, Moves, Sum;
    forall k: nat | FailsAt(plan, k, left, room)
      ensures Moves(plan, left, room).1 && Moves(plan, left, room).0 == Min(Sum(plan[..k]), room)
    {
      FailsSo(plan, k, left, room);
    }
    if Moves(plan, left, room).1 {
      var k := FailsSomewhere(plan, left, room);
    }
  }

  /** How much is moved: what the calls before the first one that moves nothing were allowed to move, as
      far as there is anything to move and it is wanted; everything, if there is no such call. */
  lemma {:induction false} MovesExactly(plan: seq<int>, k: nat, left: nat, room: nat)
    requires Flows(plan, k) && (k < |plan| ==> plan[k] <= 0)
    ensures Moves(plan, left, room).0
         == if k == |plan| then Min(left, room) else Min(Sum(plan[..k]), Min(left, room))
    decreases left
  {
    SumGrows(plan, k);
    var n := Answer(plan, Min(left, room));
    if 0 < n < left {
      if k > 0 {
        SumGrows(plan[1..], k - 1);
        assert forall j :: 0 <= j < k - 1 ==> plan[1..][j] == plan[j + 1];
        MovesExactly(plan[1..], k - 1, left - n, room - n);
      } else {
        assert Moves([], left - n, room - n) == (0, false);
      }
    }
  }

  /** When no call fails or moves nothing the loop moves everything there is to move. */
  lemma MovesAll(plan: seq<int>, left: nat, room: nat)
    requires NeverStalls(plan)
    ensures Moves(plan, left, room) == (Min(left, room), false)
  {
    MovesExactly(plan, |plan|, left, room);
    FailsIff(plan, left, room);
  }

  /** How far the file goes on behind offset. */
  function Room(file: bytes, offset: nat): (r: nat)
    ensures offset <= |file| ==> offset + r == |file|
    ensures offset >= |file| ==> r == 0
  {
    if offset < |file| then |file| - offset else 0
  }

  /** A buffer whose first `done` bytes come from the file and whose rest is as it was. */
  function Filled(file: bytes, offset: nat, original: bytes, done: nat): (r: bytes)
    requires done <= |original|
    ensures |r| == |original|
  {
    ReadBack(file, offset, done) + original[done..]
  }

  /** If call k of a write fails, the file holds exactly the bytes that the calls before it were allowed to
      move. */
  ghost predicate KeepsWhatMoved(plan: seq<int>, before: bytes, after: bytes, offset: nat, data: bytes) {
    forall k: nat :: FailsAt(plan, k, |data|, |data|) ==>
      && 0 <= Sum(plan[..k]) <= |data|
      && after == Overlay(before, offset, data[..Sum(plan[..k])])
  }

  lemma MovedIsKept(plan: seq<int>, file: bytes, offset: nat, data: bytes)
    ensures KeepsWhatMoved(plan, file, Overlay(file, offset, data[..Moves(plan, |data|, |data|).0]), offset, data)
  {
    hide Overlay, Moves;
    FailsIff(plan, |data|, |data|);
    forall k: nat | FailsAt(plan, k, |data|, |data|)
      ensures 0 <= Sum(plan[..k]) <= |data|
    {
      SumGrows(plan, k);
    }
  }

  lemma FillNothing(file: bytes, offset: nat, original: bytes)
    ensures Filled(file, offset, original, 0) == original
  {
  }

  lemma FilledEverywhere(file: bytes, offset: nat, original: bytes, done: nat)
    requires done <= |original|
    ensures forall i :: 0 <= i < |original| ==>
              Filled(file, offset, original, done)[i] == if i < done then At(file, offset + i) else original[i]
  {
  }

  lemma FillStep(file: bytes, offset: nat, original: bytes, done: nat, n: nat)
    requires done + n <= |original|
    ensures Filled(file, offset, original, done)[..done] + ReadBack(file, offset + done, n)
              + Filled(file, offset, original, done)[done + n..]
         == Filled(file, offset, original, done + n)
  {
    ReadBackJoin(file, offset, done, n);
  }

  /** One call of the read loop. */
  lemma ReadOnce(plan: seq<int>, file: bytes, position: nat, left: nat, done: nat)
    ensures var n, moves := Answer(plan, Min(left, Room(file, position))), Moves(plan, left, Room(file, position));
            if n < 0 then Continued(done, moves).1
            else
              && n <= left
              && if n > 0 && left - n > 0
                 then
                   Continued(done, moves)
                     == Continued(done + n, Moves(Later(plan), left - n, Room(file, position + n)))
                 else Continued(done, moves) == (done + n, false)
  {
  }

  lemma WriteOnce(plan: seq<int>, left: nat, done: nat)
    ensures var n, moves := Answer(plan, left), Moves(plan, left, left);
            if n < 0 then Continued(done, moves) == (done, true)
            else
              && n <= left
              && if n > 0 && left - n > 0
                 then Continued(done, moves) == Continued(done + n, Moves(Later(plan), left - n, left - n))
                 else Continued(done, moves) == (done + n, false)
  {
  }

  lemma NothingWritten(plan: seq<int>, file: bytes, request: DriverData)
    ensures Overlay(file, request.offset, request.buffer[..0]) == file
    ensures var moves := Moves(plan, request.len, request.len);
            Continued(0, moves) == moves && (moves.1 <==> Fails(plan, request.len, request.len))
  {
    FailsIff(plan, request.len, request.len);
    OverlayNothing(file, request.offset);
  }

  lemma NothingYet(plan: seq<int>, file: bytes, request: DriverData)
    ensures Filled(file, request.offset, request.buffer, 0) == request.buffer
    ensures var moves := Moves(plan, request.len, Room(file, request.offset));
            && Continued(0, moves) == moves && (moves.1 <==> Fails(plan, request.len, Room(file, request.offset)))
  {
    FillNothing(file, request.offset, request.buffer);
    FailsIff(plan, request.len, Room(file, request.offset));
  }

  class Storage {
    const slaveSize: nat
    var file: bytes
    var position: nat
    var plan: seq<int> // how the kernel will answer the next calls

    constructor (slaveSize: nat, file: bytes, plan: seq<int>)
      ensures this.slaveSize == slaveSize && this.file == file && this.plan == plan && position == 0
    {
      this.slaveSize := slaveSize;
      this.file := file;
      this.plan := plan;
      position := 0;
    }

    /** lseek takes a signed offset, so one past LONG_MAX arrives as a negative one and fails. */
    method Lseek(offset: nat) returns (ok: bool)
      modifies this`position
      ensures ok <==> offset <= LONG_MAX
      ensures position == if ok then offset else old(position)
    {
      ok := offset <= LONG_MAX;
      if ok {
        position := offset;
      }
    }

    /** Chooses how many of at most `most` bytes the next call moves; -1 is an error. */
    method NextCount(most: nat) returns (n: int)
      modifies this`plan
      ensures plan == Later(old(plan)) && n == Answer(old(plan), most)
    {
      if plan == [] {
        return most;
      }
      n := if plan[0] < 0 then -1 else Min(plan[0], most);
      plan := plan[1..];
    }

    /** read(2). */
    method SysRead(count: nat) returns (n: int, chunk: bytes)
      modifies this`plan, this`position
      ensures plan == Later(old(plan)) && n == Answer(old(plan), Min(count, Room(file, old(position))))
      ensures chunk == ReadBack(file, old(position), if n < 0 then 0 else n)
      ensures position == old(position) + if n < 0 then 0 else n
    {
      n := NextCount(Min(count, Room(file, position)));
      chunk := ReadBack(file, position, if n < 0 then 0 else n);
      position := position + |chunk|;
    }

    /** write(2). */
    method SysWrite(data: bytes) returns (n: int)
      modifies this`plan, this`position, this`file
      ensures plan == Later(old(plan)) && n == Answer(old(plan), |data|)
      ensures n >= 0 ==> file == Overlay(old(file), old(position), data[..n]) && position == old(position) + n
      ensures n < 0 ==> file == old(file) && position == old(position)
    {
      n := NextCount(|data|);
      if n >= 0 {
        file := Overlay(file, position, data[..n]);
        position := position + n;
      }
    }

    /** One read(2) into the request's buffer, behind what is there already. */
    method ReadInto(ghost request: DriverData, buffer: bytes, done: nat) returns (n: int, filled: bytes)
      requires |request.buffer| == |buffer| && done <= |buffer| && position == request.offset + done
      requires buffer == Filled(file, request.offset, request.buffer, done)
      modifies this`plan, this`position
      ensures plan == Later(old(plan)) && n == Answer(old(plan), Min(|buffer| - done, Room(file, old(position))))
      ensures filled == Filled(file, request.offset, request.buffer, if n < 0 then done else done + n)
      ensures position == old(position) + if n < 0 then 0 else n
    {
      hide ReadBack, Filled;
      var chunk;
      n, chunk := SysRead(|buffer| - done);
      filled := buffer;
      if n >= 0 {
        FillStep(file, request.offset, request.buffer, done, n);
        filled := buffer[..done] + chunk + buffer[done + n..];
      }
    }

    /** Storage::read: fills the front of the request's buffer and leaves the rest as it was. */
    method Read(request: DriverData) returns (r: Result<DriverData>)
      requires |request.buffer| == request.len <= INT_MAX
      modifies this`plan, this`position
      ensures var (n, failed) := Moves(old(plan), request.len, Room(file, request.offset));
              r == if failed || request.offset > LONG_MAX then Err(IoFailure)
                   else Ok(request.(buffer := Filled(file, request.offset, request.buffer, n)))
      ensures r == Err(IoFailure)
         <==> request.offset > LONG_MAX || Fails(old(plan), request.len, Room(file, request.offset))
      ensures r.Ok? ==>
                && r.value == request.(buffer := r.value.buffer) && |r.value.buffer| == request.len
                && forall i :: 0 <= i < request.len ==>
                     r.value.buffer[i] == if i < Moves(old(plan), request.len, Room(file, request.offset)).0
                                          then At(file, request.offset + i) else request.buffer[i]
    {
      hide *;
      NothingYet(plan, file, request);
      ghost var total := Moves(plan, request.len, Room(file, request.offset));
      var ok := Lseek(request.offset);
      if !ok {
        return Err(IoFailure);
      }
      var left, done, buffer := request.len, 0, request.buffer;
      var bytesRead, goOn := 0, true;
      while goOn
        invariant 0 <= done && 0 <= left && done + left == request.len && position == request.offset + done
        invariant |buffer| == request.len && buffer == Filled(file, request.offset, request.buffer, done)
        invariant goOn ==> total == Continued(done, Moves(plan, left, Room(file, position)))
        invariant !goOn ==> if bytesRead < 0 then total.1 else total == (done, false)
        decreases left, goOn
      {
        ReadOnce(plan, file, position, left, done);
        bytesRead, buffer := ReadInto(request, buffer, done);
        if bytesRead >= 0 {
          left, done := left - bytesRead, done + bytesRead;
        }
        goOn := bytesRead > 0 && left > 0;
      }
      if bytesRead < 0 {
        return Err(IoFailure);
      }
      FilledEverywhere(file, request.offset, request.buffer, done);
      return Ok(request.(buffer := buffer));
    }

    /** Storage::write. A call that writes nothing ends the loop without an error. */
    method Write(request: DriverData) returns (r: Result<DriverData>)
      requires |request.buffer| == request.len <= INT_MAX
      modifies this`plan, this`position, this`file
      ensures var (n, failed) := Moves(old(plan), request.len, request.len);
              if request.offset > LONG_MAX then r == Err(IoFailure) && file == old(file)
              else
                && file == Overlay(old(file), request.offset, request.buffer[..n])
                && r == if failed then Err(IoFailure) else Ok(request)
      ensures r == Err(IoFailure) <==> request.offset > LONG_MAX || Fails(old(plan), request.len, request.len)
      ensures request.offset <= LONG_MAX ==>
                KeepsWhatMoved(old(plan), old(file), file, request.offset, request.buffer)
    {
      hide *;
      NothingWritten(plan, file, request);
      ghost var total := Moves(plan, request.len, request.len);
      var ok := Lseek(request.offset);
      if !ok {
        return Err(IoFailure);
      }
      var left, done := request.len, 0;
      var bytesWritten, goOn := 0, true;
      while goOn
        invariant 0 <= done && 0 <= left && done + left == request.len && position == request.offset + done
        invariant file == Overlay(old(file), request.offset, request.buffer[..done])
        invariant goOn ==> total == Continued(done, Moves(plan, left, left))
        invariant !goOn ==> total == (done, bytesWritten < 0)
        decreases left, goOn
      {
        var data := request.buffer[done..];
        WriteOnce(plan, left, done);
        bytesWritten := SysWrite(data);
        if bytesWritten >= 0 {
          OverlayJoin(old(file), request.offset, request.buffer[..done], data[..bytesWritten]);
          assert request.buffer[..done] + data[..bytesWritten] == request.buffer[..done + bytesWritten];
          left, done := left - bytesWritten, done + bytesWritten;
        }
        goOn := bytesWritten > 0 && left > 0;
      }
      MovedIsKept(old(plan), old(file), request.offset, request.buffer);
      if bytesWritten < 0 {
        return Err(IoFailure);
      }
      return Ok(request);
    }
  }
}
