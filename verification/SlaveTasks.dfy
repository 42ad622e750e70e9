/** What a slave does with one parsed request: ReadTask and WriteTask over its storage. */
module SlaveTasks {
  import opened Base
  import opened Data
  import opened ByteArray
  import opened Storage

  /** The storage file after the task for d. */
  function Stored(file: bytes, d: DriverData): bytes {
    if d.kind == WRITE then Overlay(file, d.offset, d.buffer) else file
  }

  /** The reply the task hands to the printer: every read, but a write only on the primary half. */
  function Reply(file: bytes, d: DriverData, slaveSize: nat): Option<DriverData> {
    if d.kind == READ then Some(d.(buffer := ReadBack(file, d.offset, d.len)))
    else if d.kind == WRITE && d.offset < slaveSize then Some(d)
    else None
  }

  /** Past the end of the file nothing is read, so the zeros of the fresh buffer stay: together
      that is the file read as an unbounded array. */
  lemma ReadPastEnd(file: bytes, offset: nat, len: nat)
    ensures Filled(file, offset, Zeros(len), Min(len, Room(file, offset))) == ReadBack(file, offset, len)
  {
    var filled := Filled(file, offset, Zeros(len), Min(len, Room(file, offset)));
    forall i | 0 <= i < len
      ensures filled[i] == At(file, offset + i)
    {
    }
    assert filled == ReadBack(file, offset, len);
  }

  /** ReadTask::execute, up to the reply printer. */
  method ReadTask(storage: Storage, d: DriverData) returns (reply: Result<DriverData>)
    requires d.kind == READ && d.buffer == [] && d.len <= INT_MAX
    modifies storage`plan, storage`position
    ensures reply.Err? <==> d.offset > LONG_MAX || Fails(old(storage.plan), d.len, Room(storage.file, d.offset))
    ensures NeverStalls(old(storage.plan)) && d.offset <= LONG_MAX ==>
              reply.Ok? && Some(reply.value) == Reply(storage.file, d, storage.slaveSize)
  {
    var request := d.(buffer := Resize(d.buffer, d.len));
    assert request.buffer == Zeros(d.len);
    hide Fails;
    if NeverStalls(storage.plan) {
      MovesAll(storage.plan, d.len, Room(storage.file, d.offset));
      ReadPastEnd(storage.file, d.offset, d.len);
    }
    reply := storage.Read(request);
  }

  /** How many bytes of a write reach the file: none when the seek fails, and as many as the kernel
      moves before a call that moves nothing. */
  function Reached(plan: seq<int>, d: DriverData): (n: nat)
    ensures n <= |d.buffer|
  {
    if d.offset > LONG_MAX then 0 else Moves(plan, |d.buffer|, |d.buffer|).0
  }

  predicate Throws(plan: seq<int>, d: DriverData) {
    d.offset > LONG_MAX || Moves(plan, |d.buffer|, |d.buffer|).1
  }

  /** The file after the write, and what is sent for it. */
  function Written(plan: seq<int>, file: bytes, d: DriverData): bytes {
    Overlay(file, d.offset, d.buffer[..Reached(plan, d)])
  }

  function WriteReply(plan: seq<int>, file: bytes, d: DriverData, slaveSize: nat): Result<Option<DriverData>> {
    if Throws(plan, d) then Err(IoFailure) else Ok(Reply(file, d, slaveSize))
  }

  /** WriteTask::execute, up to the reply printer. */
  method WriteTask(storage: Storage, d: DriverData) returns (reply: Result<Option<DriverData>>)
    requires d.kind == WRITE && |d.buffer| == d.len <= INT_MAX
    modifies storage`plan, storage`position, storage`file
    ensures storage.file == Written(old(storage.plan), old(storage.file), d)
    ensures reply == WriteReply(old(storage.plan), old(storage.file), d, storage.slaveSize)
    ensures reply == if d.offset > LONG_MAX || Fails(old(storage.plan), d.len, d.len) then Err(IoFailure)
                     else if d.offset < storage.slaveSize then Ok(Some(d)) else Ok(None)
    ensures d.offset <= LONG_MAX ==>
              KeepsWhatMoved(old(storage.plan), old(storage.file), storage.file, d.offset, d.buffer)
    ensures NeverStalls(old(storage.plan)) && d.offset <= LONG_MAX ==>
              reply.Ok? && storage.file == Stored(old(storage.file), d)
  {
    hide Fails, KeepsWhatMoved;
    var offset := d.offset;
    if NeverStalls(storage.plan) {
      MovesAll(storage.plan, d.len, d.len);
      assert d.buffer[..d.len] == d.buffer;
    }
    var written := storage.Write(d);
    if written.Err? {
      return Err(written.error);
    }
    return Ok(if offset < storage.slaveSize then Some(written.value) else None);
  }

  /** A write call that moves nothing ends the loop early, and the slave acknowledges all the same.
      The acknowledged payload is in the file if and only if the file already held the bytes that
      did not reach it. */
  lemma AcknowledgedWriteIsWholeIff(plan: seq<int>, file: bytes, d: DriverData, slaveSize: nat)
    requires d.kind == WRITE && d.offset < slaveSize && !Throws(plan, d)
    ensures WriteReply(plan, file, d, slaveSize) == Ok(Some(d))
    ensures ReadBack(Written(plan, file, d), d.offset, |d.buffer|) == d.buffer
       <==> forall i :: Reached(plan, d) <= i < |d.buffer| ==> At(file, d.offset + i) == d.buffer[i]
  {
    var stored, n := ReadBack(Written(plan, file, d), d.offset, |d.buffer|), Reached(plan, d);
    forall i | 0 <= i < |d.buffer|
      ensures stored[i] == if i < n then d.buffer[i] else At(file, d.offset + i)
    {
      OverlayAt(file, d.offset, d.buffer[..n], d.offset + i);
    }
  }

  /** One call that moves nothing is enough: the write of a 1 is acknowledged and 0 is read back. */
  lemma StalledWriteIsLost()
    ensures var d := DriverData(0, 1, 1, WRITE, [1]);
            && WriteReply([0], [], d, 1) == Ok(Some(d))
            && ReadBack(Written([0], [], d), 0, 1) == [0]
  {
    var d := DriverData(0, 1, 1, WRITE, [1]);
    assert Moves([0], 1, 1) == (0, false) && d.buffer[..0] == [];
    assert At(Written([0], [], d), 0) == 0;
  }
}
