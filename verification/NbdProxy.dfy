/** The NBD side of the master: a byte stream of requests in, a byte stream of replies out, and
    the map between NBD handles and request ids. Framing and field order follow the NBD protocol
    document, Transmission phase, "Request message" and "Simple reply message". */
module NbdProxy {
  import opened Base
  import opened Data
  import opened Storage

  const REQUEST_MAGIC := 0x25609513
  const REPLY_MAGIC := 0x67446698
  const HANDLE_SIZE := 8
  const REQUEST_SIZE := 28
  const REPLY_SIZE := 16

  // ----------------------------------------------------------------- numbers

  function Power256(k: nat): (p: nat)
    ensures p > 0
  {
    if k == 0 then 1 else 256 * Power256(k - 1)
  }

  /** Network byte order: k bytes, most significant first. */
  function BigEndian(n: nat, k: nat): (s: bytes)
    ensures |s| == k
  {
    if k == 0 then [] else BigEndian(n / 256, k - 1) + [n % 256]
  }

  function FromBigEndian(s: bytes): nat {
    if s == [] then 0 else 256 * FromBigEndian(s[..|s| - 1]) + s[|s| - 1]
  }

  /** How the little-endian host loads a field of a received struct. */
  function Load(s: bytes): nat {
    if s == [] then 0 else 256 * Load(s[1..]) + s[0]
  }

  /** ntohl: the four bytes of a 32-bit number, swapped. */
  function Ntohl(a: nat): nat {
    a % 256 * 0x100_0000 + a / 256 % 256 * 0x1_0000 + a / 0x1_0000 % 256 * 256 + a / 0x100_0000 % 256
  }

  /** DriverProxyNBD::ntohll: swap both halves and exchange them. */
  function Ntohll(a: nat): nat {
    var lo, hi := a % TWO_32, a / TWO_32;
    Ntohl(lo) * TWO_32 + Ntohl(hi)
  }

  lemma {:induction false} BigEndianRoundTrip(n: nat, k: nat)
    requires n < Power256(k)
    ensures FromBigEndian(BigEndian(n, k)) == n
  {
    if k > 0 {
      BigEndianRoundTrip(n / 256, k - 1);
      var s := BigEndian(n, k);
      assert s[..|s| - 1] == BigEndian(n / 256, k - 1);
    }
  }

  lemma {:induction false} FromBigEndianJoin(a: bytes, b: bytes)
    ensures FromBigEndian(a + b) == FromBigEndian(a) * Power256(|b|) + FromBigEndian(b)
  {
    if b == [] {
      assert a + b == a;
    } else {
      var front := b[..|b| - 1];
      FromBigEndianJoin(a, front);
      assert (a + b)[..|a + b| - 1] == a + front;
      assert 256 * (FromBigEndian(a) * Power256(|front|)) == FromBigEndian(a) * Power256(|b|);
    }
  }

  lemma {:induction false} LoadJoin(a: bytes, b: bytes)
    ensures Load(a + b) == Load(a) + Power256(|a|) * Load(b)
  {
    if a == [] {
      assert a + b == b;
    } else {
      var rest := a[1..];
      LoadJoin(rest, b);
      assert (a + b)[1..] == rest + b;
      assert 256 * (Power256(|rest|) * Load(b)) == Power256(|a|) * Load(b);
    }
  }

  lemma Powers()
    ensures Power256(2) == 0x1_0000 && Power256(4) == TWO_32 && Power256(8) == TWO_64
    ensures 2 * (INT_MAX + 1) == Power256(4) == -2 * INT_MIN && 2 * (LONG_MAX + 1) == Power256(8) == -2 * LONG_MIN
  {
    assert Power256(2) == 256 * (256 * Power256(0));
    assert Power256(4) == 256 * (256 * Power256(2));
    assert Power256(8) == 256 * (256 * (256 * (256 * Power256(4))));
  }

  function Number(b0: int, b1: int, b2: int, b3: int): int {
    0x100_0000 * b0 + 0x1_0000 * b1 + 0x100 * b2 + b3
  }

  lemma FourBytes(s: bytes)
    requires |s| == 4
    ensures FromBigEndian(s) == Number(s[0], s[1], s[2], s[3])
    ensures Load(s) == Number(s[3], s[2], s[1], s[0])
  {
    assert s[..3][..2] == s[..2] && s[..2][..1] == s[..1] && s[..1][..0] == [];
    assert s[1..][1..] == s[2..] && s[2..][1..] == s[3..] && s[3..][1..] == [];
    assert FromBigEndian(s[..1]) == s[0] && FromBigEndian(s[..2]) == 256 * FromBigEndian(s[..1]) + s[1];
    assert FromBigEndian(s[..3]) == 256 * FromBigEndian(s[..2]) + s[2];
    assert Load(s[2..]) == 256 * Load(s[3..]) + s[2] && Load(s[3..]) == s[3];
  }

  lemma LowByte(high: int, low: byte)
    ensures (0x100 * high + low) / 0x100 == high && (0x100 * high + low) % 0x100 == low
  {
  }

  lemma SwapBytes(b0: byte, b1: byte, b2: byte, b3: byte)
    ensures Ntohl(Number(b3, b2, b1, b0)) == Number(b0, b1, b2, b3) && Number(b3, b2, b1, b0) < TWO_32
  {
    var a := Number(b3, b2, b1, b0);
    var high2 := 0x100 * b3 + 0x1 * b2;
    var high1 := 0x100 * high2 + b1;
    assert a == 0x100 * high1 + b0;
    LowByte(high1, b0);
    LowByte(high2, b1);
    LowByte(b3, b2);
    assert a / 0x1_0000 == high2 && a / 0x100_0000 == b3;
  }

  /** ntohl of a loaded field is the number that was sent. */
  lemma NtohlReads(s: bytes)
    requires |s| == 4
    ensures Ntohl(Load(s)) == FromBigEndian(s) && Load(s) < TWO_32
  {
    hide Ntohl, Number, Load, FromBigEndian;
    FourBytes(s);
    SwapBytes(s[0], s[1], s[2], s[3]);
  }

  /** The 64-bit offset arrives as it was sent. */
  lemma NtohllReads(s: bytes)
    requires |s| == 8
    ensures Ntohll(Load(s)) == FromBigEndian(s)
  {
    hide Ntohl, Load, FromBigEndian;
    Powers();
    var first, second := s[..4], s[4..];
    assert s == first + second;
    LoadJoin(first, second);
    FromBigEndianJoin(first, second);
    NtohlReads(first);
    NtohlReads(second);
  }

  // ---------------------------------------------------------------- requests

  datatype NbdRequest = NbdRequest(flags: nat, kind: nat, handle: bytes, from: nat, len: nat, data: bytes)

  /** Fields inside their widths, and a payload exactly behind a WRITE. */
  predicate WellFormed(r: NbdRequest) {
    && r.flags < 0x1_0000 && r.kind < 0x1_0000 && |r.handle| == HANDLE_SIZE
    && r.from < TWO_64 && r.len < TWO_32 && |r.data| == if r.kind == WRITE then r.len else 0
  }

  /** The request as the protocol document lays it out. */
  function Encode(r: NbdRequest): (s: bytes)
    ensures |s| == REQUEST_SIZE - HANDLE_SIZE + |r.handle| + |r.data|
  {
    BigEndian(REQUEST_MAGIC, 4) + BigEndian(r.flags, 2) + BigEndian(r.kind, 2) + r.handle
      + BigEndian(r.from, 8) + BigEndian(r.len, 4) + r.data
  }

  /** struct nbd_request, as read_from_sock fills it: type and len are in the first and last
      four bytes that are looked at; the magic number is not. */
  datatype Header = Header(kind: nat, handle: bytes, offset: nat, len: nat)

  function HeaderOf(h: bytes): Header
    requires |h| == REQUEST_SIZE
  {
    Header(Ntohl(Load(h[4..8])), h[8..16], Ntohll(Load(h[16..24])), Ntohl(Load(h[24..28])))
  }

  /** DriverData::check_type */
  function CheckType(kind: nat): Result<nat> {
    if kind <= TRIM then Ok(kind) else Err(UnknownType)
  }

  /** What one call leaves: its outcome, the handle it stored, and the stream behind it. */
  datatype Received = Received(outcome: Result<DriverData>, stored: Option<bytes>, rest: bytes)

  /** One receive_from_driver on a stream, were the stream to arrive in one piece. */
  function Receive(s: bytes, id: int): Received {
    if |s| < REQUEST_SIZE then Received(Err(EndOfStream), None, [])
    else
      var h, body := HeaderOf(s[..REQUEST_SIZE]), s[REQUEST_SIZE..];
      if CheckType(h.kind).Err? then Received(Err(UnknownType), None, body)
      else if h.kind != WRITE then
        Received(Ok(DriverData(h.offset, h.len, id, h.kind, Zeros(h.len))), Some(h.handle), body)
      else if |body| < h.len then Received(Err(EndOfStream), Some(h.handle), [])
      else Received(Ok(DriverData(h.offset, h.len, id, h.kind, body[..h.len])), Some(h.handle), body[h.len..])
  }

  lemma FieldReads(h: bytes, k: nat)
    requires k + 4 <= |h|
    ensures Ntohl(Load(h[k..k + 4])) == Number(h[k], h[k + 1], h[k + 2], h[k + 3])
  {
    hide Ntohl, Number, Load, FromBigEndian;
    NtohlReads(h[k..k + 4]);
    FourBytes(h[k..k + 4]);
  }

  lemma OffsetReads(h: bytes)
    requires |h| == 8
    ensures Ntohll(Load(h)) == TWO_32 * Number(h[0], h[1], h[2], h[3]) + Number(h[4], h[5], h[6], h[7])
  {
    hide Ntohl, Number, Load, FromBigEndian;
    Powers();
    assert h == h[..4] + h[4..];
    NtohllReads(h);
    FromBigEndianJoin(h[..4], h[4..]);
    FourBytes(h[..4]);
    FourBytes(h[4..]);
  }

  /** The header that starts the stream, byte by byte. */
  lemma HeaderBytes(h: bytes)
    requires |h| == REQUEST_SIZE
    ensures HeaderOf(h).kind == Number(h[4], h[5], h[6], h[7]) && HeaderOf(h).handle == h[8..16]
    ensures HeaderOf(h).offset == 0x1_0000_0000 * Number(h[16], h[17], h[18], h[19])
                                    + Number(h[20], h[21], h[22], h[23])
    ensures HeaderOf(h).len == Number(h[24], h[25], h[26], h[27])
  {
    hide Ntohl, Ntohll, Load;
    FieldReads(h, 4);
    OffsetReads(h[16..24]);
    FieldReads(h, 24);
  }

  /** What the bytes on the stream make of one call: types 0, 2, 3 and 4 stand alone, type 1 takes
      its data with it, no other is known; a stream that ends within the header or the data is
      its end, and a handle is kept exactly when a whole header of a known type came. */
  lemma ReceiveByBytes(s: bytes, id: int)
    ensures |s| < 28 ==> Receive(s, id) == Received(Err(EndOfStream), None, [])
    ensures |s| >= 28 ==>
              var h, known := HeaderOf(s[..28]), s[4..7] == [0, 0, 0] && s[7] <= 4;
              Receive(s, id)
                == if !known then Received(Err(UnknownType), None, s[28..])
                   else if s[7] != 1 then
                     Received(Ok(DriverData(h.offset, h.len, id, s[7], Zeros(h.len))), Some(s[8..16]), s[28..])
                   else if |s| < 28 + h.len then Received(Err(EndOfStream), Some(s[8..16]), [])
                   else
                     Received(Ok(DriverData(h.offset, h.len, id, 1, s[28..28 + h.len])), Some(s[8..16]),
                              s[28 + h.len..])
  {
    hide HeaderOf;
    if |s| >= 28 {
      var h := s[..28];
      HeaderBytes(h);
      KnownType(s);
      var body, n := s[28..], HeaderOf(h).len;
      assert h[8..16] == s[8..16];
      if n <= |body| {
        assert body[..n] == s[28..28 + n] && body[n..] == s[28 + n..];
      }
    }
  }

  lemma KnownType(s: bytes)
    requires |s| >= 8
    ensures Number(s[4], s[5], s[6], s[7]) <= TRIM <==> s[4..7] == [0, 0, 0] && s[7] <= 4
    ensures Number(s[4], s[5], s[6], s[7]) <= TRIM ==> Number(s[4], s[5], s[6], s[7]) == s[7]
  {
    assert s[4..7] == [s[4], s[5], s[6]];
  }

  /** The record the rest of the master works with. */
  function Record(r: NbdRequest, id: int): DriverData {
    DriverData(r.from, r.len, id, r.kind, if r.kind == WRITE then r.data else Zeros(r.len))
  }

  /** A request as bytes: the magic number first, then each field in its place. */
  lemma EncodeLayout(r: NbdRequest)
    requires WellFormed(r)
    ensures var s := Encode(r);
            && s[..4] == [0x25, 0x60, 0x95, 0x13] && s[8..16] == r.handle && s[28..] == r.data
            && s[4] == r.flags / 0x100 && s[5] == r.flags % 0x100 && s[6] == r.kind / 0x100 && s[7] == r.kind % 0x100
            && FromBigEndian(s[16..24]) == r.from && FromBigEndian(s[24..28]) == r.len
  {
    hide BigEndian, FromBigEndian, Power256;
    Powers();
    BigEndianRoundTrip(r.from, 8);
    BigEndianRoundTrip(r.len, 4);
    Magic(REQUEST_MAGIC);
    TwoBytes(r.flags);
    TwoBytes(r.kind);
    var s := Encode(r);
    assert s[..4] == BigEndian(REQUEST_MAGIC, 4) && s[4..6] == BigEndian(r.flags, 2);
    assert s[6..8] == BigEndian(r.kind, 2) && s[4] == s[4..6][0] && s[5] == s[4..6][1];
    assert s[6] == s[6..8][0] && s[7] == s[6..8][1];
    assert s[16..24] == BigEndian(r.from, 8) && s[24..28] == BigEndian(r.len, 4);
  }

  lemma Magic(n: nat)
    ensures BigEndian(n, 4) == [n / 0x100_0000 % 256, n / 0x1_0000 % 256, n / 256 % 256, n % 256]
  {
    assert BigEndian(n / 256, 3) == BigEndian(n / 0x1_0000, 2) + [n / 256 % 256];
    TwoBytesOf(n / 0x1_0000);
  }

  lemma TwoBytesOf(n: nat)
    ensures BigEndian(n, 2) == [n / 256 % 256, n % 256]
  {
    assert BigEndian(n / 256, 1) == BigEndian(n / 256 / 256, 0) + [n / 256 % 256];
  }

  lemma TwoBytes(n: nat)
    requires n < 0x1_0000
    ensures BigEndian(n, 2) == [n / 0x100, n % 0x100]
  {
    TwoBytesOf(n);
  }

  lemma TypeField(flags: nat, kind: nat)
    requires flags < 0x1_0000 && kind < 0x1_0000
    ensures Ntohl(Load(BigEndian(flags, 2) + BigEndian(kind, 2))) == flags * 0x1_0000 + kind
  {
    hide Ntohl, Load;
    Powers();
    NtohlReads(BigEndian(flags, 2) + BigEndian(kind, 2));
    FromBigEndianJoin(BigEndian(flags, 2), BigEndian(kind, 2));
    BigEndianRoundTrip(flags, 2);
    BigEndianRoundTrip(kind, 2);
  }

  lemma HeaderRoundTrip(r: NbdRequest, tail: bytes)
    requires WellFormed(r)
    ensures var s := Encode(r) + tail;
            && HeaderOf(s[..REQUEST_SIZE]) == Header(r.flags * 0x1_0000 + r.kind, r.handle, r.from, r.len)
            && s[REQUEST_SIZE..] == r.data + tail
  {
    hide Ntohl, Ntohll, Load, BigEndian, FromBigEndian;
    Powers();
    var s := Encode(r) + tail;
    var h := s[..REQUEST_SIZE];
    assert h[4..8] == BigEndian(r.flags, 2) + BigEndian(r.kind, 2);
    assert h[8..16] == r.handle && h[16..24] == BigEndian(r.from, 8) && h[24..28] == BigEndian(r.len, 4);
    TypeField(r.flags, r.kind);
    NtohllReads(h[16..24]);
    BigEndianRoundTrip(r.from, 8);
    NtohlReads(h[24..28]);
    BigEndianRoundTrip(r.len, 4);
  }

  /** One well-formed request at the front of the stream: it is taken whole, and nothing behind it,
      if and only if its command is known and it carries no command flag; otherwise only its header
      is consumed and no handle is stored. */
  lemma TakesExactlyOne(r: NbdRequest, tail: bytes, id: int)
    requires WellFormed(r)
    ensures Receive(Encode(r) + tail, id)
         == if r.kind <= TRIM && r.flags == 0 then Received(Ok(Record(r, id)), Some(r.handle), tail)
            else Received(Err(UnknownType), None, r.data + tail)
  {
    hide HeaderOf, Encode;
    HeaderRoundTrip(r, tail);
    assert |Encode(r) + tail| >= REQUEST_SIZE;
    assert r.kind == WRITE ==> (r.data + tail)[..r.len] == r.data && (r.data + tail)[r.len..] == tail;
    assert r.kind != WRITE ==> r.data + tail == tail;
  }

  /** Repeated receive_from_driver, counting ids from `id`: what the calls return, and the rest. */
  function ReceiveMany(s: bytes, id: int, calls: nat): (seq<Result<DriverData>>, bytes)
    decreases calls
  {
    if calls == 0 then ([], s)
    else
      var first := Receive(s, id + 1);
      var (later, rest) := ReceiveMany(first.rest, if first.stored.Some? then id + 1 else id, calls - 1);
      ([first.outcome] + later, rest)
  }

  /** What the first calls returned, before what the later ones do. */
  function Behind(rs: seq<Result<DriverData>>, later: (seq<Result<DriverData>>, bytes))
      : (seq<Result<DriverData>>, bytes)
  {
    (rs + later.0, later.1)
  }

  lemma BehindNothing(later: (seq<Result<DriverData>>, bytes))
    ensures Behind([], later) == later
  {
    assert [] + later.0 == later.0;
  }

  lemma BehindNothingMore(rs: seq<Result<DriverData>>, rest: bytes)
    ensures Behind(rs, ([], rest)) == (rs, rest)
  {
    assert rs + [] == rs;
  }

  lemma BehindMore(rs: seq<Result<DriverData>>, r: Result<DriverData>, later: (seq<Result<DriverData>>, bytes))
    ensures Behind(rs, Behind([r], later)) == Behind(rs + [r], later)
  {
    assert rs + ([r] + later.0) == rs + [r] + later.0;
  }

  lemma ReceiveNext(s: bytes, id: int, calls: nat)
    requires calls > 0
    ensures var first := Receive(s, id + 1);
            ReceiveMany(s, id, calls)
              == Behind([first.outcome],
                        ReceiveMany(first.rest, if first.stored.Some? then id + 1 else id, calls - 1))
  {
    hide Receive;
  }

  function EncodeAll(rs: seq<NbdRequest>): bytes {
    if rs == [] then [] else Encode(rs[0]) + EncodeAll(rs[1..])
  }

  function Records(rs: seq<NbdRequest>, id: int): (s: seq<Result<DriverData>>)
    ensures |s| == |rs| && forall k :: 0 <= k < |rs| ==> s[k] == Ok(Record(rs[k], id + 1 + k))
  {
    if rs == [] then [] else [Ok(Record(rs[0], id + 1))] + Records(rs[1..], id + 1)
  }

  /** Well-formed requests of a known command without command flags. */
  predicate Plain(rs: seq<NbdRequest>) {
    forall k :: 0 <= k < |rs| ==> WellFormed(rs[k]) && rs[k].kind <= TRIM && rs[k].flags == 0
  }

  lemma FirstOfStream(rs: seq<NbdRequest>, tail: bytes, id: int)
    requires rs != [] && Plain(rs)
    ensures WellFormed(rs[0]) && rs[0].kind <= TRIM && rs[0].flags == 0 && Plain(rs[1..])
    ensures EncodeAll(rs) + tail == Encode(rs[0]) + (EncodeAll(rs[1..]) + tail)
    ensures (Records(rs, id), tail) == Behind([Ok(Record(rs[0], id + 1))], (Records(rs[1..], id + 1), tail))
  {
    hide WellFormed, Encode, Record;
  }

  /** Requests laid end to end come back as exactly that list, in order, under consecutive ids, and
      what follows them on the stream is left alone. */
  lemma {:induction false} StreamRoundTrip(rs: seq<NbdRequest>, tail: bytes, id: int)
    requires Plain(rs)
    ensures ReceiveMany(EncodeAll(rs) + tail, id, |rs|) == (Records(rs, id), tail)
  {
    hide *;
    if rs == [] {
      EmptyStream(tail, id);
    } else {
      var rest := EncodeAll(rs[1..]) + tail;
      FirstOfStream(rs, tail, id);
      StreamRoundTrip(rs[1..], tail, id + 1);
      TakesExactlyOne(rs[0], rest, id + 1);
      ReceiveNext(Encode(rs[0]) + rest, id, |rs|);
    }
  }

  lemma EmptyStream(tail: bytes, id: int)
    ensures ReceiveMany(EncodeAll([]) + tail, id, 0) == (Records([], id), tail)
  {
    assert EncodeAll([]) + tail == tail;
  }

  lemma ReceiveNothing(s: bytes, id: int)
    ensures ReceiveMany(s, id, 0) == ([], s)
  {
  }

  // ----------------------------------------------------------------- replies

  /** The bytes behind a reply: get_len() of them, for a READ. */
  function Payload(d: DriverData): (s: bytes)
    ensures |s| <= d.len
  {
    if d.kind == READ then d.buffer[..Min(d.len, |d.buffer|)] else []
  }

  /** struct nbd_reply and, behind a READ, its data. */
  function ReplyBytes(handle: bytes, d: DriverData): bytes {
    BigEndian(REPLY_MAGIC, 4) + BigEndian(0, 4) + handle + Payload(d)
  }

  /** A reply as bytes: magic number, no error, the handle, and for a READ what was read. */
  lemma ReplyLayout(handle: bytes, d: DriverData)
    requires d.kind == READ ==> d.len <= |d.buffer|
    ensures ReplyBytes(handle, d)
         == [0x67, 0x44, 0x66, 0x98, 0, 0, 0, 0] + handle + if d.kind == READ then d.buffer[..d.len] else []
  {
    hide BigEndian;
    Magic(REPLY_MAGIC);
    Magic(0);
  }

  // ---------------------------------------------------------------- the proxy

  /** No call fails; one that moves nothing is allowed. */
  predicate NeverFails(plan: seq<int>) {
    forall k :: 0 <= k < |plan| ==> plan[k] >= 0
  }

  class DriverProxyNBD {
    var idCounter: int
    var handles: map<int, bytes>
    var input: bytes           // what the socket will still deliver before it ends
    var output: bytes          // what was written to the socket
    var readPlan: seq<int>     // how the kernel will cut the next reads
    var writePlan: seq<int>    // how the kernel will cut the next writes

    /** Ids are handed out in ascending order; a read returns nothing only where the stream ends. */
    ghost predicate Valid()
      reads this
    {
      && (forall id :: id in handles ==> id <= idCounter && |handles[id]| == HANDLE_SIZE)
      && NeverStalls(readPlan) && NeverFails(writePlan)
    }

    constructor (input: bytes, readPlan: seq<int>, writePlan: seq<int>)
      requires NeverStalls(readPlan) && NeverFails(writePlan)
      ensures Valid() && idCounter == 0 && handles == map[] && output == []
      ensures this.input == input && this.readPlan == readPlan && this.writePlan == writePlan
    {
      idCounter, handles, output := 0, map[], [];
      this.input, this.readPlan, this.writePlan := input, readPlan, writePlan;
    }

    /** read(2) on the socket. */
    method SysRead(count: nat) returns (chunk: bytes)
      requires Valid()
      modifies this`input, this`readPlan
      ensures Valid() && chunk + input == old(input) && |chunk| <= count
      ensures chunk == [] ==> count == 0 || old(input) == []
    {
      var most := Min(count, |input|);
      var n := Answer(readPlan, most);
      readPlan := Later(readPlan);
      chunk, input := input[..n], input[n..];
    }

    /** read_from_sock: all the bytes asked for, however they arrive, or the end of the stream. */
    method ReadFromSock(count: nat) returns (r: Result<bytes>)
      requires Valid()
      modifies this`input, this`readPlan
      ensures Valid()
      ensures r == if count <= |old(input)| then Ok(old(input)[..count]) else Err(EndOfStream)
      ensures input == if count <= |old(input)| then old(input)[count..] else []
    {
      var buffer, left := [], count;
      var chunk := SysRead(left);
      while chunk != []
        invariant Valid() && 0 <= left && |chunk| <= left
        invariant buffer + chunk + input == old(input) && |buffer| + left == count
        invariant chunk == [] ==> left == 0 || input == []
        decreases left
      {
        buffer, left := buffer + chunk, left - |chunk|;
        chunk := SysRead(left);
      }
      if left != 0 {
        return Err(EndOfStream);
      }
      assert old(input)[..count] == buffer;
      return Ok(buffer);
    }

    /** convert_handle_to_id. Counting past INT_MAX is undefined in the source. */
    method ConvertHandleToId(handle: bytes) returns (id: int)
      requires Valid() && |handle| == HANDLE_SIZE && idCounter < INT_MAX
      modifies this`idCounter, this`handles
      ensures Valid() && id == idCounter == old(idCounter) + 1 && id !in old(handles)
      ensures handles == old(handles)[id := handle]
    {
      idCounter := idCounter + 1;
      if idCounter !in handles {
        handles := handles[idCounter := handle];
      }
      return idCounter;
    }

    /** convert_id_to_handle: an id that is not there yields nothing usable. */
    method ConvertIdToHandle(id: int) returns (handle: Option<bytes>)
      requires Valid()
      modifies this`handles
      ensures Valid() && handles == old(handles) - {id}
      ensures handle == if id in old(handles) then Some(old(handles)[id]) else None
    {
      handle := if id in handles then Some(handles[id]) else None;
      handles := handles - {id};
    }

    /** receive_from_driver: the same outcome and the same rest of the stream for every way the
        bytes can arrive. */
    method ReceiveFromDriver() returns (r: Result<DriverData>)
      requires Valid() && idCounter < INT_MAX
      modifies this`idCounter, this`handles, this`input, this`readPlan
      ensures Valid()
      ensures var all := Receive(old(input), old(idCounter) + 1);
              && r == all.outcome && input == all.rest
              && idCounter == old(idCounter) + (if all.stored.Some? then 1 else 0)
              && handles == if all.stored.Some? then old(handles)[idCounter := all.stored.value] else old(handles)
      ensures r.Ok? ==> |old(input)| >= 28 && old(input)[4..8] == [0, 0, 0, r.value.kind] && r.value.kind <= 4
                        && r.value.id == idCounter && handles == old(handles)[idCounter := old(input)[8..16]]
                        && input == old(input)[28 + (if r.value.kind == 1 then r.value.len else 0)..]
    {
      hide Ntohl, Ntohll, Load;
      ReceiveByBytes(input, idCounter + 1);
      var header := ReadFromSock(REQUEST_SIZE);
      if header.Err? {
        return Err(header.error);
      }
      var request := HeaderOf(header.value);
      var kind := CheckType(request.kind);
      if kind.Err? {
        return Err(kind.error);
      }
      var id := ConvertHandleToId(request.handle);
      var data := DriverData(request.offset, request.len, id, kind.value, Zeros(request.len));
      if data.kind == WRITE {
        var body := ReadFromSock(request.len);
        if body.Err? {
          return Err(body.error);
        }
        data := data.(buffer := body.value);
      }
      return Ok(data);
    }

    /** The calls of the event loop (RequestEngine::run). Whatever the read plan: requests laid end to
        end on the stream come back as exactly that list, and the rest of the stream is left. */
    method ReceiveRequests(calls: nat) returns (rs: seq<Result<DriverData>>)
      requires Valid() && idCounter + calls <= INT_MAX
      modifies this`idCounter, this`handles, this`input, this`readPlan
      ensures Valid() && (rs, input) == ReceiveMany(old(input), old(idCounter), calls)
      ensures forall list: seq<NbdRequest>, tail: bytes ::
                Plain(list) && |list| == calls && old(input) == EncodeAll(list) + tail ==>
                  rs == Records(list, old(idCounter)) && input == tail
    {
      hide Receive, ReceiveMany, Behind, Plain, EncodeAll, Records;
      rs := [];
      BehindNothing(ReceiveMany(input, idCounter, calls));
      for i := 0 to calls
        invariant Valid() && idCounter + (calls - i) <= INT_MAX
        invariant ReceiveMany(old(input), old(idCounter), calls) == Behind(rs, ReceiveMany(input, idCounter, calls - i))
      {
        ReceiveNext(input, idCounter, calls - i);
        var r := ReceiveFromDriver();
        BehindMore(rs, r, ReceiveMany(input, idCounter, calls - i - 1));
        rs := rs + [r];
      }
      ReceiveNothing(input, idCounter);
      BehindNothingMore(rs, input);
      forall list: seq<NbdRequest>, tail: bytes
          | Plain(list) && |list| == calls && old(input) == EncodeAll(list) + tail
        ensures rs == Records(list, old(idCounter)) && input == tail
      {
        StreamRoundTrip(list, tail, old(idCounter));
      }
    }

    /** write(2) on the socket. */
    method SysWrite(data: bytes) returns (n: nat)
      requires Valid()
      modifies this`output, this`writePlan
      ensures Valid() && n <= |data| && output == old(output) + data[..n]
      ensures n == Answer(old(writePlan), |data|) && writePlan == Later(old(writePlan))
    {
      n := Answer(writePlan, |data|);
      writePlan := Later(writePlan);
      output := output + data[..n];
    }

    /** write_to_sock: everything in order, or a prefix and an error once a write moves nothing. */
    method WriteToSock(data: bytes) returns (r: Result<nat>)
      requires Valid()
      modifies this`output, this`writePlan
      ensures Valid() && old(output) <= output <= old(output) + data
      ensures r.Ok? <==> output == old(output) + data
      ensures NeverStalls(old(writePlan)) ==> r.Ok? && NeverStalls(writePlan)
    {
      var done := 0;
      var n := SysWrite(data);
      while n > 0
        invariant Valid() && 0 <= done <= done + n <= |data|
        invariant output == old(output) + data[..done + n]
        invariant NeverStalls(old(writePlan)) ==> NeverStalls(writePlan) && (n == 0 ==> done == |data|)
        decreases |data| - done
      {
        done := done + n;
        n := SysWrite(data[done..]);
        assert data[..done] + data[done..][..n] == data[..done + n];
      }
      r := if done == |data| then Ok(done) else Err(IoFailure);
    }

    /** send_to_driver. An id that is no longer mapped makes a stray reply: its handle bytes are
        whatever lies behind an empty string. */
    method SendToDriver(d: DriverData, beyond: bytes) returns (r: Result<nat>)
      requires Valid() && |beyond| == HANDLE_SIZE && (d.kind == READ ==> d.len <= |d.buffer|)
      modifies this`handles, this`output, this`writePlan
      ensures Valid() && handles == old(handles) - {d.id}
      ensures var reply := ReplyBytes(if d.id in old(handles) then old(handles)[d.id] else beyond, d);
              && old(output) <= output <= old(output) + reply
              && (r.Ok? <==> output == old(output) + reply)
      ensures r.Ok? ==> output == old(output) + [0x67, 0x44, 0x66, 0x98, 0, 0, 0, 0]
                                    + (if d.id in old(handles) then old(handles)[d.id] else beyond)
                                    + (if d.kind == READ then d.buffer[..d.len] else [])
      ensures NeverStalls(old(writePlan)) ==> r.Ok?
    {
      ReplyLayout(if d.id in handles then handles[d.id] else beyond, d);
      var handle := ConvertIdToHandle(d.id);
      var reply := BigEndian(REPLY_MAGIC, 4) + BigEndian(0, 4) + if handle.Some? then handle.value else beyond;
      r := WriteToSock(reply);
      if r.Ok? && d.kind == READ {
        assert old(output) + reply + d.buffer[..d.len] == old(output) + (reply + d.buffer[..d.len]);
        r := WriteToSock(d.buffer[..d.len]);
      }
    }
  }
}
