/** The two datagram formats between master and slaves. A request is printed by the master and
    parsed by a slave; a reply is printed by a slave and parsed by the master. Each header is a
    row of decimal fields closed by ';', then a NUL, then the payload, then zero padding up to
    the fixed message size. */
module Wire {
  import opened Base
  import opened Data
  import opened Decimal

  const SEMICOLON: byte := 59
  const NUL: byte := 0

  // ---------------------------------------------------------------- printing

  function Field(v: int): bytes {
    ToString(v) + [SEMICOLON]
  }

  /** The part of the header both directions share: length, id and type. */
  function TailHeader(d: DriverData): bytes {
    Field(d.len) + Field(d.id) + Field(d.kind) + [NUL]
  }

  function RequestHeader(d: DriverData): bytes {
    Field(d.offset) + TailHeader(d)
  }

  /** The bytes that travel behind the header: only a command of the given kind carries any. */
  function Carried(d: DriverData, carrier: int): bytes {
    if d.kind == carrier then d.buffer else []
  }

  /** Header and payload in a message of exactly size bytes; copying a payload past the end of
      the buffer is Overrun. */
  function Framed(header: bytes, payload: bytes, size: nat): Result<bytes> {
    if payload != [] && |header| + |payload| > size then Err(Overrun)
    else Ok(Resize(header + payload, size))
  }

  function RequestMessage(d: DriverData, size: nat): Result<bytes> {
    Framed(RequestHeader(d), Carried(d, WRITE), size)
  }

  function ReplyMessage(d: DriverData, size: nat): Result<bytes> {
    Framed(TailHeader(d), Carried(d, READ), size)
  }

  /** A message of exactly size bytes: the header, the payload behind it, then zeros. */
  ghost predicate Shaped(message: bytes, header: bytes, payload: bytes, size: nat) {
    && |message| == size
    && (forall i :: 0 <= i < size && i < |header| ==> message[i] == header[i])
    && (forall i :: |header| <= i < size && i - |header| < |payload| ==> message[i] == payload[i - |header|])
    && (forall i :: |header| + |payload| <= i < size ==> message[i] == 0)
  }

  /** The shape of every message, by the text of its header: type 1 takes its bytes to the slave,
      type 0 brings them back, and a message cannot be built exactly if there are such bytes and
      they do not fit. */
  lemma MessageShape(d: DriverData, size: nat)
    ensures var header := ToString(d.offset) + [59] + ToString(d.len) + [59] + ToString(d.id) + [59]
                            + ToString(d.kind) + [59, 0];
            var payload := if d.kind == 1 then d.buffer else [];
            && RequestMessage(d, size).Err? == (payload != [] && |header| + |payload| > size)
            && (RequestMessage(d, size).Ok? ==> Shaped(RequestMessage(d, size).value, header, payload, size))
    ensures var header := ToString(d.len) + [59] + ToString(d.id) + [59] + ToString(d.kind) + [59, 0];
            var payload := if d.kind == 0 then d.buffer else [];
            && ReplyMessage(d, size).Err? == (payload != [] && |header| + |payload| > size)
            && (ReplyMessage(d, size).Ok? ==> Shaped(ReplyMessage(d, size).value, header, payload, size))
  {
    hide ToString, Shaped;
    Frames(RequestHeader(d), Carried(d, WRITE), size);
    Frames(TailHeader(d), Carried(d, READ), size);
    assert RequestHeader(d) == ToString(d.offset) + [59] + ToString(d.len) + [59] + ToString(d.id) + [59]
                                 + ToString(d.kind) + [59, 0];
    assert TailHeader(d) == ToString(d.len) + [59] + ToString(d.id) + [59] + ToString(d.kind) + [59, 0];
  }

  lemma Frames(header: bytes, payload: bytes, size: nat)
    ensures Framed(header, payload, size).Err? <==> payload != [] && |header| + |payload| > size
    ensures Framed(header, payload, size).Ok? ==> Shaped(Framed(header, payload, size).value, header, payload, size)
  {
  }

  predicate RequestFits(d: DriverData, size: nat) {
    |RequestHeader(d)| + |Carried(d, WRITE)| <= size
  }

  predicate ReplyFits(d: DriverData, size: nat) {
    |TailHeader(d)| + |Carried(d, READ)| <= size
  }

  /** std::copy into a string that has already been resized to the message size. */
  method CopyInto(message: bytes, position: nat, payload: bytes) returns (r: Result<bytes>)
    ensures r == if payload == [] then Ok(message)
                 else if position + |payload| > |message| then Err(Overrun)
                 else Ok(message[..position] + payload + message[position + |payload|..])
  {
    var out := message;
    for i := 0 to |payload|
      invariant i > 0 ==> position + i <= |message|
      invariant out == if i == 0 then message else message[..position] + payload[..i] + message[position + i..]
    {
      if position + i >= |out| {
        return Err(Overrun);
      }
      out := out[position + i := payload[i]];
      assert payload[..i + 1] == payload[..i] + [payload[i]];
    }
    assert payload[..|payload|] == payload;
    return Ok(out);
  }

  lemma FrameByCopy(header: bytes, payload: bytes, size: nat)
    requires payload != [] && |header| + |payload| <= size
    ensures Resize(header + payload, size)
         == Resize(header, size)[..|header|] + payload + Resize(header, size)[|header| + |payload|..]
  {
  }

  /** SlavesManager::serialize_data. */
  method SerializeData(d: DriverData, messageSize: nat) returns (r: Result<bytes>)
    ensures r == RequestMessage(d, messageSize) && (r.Ok? ==> |r.value| == messageSize)
  {
    var buf: bytes := [];
    buf := buf + ToString(d.offset);
    buf := buf + [SEMICOLON];
    buf := buf + ToString(d.len);
    buf := buf + [SEMICOLON];
    buf := buf + ToString(d.id);
    buf := buf + [SEMICOLON];
    buf := buf + ToString(d.kind);
    buf := buf + [SEMICOLON];
    buf := buf + [NUL];
    var headerSize := |buf|;
    ghost var header := buf;
    assert header == RequestHeader(d);
    assert header + [] == header;
    buf := Resize(buf, messageSize);
    r := Ok(buf);
    if d.kind == WRITE {
      r := CopyInto(buf, headerSize, d.buffer);
      if d.buffer != [] && |header| + |d.buffer| <= messageSize {
        FrameByCopy(header, d.buffer, messageSize);
      }
    }
  }

  /** DriverProxySlave::send_to_driver, up to the socket. */
  method PrintReply(d: DriverData, messageSize: nat) returns (r: Result<bytes>)
    ensures r == ReplyMessage(d, messageSize) && (r.Ok? ==> |r.value| == messageSize)
  {
    var buf: bytes := [];
    buf := buf + ToString(d.len);
    buf := buf + [SEMICOLON];
    buf := buf + ToString(d.id);
    buf := buf + [SEMICOLON];
    buf := buf + ToString(d.kind);
    buf := buf + [SEMICOLON];
    buf := buf + [NUL];
    var headerSize := |buf|;
    ghost var header := buf;
    assert header == TailHeader(d);
    assert header + [] == header;
    buf := Resize(buf, messageSize);
    r := Ok(buf);
    if d.kind == READ {
      r := CopyInto(buf, headerSize, d.buffer);
      if d.buffer != [] && |header| + |d.buffer| <= messageSize {
        FrameByCopy(header, d.buffer, messageSize);
      }
    }
  }

  // ----------------------------------------------------------------- parsing

  /** Converts one field and steps over the character behind it; substr throws when that leads
      past the end. */
  function TakeField(s: bytes, low: int, high: int): Result<(int, bytes)> {
    var (value, used) :- StrToInt(s, low, high);
    if used + 1 > |s| then Err(OutOfRange) else Ok((value, s[used + 1..]))
  }

  /** The payload vector: length bytes, filled from what the message still holds. */
  function TakePayload(s: bytes, position: nat, length: int): Result<bytes> {
    if length < 0 then Err(LengthError)
    else if position > |s| then Err(OutOfRange)
    else Ok(Resize(s[position..], length))
  }

  /** Length, id, type and, for the carrying kind, the payload. */
  function ParseTail(s: bytes, offset: int, carrier: int): Result<DriverData> {
    var (length, afterLength) :- TakeField(s, INT_MIN, INT_MAX);
    var (id, afterId) :- TakeField(afterLength, INT_MIN, INT_MAX);
    ParseKind(afterId, offset, length, id, carrier)
  }

  function ParseKind(s: bytes, offset: int, length: int, id: int, carrier: int): Result<DriverData> {
    var (kind, used) :- StrToInt(s, INT_MIN, INT_MAX);
    if kind != carrier then Ok(DriverData(offset % TWO_64, length % TWO_32, id, kind, []))
    else
      var payload :- TakePayload(s, used + 2, length);
      Ok(DriverData(offset % TWO_64, length % TWO_32, id, kind, payload))
  }

  function ParseRequest(message: bytes): Result<DriverData> {
    var (offset, rest) :- TakeField(message, LONG_MIN, LONG_MAX);
    ParseTail(rest, offset, WRITE)
  }

  function ParseReply(message: bytes): Result<DriverData> {
    ParseTail(message, 0, READ)
  }

  /** SlavesManager::deserialize_data, with its moving position in the one string. */
  method DeserializeData(s: bytes) returns (r: Result<DriverData>)
    ensures r == ParseReply(s)
  {
    r := DeserializeFrom(s, 0, 0, READ);
    assert s[0..] == s;
  }

  /** The steps both parsers share, from strPos on; substr(strPos) is s[strPos..]. */
  method DeserializeFrom(s: bytes, start: nat, offset: int, carrier: int) returns (r: Result<DriverData>)
    requires start <= |s|
    ensures r == ParseTail(s[start..], offset, carrier)
  {
    hide StrToInt;
    var strPos := start;
    var length := StrToInt(s[strPos..], INT_MIN, INT_MAX);
    if length.Err? {
      return Err(length.error);
    }
    strPos := strPos + length.value.1 + 1;
    if strPos > |s| {
      return Err(OutOfRange);
    }
    assert s[strPos..] == s[start..][length.value.1 + 1..];
    var id := StrToInt(s[strPos..], INT_MIN, INT_MAX);
    if id.Err? {
      return Err(id.error);
    }
    ghost var afterLength := strPos;
    strPos := strPos + id.value.1 + 1;
    if strPos > |s| {
      return Err(OutOfRange);
    }
    assert s[strPos..] == s[afterLength..][id.value.1 + 1..];
    var kind := StrToInt(s[strPos..], INT_MIN, INT_MAX);
    if kind.Err? {
      return Err(kind.error);
    }
    ghost var afterId := strPos;
    strPos := strPos + kind.value.1 + 2;
    var data := DriverData(offset % TWO_64, length.value.0 % TWO_32, id.value.0, kind.value.0, []);
    if kind.value.0 == carrier {
      if length.value.0 < 0 {
        return Err(LengthError);
      }
      data := data.(buffer := Zeros(length.value.0));
      if strPos > |s| {
        return Err(OutOfRange);
      }
      var count := Min(length.value.0, |s| - strPos);
      data := data.(buffer := s[strPos..strPos + count] + data.buffer[count..]);
      assert s[strPos..] == s[afterId..][kind.value.1 + 2..];
      assert data.buffer == Resize(s[strPos..], length.value.0);
    }
    return Ok(data);
  }

  /** DriverProxySlave::receive_from_driver, behind the socket. */
  method ReceiveRequest(s: bytes) returns (r: Result<DriverData>)
    ensures r == ParseRequest(s)
  {
    hide StrToInt, ParseTail;
    var offset := StrToInt(s, LONG_MIN, LONG_MAX);
    if offset.Err? {
      return Err(offset.error);
    }
    var strPos := offset.value.1;
    strPos := strPos + 1;
    if strPos > |s| {
      return Err(OutOfRange);
    }
    r := DeserializeFrom(s, strPos, offset.value.0, WRITE);
  }

  // -------------------------------------------------------------- round trips

  lemma TakePrintedField(v: int, rest: bytes, low: int, high: int)
    ensures TakeField(Field(v) + rest, low, high) == if low <= v <= high then Ok((v, rest)) else Err(OutOfRange)
  {
    var behind := [SEMICOLON] + rest;
    RoundTrip(v, behind, low, high);
    assert Field(v) + rest == ToString(v) + behind;
  }

  /** What stands behind the printed id. */
  lemma KindPrinted(length: int, id: int, kind: int, body: bytes, offset: int, carrier: int)
    ensures ParseKind(ToString(kind) + [59, 0] + body, offset, length, id, carrier)
         == if !(INT_MIN <= kind <= INT_MAX) then Err(OutOfRange)
            else if kind != carrier then Ok(DriverData(offset % TWO_64, length % TWO_32, id, kind, []))
            else if length < 0 then Err(LengthError)
            else Ok(DriverData(offset % TWO_64, length % TWO_32, id, kind, Resize(body, length)))
  {
    hide StrToInt, ToString, Resize;
    var text := ToString(kind) + [59, 0];
    assert text + body == ToString(kind) + ([59, 0] + body);
    RoundTrip(kind, [59, 0] + body, INT_MIN, INT_MAX);
    assert (text + body)[|text|..] == body;
  }

  /** The parser on any three numbers in the printed form, whatever follows: each has to be an int;
      only the carrying kind has a payload, whose length cannot be negative and which is filled up
      with zeros where the message ends too early. */
  lemma ParsesPrinted(length: int, id: int, kind: int, body: bytes, offset: int, carrier: int)
    ensures ParseTail(ToString(length) + [59] + (ToString(id) + [59] + (ToString(kind) + [59, 0] + body)),
                      offset, carrier)
         == if !(INT_MIN <= length <= INT_MAX && INT_MIN <= id <= INT_MAX && INT_MIN <= kind <= INT_MAX)
            then Err(OutOfRange)
            else if kind != carrier then Ok(DriverData(offset % TWO_64, length % TWO_32, id, kind, []))
            else if length < 0 then Err(LengthError)
            else Ok(DriverData(offset % TWO_64, length, id, kind, Resize(body, length)))
  {
    hide StrToInt, ToString, ParseKind, Resize;
    var atKind := ToString(kind) + [59, 0] + body;
    TakePrintedField(length, ToString(id) + [59] + atKind, INT_MIN, INT_MAX);
    TakePrintedField(id, atKind, INT_MIN, INT_MAX);
    KindPrinted(length, id, kind, body, offset, carrier);
  }

  /** A message that ends within a field, or before the payload's place, is refused. */
  lemma CutShort(length: nat, id: nat, offset: int, carrier: nat)
    requires length <= INT_MAX && id <= INT_MAX && carrier <= INT_MAX
    ensures ParseTail([], offset, carrier) == Err(InvalidArgument)
    ensures ParseTail(ToString(length), offset, carrier) == Err(OutOfRange)
    ensures ParseTail(ToString(length) + [59], offset, carrier) == Err(InvalidArgument)
    ensures ParseTail(ToString(length) + [59] + ToString(id), offset, carrier) == Err(OutOfRange)
    ensures ParseKind([], offset, length, id, carrier) == Err(InvalidArgument)
    ensures ParseKind(ToString(carrier), offset, length, id, carrier) == Err(OutOfRange)
    ensures ParseKind(ToString(carrier) + [59], offset, length, id, carrier) == Err(OutOfRange)
  {
    hide ToString;
    assert StrToInt([], INT_MIN, INT_MAX) == Err(InvalidArgument) by { ReadsNothing([], [], [], INT_MIN, INT_MAX); }
    assert forall s: bytes {:trigger s + []} :: s + [] == s;
    RoundTrip(length, [], INT_MIN, INT_MAX);
    RoundTrip(id, [], INT_MIN, INT_MAX);
    RoundTrip(carrier, [], INT_MIN, INT_MAX);
    RoundTrip(carrier, [59], INT_MIN, INT_MAX);
    TakePrintedField(length, [], INT_MIN, INT_MAX);
    TakePrintedField(length, ToString(id), INT_MIN, INT_MAX);
    hide StrToInt;
    assert Field(length) + [] == ToString(length) + [59];
    assert Field(length) + ToString(id) == ToString(length) + [59] + ToString(id);
  }

  lemma TailRoundTrip(d: DriverData, padding: bytes, offset: nat, carrier: int)
    requires Typed(d) && offset < TWO_64
    requires d.kind == carrier ==> |d.buffer| == d.len
    ensures ParseTail(TailHeader(d) + Carried(d, carrier) + padding, offset, carrier)
         == if d.len <= INT_MAX then Ok(d.(offset := offset, buffer := Carried(d, carrier))) else Err(OutOfRange)
  {
    hide ToString, ParseTail;
    var body := Carried(d, carrier) + padding;
    ParsesPrinted(d.len, d.id, d.kind, body, offset, carrier);
    assert TailHeader(d) + Carried(d, carrier) + padding
        == ToString(d.len) + [59] + (ToString(d.id) + [59] + (ToString(d.kind) + [59, 0] + body));
    assert d.kind == carrier ==> Resize(body, d.len) == d.buffer;
  }

  /** Master to slave. A request whose message fits is recovered exactly, whatever bytes its
      payload holds, if and only if its offset fits a long and its length fits an int; otherwise
      the slave refuses the message. */
  lemma RequestRoundTrip(d: DriverData, size: nat)
    requires Typed(d) && (d.kind == WRITE ==> |d.buffer| == d.len)
    requires RequestFits(d, size)
    ensures RequestMessage(d, size).Ok?
    ensures ParseRequest(RequestMessage(d, size).value)
         == if d.offset <= LONG_MAX && d.len <= INT_MAX then Ok(d.(buffer := Carried(d, WRITE)))
            else Err(OutOfRange)
  {
    var payload := Carried(d, WRITE);
    var padding := Zeros(size - |RequestHeader(d)| - |payload|);
    var rest := TailHeader(d) + payload + padding;
    assert RequestMessage(d, size).value == Field(d.offset) + rest;
    TakePrintedField(d.offset, rest, LONG_MIN, LONG_MAX);
    TailRoundTrip(d, padding, d.offset, WRITE);
  }

  /** Slave to master: length, id, type and the bytes that were read. */
  lemma ReplyRoundTrip(d: DriverData, size: nat)
    requires Typed(d) && (d.kind == READ ==> |d.buffer| == d.len)
    requires ReplyFits(d, size)
    ensures ReplyMessage(d, size).Ok?
    ensures ParseReply(ReplyMessage(d, size).value)
         == if d.len <= INT_MAX then Ok(d.(offset := 0, buffer := Carried(d, READ))) else Err(OutOfRange)
  {
    var payload := Carried(d, READ);
    var padding := Zeros(size - |TailHeader(d)| - |payload|);
    assert ReplyMessage(d, size).value == TailHeader(d) + payload + padding;
    TailRoundTrip(d, padding, 0, READ);
  }

  /** A backup copy is built without the payload, so the slave that parses it finds zeros: it
      holds the data that was written if and only if that data was all zero. */
  lemma BackupCarriesOnlyZeros(d: DriverData, size: nat)
    requires Typed(d) && d.kind == WRITE && |d.buffer| == d.len
    requires d.offset <= LONG_MAX && d.len <= INT_MAX
    requires RequestFits(d, size)
    ensures var backup := RequestMessage(d.(buffer := []), size);
            backup.Ok? && ParseRequest(backup.value) == Ok(d.(buffer := Zeros(d.len)))
    ensures Zeros(d.len) == d.buffer <==> forall i :: 0 <= i < d.len ==> d.buffer[i] == 0
  {
    hide ParseRequest, ToString;
    var zeros := d.(buffer := Zeros(d.len));
    RequestRoundTrip(zeros, size);
    assert RequestMessage(d.(buffer := []), size).value == RequestMessage(zeros, size).value;
  }

  // ------------------------------------------------------------ message bound

  lemma FieldLength(v: int, k: nat)
    requires 0 <= v < Power10(k) && k > 0
    ensures |Field(v)| <= k + 1
  {
    DigitCount(v, k);
  }

  lemma ConfiguredPowers()
    ensures Power10(1) == 10 && Power10(4) == 10_000 && Power10(7) == 10_000_000 && Power10(10) == 10_000_000_000
  {
    assert Power10(4) == 10 * (10 * (10 * (10 * Power10(0))));
    assert Power10(7) == 1000 * Power10(4) by {
      assert Power10(7) == 10 * (10 * (10 * Power10(4)));
    }
    assert Power10(10) == 1000 * Power10(7) by {
      assert Power10(10) == 10 * (10 * (10 * Power10(7)));
    }
  }

  /** The shipped configuration: 4 MiB per slave (offsets below 8 MiB with the backup half),
      requests of at most 4096 bytes and 4136-byte messages. No header is longer than 27 bytes,
      so no payload is ever copied past the end of its message. */
  lemma ConfiguredMessagesFit(d: DriverData)
    requires d.offset < 2 * 4194304 && d.len <= 4096 && 0 <= d.id <= INT_MAX && 0 <= d.kind < 5
    requires |d.buffer| <= d.len
    ensures |RequestHeader(d)| <= 27 && RequestFits(d, 4136) && ReplyFits(d, 4136)
  {
    ConfiguredPowers();
    FieldLength(d.offset, 7);
    FieldLength(d.len, 4);
    FieldLength(d.id, 10);
    FieldLength(d.kind, 1);
  }
}
