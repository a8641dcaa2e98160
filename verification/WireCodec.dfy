/** The binary form of a routed message (internal/core/route_message.go).

    A payload is four length- or tag-prefixed fields in a row. The decoder
    first looks for "one extra length prefix"; the lemmas below say when that
    test fires and what a payload means to the decoder in every case. */
module WireCodec {
  import opened Basics

  type Int32 = v: int | -0x8000_0000 <= v < 0x8000_0000

  /** A message as the source holds it: both pointers may be nil. */
  datatype RouteMessage = RouteMessage(from: Bytes, to: Bytes, kind: Option<Int32>, data: Option<Bytes>)

  datatype WireError = NilMessage | EmptyPayload | InvalidFromLength | InvalidToLength | Truncated

  const LAST_ORDINAL: Int32 := 5

  // ---------------------------------------------------------------------
  // Big-endian integers

  /** The low k bytes of n, most significant first. */
  function BigEndian(n: nat, k: nat): (b: Bytes)
    ensures |b| == k
    decreases n, k
  {
    if k == 0 then [] else BigEndian(n / 0x100, k - 1) + [(n % 0x100) as Byte]
  }

  function Value(b: Bytes): nat {
    if b == [] then 0 else Value(b[..|b| - 1]) * 0x100 + b[|b| - 1] as int
  }

  function Range(k: nat): (r: nat)
    ensures r > 0
  {
    if k == 0 then 1 else 0x100 * Range(k - 1)
  }

  lemma {:induction false} ValueOfBigEndian(n: nat, k: nat)
    requires n < Range(k)
    ensures Value(BigEndian(n, k)) == n
    decreases k
  {
    if k > 0 {
      var b := BigEndian(n, k);
      assert b[..k - 1] == BigEndian(n / 0x100, k - 1);
      ValueOfBigEndian(n / 0x100, k - 1);
    }
  }

  lemma {:induction false} BigEndianOfValue(b: Bytes)
    ensures Value(b) < Range(|b|)
    ensures BigEndian(Value(b), |b|) == b
  {
    if b != [] {
      var init, last := b[..|b| - 1], b[|b| - 1];
      BigEndianOfValue(init);
      assert Value(b) / 0x100 == Value(init) && Value(b) % 0x100 == last as int;
      assert b == init + [last];
    }
  }

  lemma Range4()
    ensures Range(4) == 0x1_0000_0000
  {
    assert Range(1) == 0x100 && Range(2) == 0x1_0000 && Range(3) == 0x100_0000;
  }

  /** Go's int32(n): the low 32 bits, read as two's complement. */
  function ToInt32(n: int): Int32 {
    var low := n % 0x1_0000_0000;
    if low < 0x8000_0000 then low else low - 0x1_0000_0000
  }

  lemma ToInt32Small(n: nat)
    requires n < 0x8000_0000
    ensures ToInt32(n) == n
  {
  }

  function PutInt32(v: Int32): (b: Bytes)
    ensures |b| == 4
  {
    BigEndian(v % 0x1_0000_0000, 4)
  }

  function GetInt32(b: Bytes): Int32
    requires |b| == 4
  {
    ToInt32(Value(b))
  }

  lemma GetPutInt32(v: Int32)
    ensures GetInt32(PutInt32(v)) == v
  {
    var low := v % 0x1_0000_0000;
    assert ToInt32(low) == v;
    Range4();
    ValueOfBigEndian(low, 4);
  }

  lemma PutGetInt32(b: Bytes)
    requires |b| == 4
    ensures PutInt32(GetInt32(b)) == b
  {
    var n := Value(b);
    Range4();
    BigEndianOfValue(b);
    assert ToInt32(n) % 0x1_0000_0000 == n;
  }

  /** The four bytes in fields, most significant first; negative numbers in two's
      complement. */
  lemma PutInt32Bytes(v: Int32)
    ensures var n: nat := if v < 0 then v + 0x1_0000_0000 else v;
            PutInt32(v) == [(n / 0x100_0000) as Byte, (n / 0x1_0000 % 0x100) as Byte, (n / 0x100 % 0x100) as Byte, (n % 0x100) as Byte]
  {
    var n: nat := if v < 0 then v + 0x1_0000_0000 else v;
    assert v % 0x1_0000_0000 == n;
    BigEndianBytes(n);
  }

  lemma BigEndianBytes(n: nat)
    requires n < 0x1_0000_0000
    ensures BigEndian(n, 4) ==
      [(n / 0x100_0000) as Byte, (n / 0x1_0000 % 0x100) as Byte, (n / 0x100 % 0x100) as Byte, (n % 0x100) as Byte]
  {
    var n1, n2, n3 := n / 0x100, n / 0x1_0000, n / 0x100_0000;
    assert n1 / 0x100 == n2 && n2 / 0x100 == n3 && n3 < 0x100;
    assert BigEndian(n3, 1) == [n3 as Byte];
    assert BigEndian(n2, 2) == BigEndian(n3, 1) + [(n2 % 0x100) as Byte];
    assert BigEndian(n1, 3) == BigEndian(n2, 2) + [(n1 % 0x100) as Byte];
  }

  // ---------------------------------------------------------------------
  // What the encoder writes

  function EncodedKind(kind: Option<Int32>): Int32 {
    if kind.None? then -1 else kind.value
  }

  function EncodedData(data: Option<Bytes>): Bytes {
    if data.None? then PutInt32(-1) else PutInt32(ToInt32(|data.value|)) + data.value
  }

  function Payload(m: RouteMessage): Bytes {
    PutInt32(ToInt32(|m.from|)) + m.from
    + (PutInt32(ToInt32(|m.to|)) + m.to
       + (PutInt32(EncodedKind(m.kind)) + EncodedData(m.data)))
  }

  lemma Regroup<T>(a: seq<T>, b: seq<T>, c: seq<T>, d: seq<T>, e: seq<T>, f: seq<T>)
    ensures a + b + c + d + e + f == a + b + (c + d + (e + f))
  {
  }

  /** EncodePayload appends field after field to one buffer. */
  method EncodePayload(m: Option<RouteMessage>) returns (r: Result<Bytes, WireError>)
    ensures r == if m.None? then Err(NilMessage) else Ok(Payload(m.value))
  {
    if m.None? {
      return Err(NilMessage);
    }
    var msg := m.value;
    var buf: Bytes := PutInt32(ToInt32(|msg.from|));
    buf := buf + msg.from;
    buf := buf + PutInt32(ToInt32(|msg.to|));
    buf := buf + msg.to;
    if msg.kind.None? {
      buf := buf + PutInt32(-1);
    } else {
      buf := buf + PutInt32(msg.kind.value);
    }
    ghost var head := buf;
    if msg.data.None? {
      buf := buf + PutInt32(-1);
    } else {
      buf := buf + PutInt32(ToInt32(|msg.data.value|));
      buf := buf + msg.data.value;
      assert buf == head + (PutInt32(ToInt32(|msg.data.value|)) + msg.data.value);
    }
    assert buf == head + EncodedData(msg.data);
    Regroup(PutInt32(ToInt32(|msg.from|)), msg.from, PutInt32(ToInt32(|msg.to|)), msg.to,
            PutInt32(EncodedKind(msg.kind)), EncodedData(msg.data));
    r := Ok(buf);
  }

  // ---------------------------------------------------------------------
  // What the decoder reads

  /** The next four bytes as an int32, and what follows them. */
  function TakeInt32(b: Bytes): Option<(Int32, Bytes)> {
    if |b| < 4 then None else Some((GetInt32(b[..4]), b[4..]))
  }

  /** A length-prefixed field. A missing or negative length is `bad`. */
  function TakeField(b: Bytes, bad: WireError): Result<(Bytes, Bytes), WireError> {
    match TakeInt32(b)
    case None => Err(bad)
    case Some((n, rest)) =>
      if n < 0 then Err(bad)
      else if |rest| < n then Err(Truncated)
      else Ok((rest[..n], rest[n..]))
  }

  function KindOf(ordinal: Int32): Option<Int32> {
    if 0 <= ordinal <= LAST_ORDINAL then Some(ordinal) else None
  }

  function DecodeTail(from: Bytes, to: Bytes, b: Bytes): Result<RouteMessage, WireError> {
    match TakeInt32(b)
    case None => Err(Truncated)
    case Some((ordinal, b1)) =>
      match TakeInt32(b1)
      case None => Err(Truncated)
      case Some((n, b2)) =>
        if n < 0 then Ok(RouteMessage(from, to, KindOf(ordinal), None))
        else if |b2| < n then Err(Truncated)
        else Ok(RouteMessage(from, to, KindOf(ordinal), Some(b2[..n])))
  }

  function DecodeReceiver(from: Bytes, b: Bytes): Result<RouteMessage, WireError> {
    match TakeField(b, InvalidToLength)
    case Err(e) => Err(e)
    case Ok((to, rest)) => DecodeTail(from, to, rest)
  }

  function DecodeBody(b: Bytes): Result<RouteMessage, WireError> {
    match TakeField(b, InvalidFromLength)
    case Err(e) => Err(e)
    case Ok((from, b1)) => DecodeReceiver(from, b1)
  }

  /** The extra-prefix test: by the time the length is compared, the four
      bytes are already consumed, so the bound is the total minus eight. */
  predicate PrefixFires(p: Bytes) {
    |p| >= 4 && GetInt32(p[..4]) == |p| - 8
  }

  function Decode(p: Bytes): Result<RouteMessage, WireError> {
    if |p| == 0 then Err(EmptyPayload)
    else if PrefixFires(p) then DecodeBody(p[4..])
    else DecodeBody(p)
  }

  /** bytes.Reader: a cursor over the payload. */
  class Reader {
    const payload: Bytes
    var pos: nat

    ghost predicate Valid()
      reads this
    {
      pos <= |payload|
    }

    function Rest(): Bytes
      requires Valid()
      reads this
    {
      payload[pos..]
    }

    constructor (payload: Bytes)
      ensures Valid() && pos == 0 && this.payload == payload
    {
      this.payload := payload;
      pos := 0;
    }

    method Seek(to: nat)
      requires to <= |payload|
      modifies this
      ensures Valid() && pos == to
    {
      pos := to;
    }

    method ReadInt32() returns (v: Option<Int32>)
      requires Valid()
      modifies this
      ensures Valid()
      ensures v.None? <==> TakeInt32(old(Rest())).None?
      ensures v.Some? ==> TakeInt32(old(Rest())) == Some((v.value, Rest()))
      ensures v.Some? ==> pos == old(pos) + 4
    {
      if |payload| - pos < 4 {
        pos := |payload|;
        return None;
      }
      v := Some(GetInt32(payload[pos..pos + 4]));
      assert payload[pos..][..4] == payload[pos..pos + 4];
      assert payload[pos..][4..] == payload[pos + 4..];
      pos := pos + 4;
    }

    /** io.ReadFull into a fresh slice of n bytes. */
    method ReadFull(n: nat) returns (b: Option<Bytes>)
      requires Valid()
      modifies this
      ensures Valid()
      ensures b.Some? <==> n <= |old(Rest())|
      ensures b.Some? ==> b.value == old(Rest())[..n] && Rest() == old(Rest())[n..]
    {
      if |payload| - pos < n {
        pos := |payload|;
        return None;
      }
      b := Some(payload[pos..pos + n]);
      assert payload[pos..][..n] == payload[pos..pos + n];
      assert payload[pos..][n..] == payload[pos + n..];
      pos := pos + n;
    }
  }

  method DecodeRouteMessagePayload(p: Bytes) returns (r: Result<RouteMessage, WireError>)
    ensures r == Decode(p)
  {
    if |p| == 0 {
      return Err(EmptyPayload);
    }
    var reader := new Reader(p);
    assert p[0..] == p;
    if |p| - reader.pos >= 4 {
      var peek := reader.pos;
      var possibleLen := reader.ReadInt32();
      if possibleLen.value == |p| - reader.pos - 4 {
        // skip the extra length prefix
      } else {
        reader.Seek(peek);
      }
    }
    assert reader.Rest() == if PrefixFires(p) then p[4..] else p;

    var fromLen := reader.ReadInt32();
    if fromLen.None? || fromLen.value < 0 {
      return Err(InvalidFromLength);
    }
    var from := reader.ReadFull(fromLen.value);
    if from.None? {
      return Err(Truncated);
    }
    var toLen := reader.ReadInt32();
    if toLen.None? || toLen.value < 0 {
      return Err(InvalidToLength);
    }
    var to := reader.ReadFull(toLen.value);
    if to.None? {
      return Err(Truncated);
    }
    var ordinal := reader.ReadInt32();
    if ordinal.None? {
      return Err(Truncated);
    }
    var dataLen := reader.ReadInt32();
    if dataLen.None? {
      return Err(Truncated);
    }
    var data: Option<Bytes> := None;
    if dataLen.value >= 0 {
      data := reader.ReadFull(dataLen.value);
      if data.None? {
        return Err(Truncated);
      }
    }
    r := Ok(RouteMessage(from.value, to.value, KindOf(ordinal.value), data));
  }

  // ---------------------------------------------------------------------
  // The language the decoder accepts

  /** b is the fields of m, written with the given raw ordinal and raw data
      length, then bytes nobody reads. Nothing here mentions the decoder. */
  function TailBytes(data: Option<Bytes>, ordinal: Int32, dataLen: Int32, unread: Bytes): Bytes {
    PutInt32(ordinal) + (PutInt32(dataLen) + ((if data.None? then [] else data.value) + unread))
  }

  ghost predicate TailAgrees(m: RouteMessage, ordinal: Int32, dataLen: Int32) {
    && m.kind == KindOf(ordinal)
    && (if dataLen < 0 then m.data == None else m.data.Some? && |m.data.value| == dataLen)
  }

  ghost predicate LaidOut(b: Bytes, m: RouteMessage, ordinal: Int32, dataLen: Int32, unread: Bytes) {
    && |m.from| < 0x8000_0000 && |m.to| < 0x8000_0000
    && TailAgrees(m, ordinal, dataLen)
    && b == PutInt32(|m.from|) + m.from
            + (PutInt32(|m.to|) + m.to + TailBytes(m.data, ordinal, dataLen, unread))
  }

  ghost predicate Describes(b: Bytes, m: RouteMessage) {
    exists ordinal: Int32, dataLen: Int32, unread: Bytes :: LaidOut(b, m, ordinal, dataLen, unread)
  }

  lemma TakeInt32Put(v: Int32, rest: Bytes)
    ensures TakeInt32(PutInt32(v) + rest) == Some((v, rest))
  {
    GetPutInt32(v);
    assert (PutInt32(v) + rest)[..4] == PutInt32(v);
    assert (PutInt32(v) + rest)[4..] == rest;
  }

  lemma TakeFieldPut(f: Bytes, rest: Bytes, bad: WireError)
    requires |f| < 0x8000_0000
    ensures TakeField(PutInt32(|f|) + f + rest, bad) == Ok((f, rest))
  {
    TakeInt32Put(|f|, f + rest);
    assert PutInt32(|f|) + f + rest == PutInt32(|f|) + (f + rest);
    assert (f + rest)[..|f|] == f && (f + rest)[|f|..] == rest;
  }

  lemma TakeInt32Inverse(b: Bytes)
    requires TakeInt32(b).Some?
    ensures b == PutInt32(TakeInt32(b).value.0) + TakeInt32(b).value.1
  {
    PutGetInt32(b[..4]);
    assert b == b[..4] + b[4..];
  }

  lemma TakeFieldInverse(b: Bytes, bad: WireError)
    requires TakeField(b, bad).Ok?
    ensures |TakeField(b, bad).value.0| < 0x8000_0000
    ensures var (f, rest) := TakeField(b, bad).value; b == PutInt32(|f|) + f + rest
  {
    TakeInt32Inverse(b);
    var (n, rest) := TakeInt32(b).value;
    assert rest == rest[..n] + rest[n..];
  }

  lemma DecodesTail(m: RouteMessage, ordinal: Int32, dataLen: Int32, unread: Bytes)
    requires TailAgrees(m, ordinal, dataLen)
    ensures DecodeTail(m.from, m.to, TailBytes(m.data, ordinal, dataLen, unread)) == Ok(m)
  {
    var body: Bytes := if m.data.None? then [] else m.data.value;
    TakeInt32Put(ordinal, PutInt32(dataLen) + (body + unread));
    TakeInt32Put(dataLen, body + unread);
    assert (body + unread)[..|body|] == body;
  }

  lemma DecodesWhatIsLaidOut(b: Bytes, m: RouteMessage, ordinal: Int32, dataLen: Int32, unread: Bytes)
    requires LaidOut(b, m, ordinal, dataLen, unread)
    ensures DecodeBody(b) == Ok(m)
  {
    var tail := TailBytes(m.data, ordinal, dataLen, unread);
    TakeFieldPut(m.from, PutInt32(|m.to|) + m.to + tail, InvalidFromLength);
    TakeFieldPut(m.to, tail, InvalidToLength);
    DecodesTail(m, ordinal, dataLen, unread);
  }

  lemma LaysOutTail(m: RouteMessage, b: Bytes) returns (ordinal: Int32, dataLen: Int32, unread: Bytes)
    requires DecodeTail(m.from, m.to, b) == Ok(m)
    ensures TailAgrees(m, ordinal, dataLen)
    ensures b == TailBytes(m.data, ordinal, dataLen, unread)
  {
    TakeInt32Inverse(b);
    var (ord, b1) := TakeInt32(b).value;
    TakeInt32Inverse(b1);
    var (n, b2) := TakeInt32(b1).value;
    ordinal, dataLen := ord, n;
    unread := if n < 0 then b2 else b2[n..];
    assert b2 == (if m.data.None? then [] else m.data.value) + unread;
  }

  lemma LaysOutWhatDecodes(b: Bytes, m: RouteMessage) returns (ordinal: Int32, dataLen: Int32, unread: Bytes)
    requires DecodeBody(b) == Ok(m)
    ensures LaidOut(b, m, ordinal, dataLen, unread)
  {
    TakeFieldInverse(b, InvalidFromLength);
    var (from, b0) := TakeField(b, InvalidFromLength).value;
    TakeFieldInverse(b0, InvalidToLength);
    var (to, b1) := TakeField(b0, InvalidToLength).value;
    ordinal, dataLen, unread := LaysOutTail(m, b1);
  }

  /** A body decodes to m exactly when it is m laid out, whatever follows. */
  lemma BodyAcceptsExactly(b: Bytes, m: RouteMessage)
    ensures DecodeBody(b) == Ok(m) <==> Describes(b, m)
  {
    if DecodeBody(b) == Ok(m) {
      var ordinal, dataLen, unread := LaysOutWhatDecodes(b, m);
    }
    if Describes(b, m) {
      var ordinal: Int32, dataLen: Int32, unread: Bytes :| LaidOut(b, m, ordinal, dataLen, unread);
      DecodesWhatIsLaidOut(b, m, ordinal, dataLen, unread);
    }
  }

  /** The whole accepted language, with the extra-prefix test. */
  lemma PayloadAcceptsExactly(p: Bytes, m: RouteMessage)
    ensures Decode(p) == Ok(m) <==> p != [] && Describes(if PrefixFires(p) then p[4..] else p, m)
  {
    BodyAcceptsExactly(p, m);
    if PrefixFires(p) {
      BodyAcceptsExactly(p[4..], m);
    }
  }

  function Int32At(b: Bytes, k: nat): Int32
    requires k + 4 <= |b|
  {
    GetInt32(b[k..k + 4])
  }

  /** What is wrong with the fields of b, read off by position: first the
      sender's... */
  function Fault(b: Bytes): Option<WireError> {
    if |b| < 4 || Int32At(b, 0) < 0 then Some(InvalidFromLength)
    else if |b| < 4 + Int32At(b, 0) then Some(Truncated)
    else ReceiverFault(b, 4 + Int32At(b, 0))
  }

  /** ... then, from position k on, the receiver's... */
  function ReceiverFault(b: Bytes, k: nat): Option<WireError>
    requires k <= |b|
  {
    if |b| < k + 4 || Int32At(b, k) < 0 then Some(InvalidToLength)
    else if |b| < k + 4 + Int32At(b, k) then Some(Truncated)
    else TailFault(b, k + 4 + Int32At(b, k))
  }

  /** ... and then the type and the data. */
  function TailFault(b: Bytes, k: nat): Option<WireError>
    requires k <= |b|
  {
    if |b| < k + 8 then Some(Truncated)
    else if Int32At(b, k + 4) >= 0 && |b| < k + 8 + Int32At(b, k + 4) then Some(Truncated)
    else None
  }

  lemma TakeFieldAt(b: Bytes, k: nat, bad: WireError)
    requires k <= |b|
    ensures var r := TakeField(b[k..], bad);
            if |b| < k + 4 || Int32At(b, k) < 0 then r == Err(bad)
            else if |b| < k + 4 + Int32At(b, k) then r == Err(Truncated)
            else r == Ok((b[k + 4..k + 4 + Int32At(b, k)], b[k + 4 + Int32At(b, k)..]))
  {
    if k + 4 <= |b| {
      assert b[k..][..4] == b[k..k + 4] && b[k..][4..] == b[k + 4..];
      var n := Int32At(b, k);
      if 0 <= n && k + 4 + n <= |b| {
        assert b[k + 4..][..n] == b[k + 4..k + 4 + n] && b[k + 4..][n..] == b[k + 4 + n..];
      }
    }
  }

  /** A result that is the given fault, or none. */
  ghost predicate Agrees(r: Result<RouteMessage, WireError>, fault: Option<WireError>) {
    (fault.None? <==> r.Ok?) && (fault.Some? ==> r == Err(fault.value))
  }

  lemma DecodeTailAt(from: Bytes, to: Bytes, b: Bytes, k: nat)
    requires k <= |b|
    ensures Agrees(DecodeTail(from, to, b[k..]), TailFault(b, k))
  {
    if k + 8 <= |b| {
      assert b[k..][4..] == b[k + 4..] && b[k + 4..][..4] == b[k + 4..k + 8] && b[k + 4..][4..] == b[k + 8..];
    }
  }

  lemma DecodeReceiverAt(from: Bytes, b: Bytes, k: nat)
    requires k <= |b|
    ensures Agrees(DecodeReceiver(from, b[k..]), ReceiverFault(b, k))
  {
    TakeFieldAt(b, k, InvalidToLength);
    var r := TakeField(b[k..], InvalidToLength);
    if r.Ok? {
      DecodeTailAt(from, r.value.0, b, k + 4 + Int32At(b, k));
    }
  }

  /** Which error a payload is refused with, exactly. */
  lemma FailsExactly(p: Bytes)
    ensures p == [] ==> Decode(p) == Err(EmptyPayload)
    ensures p != [] ==> Agrees(Decode(p), Fault(if PrefixFires(p) then p[4..] else p))
  {
    BodyFailsExactly(p);
    if PrefixFires(p) {
      BodyFailsExactly(p[4..]);
    }
  }

  lemma BodyFailsExactly(b: Bytes)
    ensures Agrees(DecodeBody(b), Fault(b))
  {
    assert b[0..] == b;
    TakeFieldAt(b, 0, InvalidFromLength);
    var r := TakeField(b, InvalidFromLength);
    if r.Ok? {
      DecodeReceiverAt(r.value.0, b, 4 + Int32At(b, 0));
    }
  }

  lemma SliceBehind(p: Bytes, k: nat, i: nat, j: nat)
    requires k + j <= |p| && i <= j
    ensures p[k..][i..j] == p[k + i..k + j]
  {
  }

  lemma RestBehind(p: Bytes, k: nat, i: nat)
    requires k + i <= |p|
    ensures p[k..][i..] == p[k + i..]
  {
  }

  lemma IntIsAt(p: Bytes, k: nat, v: Int32, rest: Bytes)
    requires k <= |p| && p[k..] == PutInt32(v) + rest
    ensures k + 4 <= |p| && Int32At(p, k) == v && p[k + 4..] == rest
  {
    GetPutInt32(v);
    SliceBehind(p, k, 0, 4);
    RestBehind(p, k, 4);
    assert (PutInt32(v) + rest)[0..4] == PutInt32(v) && (PutInt32(v) + rest)[4..] == rest;
  }

  lemma StringIsAt(p: Bytes, k: nat, x: Bytes, rest: Bytes)
    requires k <= |p| && |x| < 0x8000_0000 && p[k..] == PutInt32(|x|) + x + rest
    ensures k + 4 + |x| <= |p| && Int32At(p, k) == |x| && p[k + 4..k + 4 + |x|] == x && p[k + 4 + |x|..] == rest
  {
    Associates(PutInt32(|x|), x, rest);
    IntIsAt(p, k, |x|, x + rest);
    SliceBehind(p, k + 4, 0, |x|);
    RestBehind(p, k + 4, |x|);
    assert (x + rest)[0..|x|] == x && (x + rest)[|x|..] == rest;
  }

  /** The payload by position: two strings with their lengths before them, the
      type, and the data with its length before it, or minus one and nothing. */
  lemma PayloadLayout(m: RouteMessage)
    requires Transportable(m)
    ensures |Payload(m)| == 16 + |m.from| + |m.to| + (if m.data.None? then 0 else |m.data.value|)
    ensures Int32At(Payload(m), 0) == |m.from| && Payload(m)[4..4 + |m.from|] == m.from
    ensures ReceiverLaidOut(Payload(m), m, 4 + |m.from|)
    ensures TailLaidOut(Payload(m), m, 8 + |m.from| + |m.to|)
  {
    PayloadSize(m);
    ToInt32Small(|m.from|);
    assert Payload(m)[0..] == Payload(m);
    StringIsAt(Payload(m), 0, m.from, ReceiverBytes(m));
    ReceiverIsLaidOut(Payload(m), m, 4 + |m.from|);
  }

  function ReceiverBytes(m: RouteMessage): Bytes {
    PutInt32(ToInt32(|m.to|)) + m.to + (PutInt32(EncodedKind(m.kind)) + EncodedData(m.data))
  }

  ghost predicate ReceiverLaidOut(p: Bytes, m: RouteMessage, k: nat) {
    k + 4 + |m.to| <= |p| && Int32At(p, k) == |m.to| && p[k + 4..k + 4 + |m.to|] == m.to
  }

  lemma ReceiverIsLaidOut(p: Bytes, m: RouteMessage, k: nat)
    requires Transportable(m) && k <= |p| && p[k..] == ReceiverBytes(m)
    ensures ReceiverLaidOut(p, m, k) && TailLaidOut(p, m, k + 4 + |m.to|)
  {
    ToInt32Small(|m.to|);
    StringIsAt(p, k, m.to, PutInt32(EncodedKind(m.kind)) + EncodedData(m.data));
    TailIsLaidOut(p, m, k + 4 + |m.to|);
  }

  /** The type, then the data. */
  ghost predicate TailLaidOut(p: Bytes, m: RouteMessage, k: nat) {
    && k + 8 <= |p|
    && Int32At(p, k) == (if m.kind.None? then -1 else m.kind.value)
    && Int32At(p, k + 4) == (if m.data.None? then -1 else |m.data.value|)
    && p[k + 8..] == (if m.data.None? then [] else m.data.value)
  }

  lemma TailIsLaidOut(p: Bytes, m: RouteMessage, k: nat)
    requires Transportable(m) && k <= |p| && p[k..] == PutInt32(EncodedKind(m.kind)) + EncodedData(m.data)
    ensures TailLaidOut(p, m, k)
  {
    IntIsAt(p, k, EncodedKind(m.kind), EncodedData(m.data));
    if m.data.None? {
      assert EncodedData(m.data) == PutInt32(-1) + [];
      IntIsAt(p, k + 4, -1, []);
    } else {
      ToInt32Small(|m.data.value|);
      IntIsAt(p, k + 4, |m.data.value|, m.data.value);
    }
  }

  // ---------------------------------------------------------------------
  // Round trips

  /** What a message must be for the wire form to carry it. */
  predicate Transportable(m: RouteMessage) {
    && |m.from| < 0x8000_0000 && |m.to| < 0x8000_0000
    && (m.kind.Some? ==> 0 <= m.kind.value <= 5)
    && (m.data.Some? ==> |m.data.value| < 0x8000_0000)
  }

  lemma PayloadSize(m: RouteMessage)
    ensures |Payload(m)| == 16 + |m.from| + |m.to| + (if m.data.None? then 0 else |m.data.value|)
  {
  }

  lemma PayloadStartsWithFromLength(m: RouteMessage)
    ensures GetInt32(Payload(m)[..4]) == ToInt32(|m.from|)
  {
    var head := PutInt32(ToInt32(|m.from|));
    assert Payload(m)[..4] == head;
    GetPutInt32(ToInt32(|m.from|));
  }

  /** The extra-prefix test never fires on a real message. */
  lemma PrefixNeverFiresOnMessages(m: RouteMessage)
    requires Transportable(m)
    ensures !PrefixFires(Payload(m))
  {
    PayloadSize(m);
    PayloadStartsWithFromLength(m);
  }

  /** Nor does it change what any other payload means: where it fires, the
      payload as it stands does not decode. */
  lemma PrefixNeverMisleads(p: Bytes)
    ensures PrefixFires(p) ==> DecodeBody(p).Err?
    ensures DecodeBody(p).Ok? ==> Decode(p) == DecodeBody(p)
  {
  }

  lemma TransportableIsLaidOut(m: RouteMessage)
    requires Transportable(m)
    ensures LaidOut(Payload(m), m, EncodedKind(m.kind), if m.data.None? then -1 else |m.data.value|, [])
  {
    ToInt32Small(|m.from|);
    ToInt32Small(|m.to|);
    var dataLen: Int32 := if m.data.None? then -1 else |m.data.value|;
    var body: Bytes := if m.data.None? then [] else m.data.value;
    ToInt32Small(|body|);
    assert body + [] == body;
    assert EncodedData(m.data) == PutInt32(dataLen) + (body + []);
  }

  lemma DecodedIsTransportable(p: Bytes)
    requires Decode(p).Ok?
    ensures Transportable(Decode(p).value)
  {
    PayloadAcceptsExactly(p, Decode(p).value);
  }

  /** Decoding undoes encoding for exactly the transportable messages: nil and
      empty data stay apart, and an unknown type or an oversized string is lost. */
  lemma RoundTripExactly(m: RouteMessage)
    ensures Decode(Payload(m)) == Ok(m) <==> Transportable(m)
  {
    PayloadSize(m);
    if Transportable(m) {
      PrefixNeverFiresOnMessages(m);
      TransportableIsLaidOut(m);
      DecodesWhatIsLaidOut(Payload(m), m, EncodedKind(m.kind), if m.data.None? then -1 else |m.data.value|, []);
    }
    if Decode(Payload(m)) == Ok(m) {
      DecodedIsTransportable(Payload(m));
    }
  }

  /** A true extra length prefix is not skipped: the prefixed message is read as
      one long sender id and then runs out of bytes. */
  lemma ExtraPrefixIsRejected(m: RouteMessage)
    requires |Payload(m)| < 0x8000_0000
    ensures !PrefixFires(PutInt32(|Payload(m)|) + Payload(m))
    ensures Decode(PutInt32(|Payload(m)|) + Payload(m)) == Err(InvalidToLength)
  {
    var e := Payload(m);
    var p := PutInt32(|e|) + e;
    TakeInt32Put(|e|, e);
    GetPutInt32(|e|);
    TakeFieldPut(e, [], InvalidFromLength);
    assert PutInt32(|e|) + e + [] == p;
  }

  /** The prefix that is skipped is the one that is four short of the bytes
      behind it; then the decoder reads those bytes and no others. */
  lemma SkippedPrefix(b: Bytes)
    requires 4 <= |b| < 0x8000_0004
    ensures PrefixFires(PutInt32(|b| - 4) + b)
    ensures Decode(PutInt32(|b| - 4) + b) == DecodeBody(b)
  {
    TakeInt32Put(|b| - 4, b);
  }

  // ---------------------------------------------------------------------
  // One hop through the server: decode, then encode for the next connection

  lemma DecodedIsNoLonger(p: Bytes)
    requires Decode(p).Ok?
    ensures |Payload(Decode(p).value)| <= |p|
  {
    var m := Decode(p).value;
    var b := if PrefixFires(p) then p[4..] else p;
    var ordinal, dataLen, unread := LaysOutWhatDecodes(b, m);
    PayloadSize(m);
  }

  /** Whatever one hop accepts, the next hop accepts as the same message. */
  lemma HopNormalises(p: Bytes)
    requires Decode(p).Ok?
    ensures var m := Decode(p).value;
            && Decode(Payload(m)) == Ok(m)
            && |Payload(m)| <= |p|
  {
    DecodedIsTransportable(p);
    RoundTripExactly(Decode(p).value);
    DecodedIsNoLonger(p);
  }

  /** The bytes that leave the n-th hop. */
  function AfterHops(p: Bytes, n: nat): Result<Bytes, WireError> {
    if n == 0 then Ok(p)
    else
      match AfterHops(p, n - 1)
      case Err(e) => Err(e)
      case Ok(q) =>
        match Decode(q)
        case Err(e) => Err(e)
        case Ok(m) => Ok(Payload(m))
  }

  /** Over any number of hops the bytes settle at the first one... */
  lemma {:induction false} HopsSettle(p: Bytes, n: nat)
    requires Decode(p).Ok? && n >= 1
    ensures AfterHops(p, n) == Ok(Payload(Decode(p).value))
  {
    if n == 1 {
      assert AfterHops(p, 0) == Ok(p);
    } else {
      HopsSettle(p, n - 1);
      HopNormalises(p);
    }
  }

  /** ... and encoder output is carried byte for byte. */
  lemma HopsKeepMessages(m: RouteMessage, n: nat)
    requires Transportable(m)
    ensures AfterHops(Payload(m), n) == Ok(Payload(m))
  {
    RoundTripExactly(m);
    if n >= 1 {
      HopsSettle(Payload(m), n);
    }
  }
}
