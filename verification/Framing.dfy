/** Length-prefixed frames over a byte stream that arrives in pieces
    (internal/core/framing.go and the frame reader of internal/rpc/stub_server.go). */
module Framing {
  import opened Basics
  import opened WireCodec

  const MAX_FRAME_SIZE := 10 * 1024 * 1024
  const MAX_RPC_FRAME_SIZE := 1024 * 1024

  datatype FrameError = EndOfStream | OutOfRange

  // ---------------------------------------------------------------------
  // The stream

  /** What has been sent, cut where the network happened to cut it. One Read
      call never crosses a cut. */
  type Arrivals = seq<Bytes>

  ghost predicate NonEmptyReads(a: Arrivals) {
    forall i :: 0 <= i < |a| ==> a[i] != []
  }

  /** The arrivals left once n bytes are consumed; the cuts stay where they are. */
  function DropBytes(a: Arrivals, n: nat): Arrivals {
    if n == 0 || a == [] then a
    else if |a[0]| <= n then DropBytes(a[1..], n - |a[0]|)
    else [a[0][n..]] + a[1..]
  }

  lemma {:induction false} ConcatDropBytes(a: Arrivals, n: nat)
    requires n <= |Concat(a)|
    ensures Concat(DropBytes(a, n)) == Concat(a)[n..]
  {
    if n == 0 || a == [] {
    } else if |a[0]| <= n {
      ConcatDropBytes(a[1..], n - |a[0]|);
      assert Concat(a)[n..] == Concat(a[1..])[n - |a[0]|..];
    } else {
      var b := [a[0][n..]] + a[1..];
      assert b[1..] == a[1..];
      assert Concat(a)[n..] == a[0][n..] + Concat(a[1..]);
    }
  }

  lemma {:induction false} DropBytesNonEmpty(a: Arrivals, n: nat)
    requires NonEmptyReads(a)
    ensures NonEmptyReads(DropBytes(a, n))
  {
    if n != 0 && a != [] && |a[0]| <= n {
      DropBytesNonEmpty(a[1..], n - |a[0]|);
    }
  }

  lemma {:induction false} DropBytesTwice(a: Arrivals, m: nat, n: nat)
    requires NonEmptyReads(a)
    ensures DropBytes(DropBytes(a, m), n) == DropBytes(a, m + n)
  {
    if m == 0 || a == [] {
    } else if |a[0]| <= m {
      DropBytesTwice(a[1..], m - |a[0]|, n);
    } else {
      var b := [a[0][m..]] + a[1..];
      assert b[1..] == a[1..];
      if n != 0 && |b[0]| > n {
        assert a[0][m..][n..] == a[0][m + n..];
      }
    }
  }

  class Stream {
    var arrivals: Arrivals

    ghost predicate Valid()
      reads this
    {
      NonEmptyReads(arrivals)
    }

    constructor (arrivals: Arrivals)
      requires NonEmptyReads(arrivals)
      ensures Valid() && this.arrivals == arrivals
    {
      this.arrivals := arrivals;
    }

    /** net.Conn.Read into a buffer of n bytes: one arrival, or part of one. */
    method Read(n: nat) returns (b: Bytes)
      requires Valid() && n > 0
      modifies this
      ensures Valid()
      ensures b == [] <==> old(arrivals) == []
      ensures old(arrivals) != [] ==> |b| == Min(n, |old(arrivals)[0]|)
      ensures b == Concat(old(arrivals))[..|b|]
      ensures arrivals == DropBytes(old(arrivals), |b|)
    {
      if arrivals == [] {
        return [];
      }
      var first := arrivals[0];
      ghost var rest := arrivals[1..];
      assert Concat(arrivals) == first + Concat(rest);
      if |first| <= n {
        b := first;
        assert DropBytes(arrivals, |first|) == DropBytes(rest, 0);
        arrivals := arrivals[1..];
      } else {
        b := first[..n];
        arrivals := [first[n..]] + arrivals[1..];
      }
    }

    /** io.ReadFull: as many reads as it takes. */
    method ReadFull(n: nat) returns (b: Option<Bytes>)
      requires Valid()
      modifies this
      ensures Valid()
      ensures b.Some? <==> n <= |Concat(old(arrivals))|
      ensures b.Some? ==> b.value == Concat(old(arrivals))[..n]
      ensures b.Some? ==> arrivals == DropBytes(old(arrivals), n)
    {
      var got: Bytes := [];
      while |got| < n
        invariant Valid()
        invariant |got| <= n && |got| <= |Concat(old(arrivals))|
        invariant got == Concat(old(arrivals))[..|got|]
        invariant arrivals == DropBytes(old(arrivals), |got|)
      {
        ConcatDropBytes(old(arrivals), |got|);
        ghost var before := arrivals;
        var piece := Read(n - |got|);
        if piece == [] {
          return None;
        }
        ConcatDropBytes(before, 0);
        DropBytesTwice(old(arrivals), |got|, |piece|);
        got := got + piece;
      }
      b := Some(got);
    }

    method ReadFrame() returns (r: Result<Bytes, FrameError>)
      requires Valid()
      modifies this
      ensures Valid()
      ensures r.Err? <==> FirstFrame(Concat(old(arrivals))).Err?
      ensures r.Err? ==> FirstFrame(Concat(old(arrivals))) == Err(r.error)
      ensures r.Ok? ==> FirstFrame(Concat(old(arrivals))) == Ok((r.value, Concat(arrivals)))
    {
      var header := ReadFull(4);
      if header.None? {
        return Err(EndOfStream);
      }
      ConcatDropBytes(old(arrivals), 4);
      var length := Value(header.value);
      if length > MAX_FRAME_SIZE {
        return Err(OutOfRange);
      }
      ghost var afterHeader := arrivals;
      var payload := ReadFull(length);
      if payload.None? {
        return Err(EndOfStream);
      }
      ConcatDropBytes(afterHeader, length);
      r := Ok(payload.value);
    }

    /** The read loop of a connection: frames until the first error. */
    method ReadFrames() returns (payloads: seq<Bytes>, error: FrameError)
      requires Valid()
      modifies this
      ensures Valid()
      ensures payloads == AllFrames(Concat(old(arrivals)))
      ensures error == StopsWith(Concat(old(arrivals)))
    {
      payloads := [];
      while true
        invariant Valid()
        invariant AllFrames(Concat(old(arrivals))) == payloads + AllFrames(Concat(arrivals))
        invariant StopsWith(Concat(old(arrivals))) == StopsWith(Concat(arrivals))
        decreases |Concat(arrivals)|
      {
        var r := ReadFrame();
        if r.Err? {
          return payloads, r.error;
        }
        payloads := payloads + [r.value];
      }
    }

    /** readRpcFrame takes its header from one Read; bytes that have not arrived
        yet stay zero in the buffer. */
    method ReadRpcFrame() returns (r: Result<Bytes, FrameError>)
      requires Valid()
      modifies this
      ensures Valid()
      ensures r == FirstRpcFrame(old(arrivals)).0
      ensures r.Ok? ==> arrivals == FirstRpcFrame(old(arrivals)).1
    {
      var header := Read(4);
      if header == [] {
        return Err(EndOfStream);
      }
      assert header == old(arrivals)[0][..|header|];
      var length := Value(header + Zeros(4 - |header|));
      if length <= 0 || length > MAX_RPC_FRAME_SIZE {
        return Err(OutOfRange);
      }
      var payload := ReadFull(length);
      if payload.None? {
        return Err(EndOfStream);
      }
      r := Ok(payload.value);
    }
  }

  // ---------------------------------------------------------------------
  // Frames

  function Frame(p: Bytes): Bytes {
    BigEndian(|p| % 0x1_0000_0000, 4) + p
  }

  /** EncodeFrame fills one buffer: four header bytes, then the payload. */
  method EncodeFrame(p: Bytes) returns (out: array<Byte>)
    ensures fresh(out) && out[..] == Frame(p)
  {
    out := new Byte[4 + |p|];
    var header := BigEndian(|p| % 0x1_0000_0000, 4);
    for i := 0 to 4
      invariant forall j :: 0 <= j < i ==> out[j] == header[j]
    {
      out[i] := header[i];
    }
    for i := 0 to |p|
      invariant forall j :: 0 <= j < 4 ==> out[j] == header[j]
      invariant forall j :: 0 <= j < i ==> out[4 + j] == p[j]
    {
      out[4 + i] := p[i];
    }
  }

  /** The first frame of a flat stream, and the bytes behind it. */
  function FirstFrame(b: Bytes): (r: Result<(Bytes, Bytes), FrameError>)
    ensures r.Ok? ==> |r.value.1| < |b|
  {
    if |b| < 4 then Err(EndOfStream)
    else
      var length := Value(b[..4]);
      if length > MAX_FRAME_SIZE then Err(OutOfRange)
      else if |b| - 4 < length then Err(EndOfStream)
      else Ok((b[4..][..length], b[4..][length..]))
  }

  /** The payloads a reader gets out of a flat stream before its first error... */
  function AllFrames(b: Bytes): seq<Bytes>
    decreases |b|
  {
    match FirstFrame(b)
    case Err(_) => []
    case Ok((p, rest)) => [p] + AllFrames(rest)
  }

  /** ... and that error. */
  function StopsWith(b: Bytes): FrameError
    decreases |b|
  {
    match FirstFrame(b)
    case Err(e) => e
    case Ok((p, rest)) => StopsWith(rest)
  }

  function Join(ps: seq<Bytes>): Bytes {
    if ps == [] then [] else Frame(ps[0]) + Join(ps[1..])
  }

  ghost predicate AllFit(ps: seq<Bytes>) {
    forall i :: 0 <= i < |ps| ==> |ps[i]| <= MAX_FRAME_SIZE
  }

  lemma HeaderValue(p: Bytes)
    ensures Value(Frame(p)[..4]) == |p| % 0x1_0000_0000
  {
    Range4();
    ValueOfBigEndian(|p| % 0x1_0000_0000, 4);
    assert Frame(p)[..4] == BigEndian(|p| % 0x1_0000_0000, 4);
  }

  /** A frame is read back, and the stream left right behind it, exactly when
      its payload is within the limit. */
  lemma FrameReadBackExactly(p: Bytes, rest: Bytes)
    ensures FirstFrame(Frame(p) + rest) == Ok((p, rest)) <==> |p| <= 10_485_760
  {
    var b := Frame(p) + rest;
    HeaderValue(p);
    assert b[..4] == Frame(p)[..4];
    assert b[4..] == p + rest;
    assert (p + rest)[..|p|] == p && (p + rest)[|p|..] == rest;
  }

  /** Why there is no first frame, exactly: a length over 10 MiB is refused as
      soon as it is in; anything else that is missing is the end of the stream. */
  lemma NoFrameExactly(b: Bytes)
    ensures FirstFrame(b) == Err(OutOfRange) <==> |b| >= 4 && Value(b[..4]) > 10_485_760
    ensures FirstFrame(b) == Err(EndOfStream) <==> |b| < 4 || (Value(b[..4]) <= 10_485_760 && |b| < 4 + Value(b[..4]))
  {
  }

  lemma CutFrameIsNoFrame(p: Bytes, k: nat)
    requires |p| <= MAX_FRAME_SIZE && k < |Frame(p)|
    ensures FirstFrame(Frame(p)[..k]) == Err(EndOfStream)
  {
    HeaderValue(p);
    if k >= 4 {
      assert Frame(p)[..k][..4] == Frame(p)[..4];
    }
  }

  lemma OneFrameReadBack(p: Bytes, rest: Bytes)
    requires |p| <= MAX_FRAME_SIZE
    ensures AllFrames(Frame(p) + rest) == [p] + AllFrames(rest)
    ensures StopsWith(Frame(p) + rest) == StopsWith(rest)
  {
    FrameReadBackExactly(p, rest);
  }

  /** How many whole frames fit in the first k bytes. */
  function WholeFrames(ps: seq<Bytes>, k: nat): (j: nat)
    ensures j <= |ps|
  {
    if ps == [] || k < |Frame(ps[0])| then 0 else 1 + WholeFrames(ps[1..], k - |Frame(ps[0])|)
  }

  lemma CutBehind(a: Bytes, b: Bytes, k: nat)
    requires |a| <= k <= |a| + |b|
    ensures (a + b)[..k] == a + b[..k - |a|]
  {
  }

  lemma CutBehindFirst(ps: seq<Bytes>, k: nat)
    requires AllFit(ps) && ps != [] && |Frame(ps[0])| <= k <= |Join(ps)|
    ensures var more := Join(ps[1..])[..k - |Frame(ps[0])|];
            && AllFrames(Join(ps)[..k]) == [ps[0]] + AllFrames(more)
            && StopsWith(Join(ps)[..k]) == StopsWith(more)
  {
    CutBehind(Frame(ps[0]), Join(ps[1..]), k);
    OneFrameReadBack(ps[0], Join(ps[1..])[..k - |Frame(ps[0])|]);
  }

  /** Cut the stream anywhere: the reader returns exactly the frames that are
      whole, then an error, and never a piece of the frame that was cut. */
  lemma {:induction false} CutStream(ps: seq<Bytes>, k: nat)
    requires AllFit(ps) && k <= |Join(ps)|
    ensures AllFrames(Join(ps)[..k]) == ps[..WholeFrames(ps, k)]
    ensures StopsWith(Join(ps)[..k]) == EndOfStream
  {
    if ps == [] {
    } else if k < |Frame(ps[0])| {
      CutFrameIsNoFrame(ps[0], k);
      assert Join(ps)[..k] == Frame(ps[0])[..k];
    } else {
      var n := |Frame(ps[0])|;
      CutBehindFirst(ps, k);
      CutStream(ps[1..], k - n);
      var j := WholeFrames(ps[1..], k - n);
      assert ps[..1 + j] == [ps[0]] + ps[1..][..j];
    }
  }

  lemma {:induction false} WholeFramesIsMaximal(ps: seq<Bytes>, k: nat)
    requires k <= |Join(ps)|
    ensures var j := WholeFrames(ps, k);
            && |Join(ps[..j])| <= k
            && (j < |ps| ==> k < |Join(ps[..j + 1])|)
  {
    if ps == [] {
    } else if k < |Frame(ps[0])| {
      assert ps[..1] == [ps[0]] && ps[..1][1..] == [];
    } else {
      var n := |Frame(ps[0])|;
      WholeFramesIsMaximal(ps[1..], k - n);
      var j := WholeFrames(ps[1..], k - n);
      assert ps[..1 + j][1..] == ps[1..][..j];
      if j < |ps| - 1 {
        assert ps[..j + 2][1..] == ps[1..][..j + 1];
      }
    }
  }

  /** The reader's loop against every way of sending a list of payloads: cut at
      any byte, split into any non-empty reads. */
  method ReadSplitStream(ps: seq<Bytes>, k: nat, arrivals: Arrivals) returns (payloads: seq<Bytes>, error: FrameError)
    requires AllFit(ps) && k <= |Join(ps)|
    requires NonEmptyReads(arrivals) && Concat(arrivals) == Join(ps)[..k]
    ensures payloads == ps[..WholeFrames(ps, k)] && error == EndOfStream
    ensures k == |Join(ps)| ==> payloads == ps
  {
    CutStream(ps, k);
    WholeFramesIsMaximal(ps, k);
    var stream := new Stream(arrivals);
    payloads, error := stream.ReadFrames();
    assert ps[..|ps|] == ps;
    assert Join(ps)[..|Join(ps)|] == Join(ps);
    if k == |Join(ps)| && |payloads| < |ps| {
      PrefixIsShorter(ps, |payloads| + 1);
      assert false;
    }
  }

  lemma {:induction false} PrefixIsShorter(ps: seq<Bytes>, j: nat)
    requires j <= |ps|
    ensures |Join(ps[..j])| <= |Join(ps)|
  {
    if j > 0 {
      PrefixIsShorter(ps[1..], j - 1);
      assert ps[..j][1..] == ps[1..][..j - 1];
    }
  }

  /** A payload accepted at one hop is framed and accepted at the next. */
  lemma HopStaysWithinFrame(p: Bytes, rest: Bytes)
    requires |p| <= MAX_FRAME_SIZE && Decode(p).Ok?
    ensures var m := Decode(p).value;
            && FirstFrame(Frame(Payload(m)) + rest) == Ok((Payload(m), rest))
            && Decode(Payload(m)) == Ok(m)
  {
    HopNormalises(p);
    FrameReadBackExactly(Payload(Decode(p).value), rest);
  }

  // ---------------------------------------------------------------------
  // Direct RPC frames

  function Zeros(n: nat): (z: Bytes)
    ensures |z| == n && forall i :: 0 <= i < n ==> z[i] == 0
  {
    if n == 0 then [] else Zeros(n - 1) + [0]
  }

  /** readRpcFrame on the arrivals: the payload and what is left to read. */
  function FirstRpcFrame(a: Arrivals): (Result<Bytes, FrameError>, Arrivals) {
    if a == [] then (Err(EndOfStream), a)
    else
      var k := Min(4, |a[0]|);
      var length := Value(a[0][..k] + Zeros(4 - k));
      var body := DropBytes(a, k);
      if length <= 0 || length > MAX_RPC_FRAME_SIZE then (Err(OutOfRange), body)
      else if |Concat(body)| < length then (Err(EndOfStream), body)
      else (Ok(Concat(body)[..length]), DropBytes(body, length))
  }

  ghost predicate ReadsCleanly(a: Arrivals, p: Bytes, rest: Bytes) {
    FirstRpcFrame(a).0 == Ok(p) && Concat(FirstRpcFrame(a).1) == rest
  }

  lemma {:induction false} ValueOfJoin(a: Bytes, b: Bytes)
    ensures Value(a + b) == Value(a) * Range(|b|) + Value(b)
  {
    if b == [] {
      assert a + b == a;
    } else {
      var init, last := b[..|b| - 1], b[|b| - 1] as int;
      ValueOfJoin(a, init);
      assert (a + b)[..|a + b| - 1] == a + init && (a + b)[|a + b| - 1] as int == last;
      assert (Value(a) * Range(|init|) + Value(init)) * 0x100 == Value(a) * (Range(|init|) * 0x100) + Value(init) * 0x100;
    }
  }

  lemma {:induction false} ValueOfZeros(n: nat)
    ensures Value(Zeros(n)) == 0
  {
    if n > 0 {
      ValueOfZeros(n - 1);
      assert Zeros(n)[..n - 1] == Zeros(n - 1);
    }
  }

  /** The length that is announced when only the first k bytes of the header are
      in, the others counting as zero. */
  function Announced(p: Bytes, k: nat): nat
    requires k <= 4
  {
    Value(Frame(p)[..k]) * Range(4 - k)
  }

  lemma ValueBounds(a: Bytes, b: Bytes)
    ensures Value(a) * Range(|b|) <= Value(a + b) < Value(a) * Range(|b|) + Range(|b|)
  {
    ValueOfJoin(a, b);
    BigEndianOfValue(b);
  }

  /** It falls short of the true length by less than the missing bytes can say. */
  lemma AnnouncedTooSmall(p: Bytes, k: nat)
    requires k <= 4 && |p| < 0x1_0000_0000
    ensures Announced(p, k) <= |p| < Announced(p, k) + Range(4 - k)
  {
    var h := Frame(p)[..4];
    var a, b := h[..k], h[k..];
    assert a + b == h && a == Frame(p)[..k];
    HeaderValue(p);
    ValueBounds(a, b);
  }

  lemma CutHeaderAnnounces(a: Arrivals, p: Bytes, rest: Bytes)
    requires a != [] && Concat(a) == Frame(p) + rest && |a[0]| < 4
    ensures Value(a[0][..|a[0]|] + Zeros(4 - |a[0]|)) == Announced(p, |a[0]|)
  {
    var k := |a[0]|;
    assert a[0][..k] == Concat(a)[..k] == Frame(p)[..k];
    ValueOfJoin(a[0][..k], Zeros(4 - k));
    ValueOfZeros(4 - k);
  }

  lemma ReadsLength(a: Arrivals, k: nat, n: nat)
    requires a != [] && k == Min(4, |a[0]|) && n == Value(a[0][..k] + Zeros(4 - k))
    requires n <= MAX_RPC_FRAME_SIZE && n <= |Concat(DropBytes(a, k))|
    ensures var body := DropBytes(a, k);
            FirstRpcFrame(a) == if n == 0 then (Err(OutOfRange), body) else (Ok(Concat(body)[..n]), DropBytes(body, n))
  {
  }

  lemma CutTwice(s: Bytes, k: nat, n: nat)
    requires k + n <= |s|
    ensures s[k..][..n] == s[k..k + n] && s[k..][n..] == s[k + n..]
  {
  }

  /** Having found k header bytes and been told n: no payload, or the n bytes
      that follow, with the stream left behind them. */
  ghost predicate ReadsBehind(a: Arrivals, k: nat, n: nat) {
    && k + n <= |Concat(a)|
    && FirstRpcFrame(a).0 == (if n == 0 then Err(OutOfRange) else Ok(Concat(a)[k..k + n]))
    && (n > 0 ==> Concat(FirstRpcFrame(a).1) == Concat(a)[k + n..])
  }

  lemma ReadsAnnounced(a: Arrivals, k: nat, n: nat)
    requires a != [] && k == Min(4, |a[0]|) && n == Value(a[0][..k] + Zeros(4 - k))
    requires n <= MAX_RPC_FRAME_SIZE && k + n <= |Concat(a)|
    ensures ReadsBehind(a, k, n)
  {
    ConcatDropBytes(a, k);
    ReadsLength(a, k, n);
    ConcatDropBytes(DropBytes(a, k), n);
    CutTwice(Concat(a), k, n);
  }

  /** What a cut header leads to, exactly: an error if the bytes that are in are
      all zero, and otherwise a wrong payload that starts with the rest of the
      header. */
  lemma CutHeaderReads(a: Arrivals, p: Bytes, rest: Bytes)
    requires NonEmptyReads(a) && Concat(a) == Frame(p) + rest
    requires 1 <= |p| <= MAX_RPC_FRAME_SIZE && |a[0]| < 4
    ensures Announced(p, |a[0]|) <= |p| < Announced(p, |a[0]|) + Range(4 - |a[0]|)
    ensures ReadsBehind(a, |a[0]|, Announced(p, |a[0]|))
  {
    var k := |a[0]|;
    AnnouncedTooSmall(p, k);
    CutHeaderAnnounces(a, p, rest);
    assert |Concat(a)| == 4 + |p| + |rest|;
    ReadsAnnounced(a, k, Announced(p, k));
  }

  lemma WholeHeaderReadsCleanly(a: Arrivals, p: Bytes, rest: Bytes)
    requires NonEmptyReads(a) && Concat(a) == Frame(p) + rest
    requires 1 <= |p| <= MAX_RPC_FRAME_SIZE && |a[0]| >= 4
    ensures ReadsCleanly(a, p, rest)
  {
    HeaderValue(p);
    assert a[0][..4] + Zeros(0) == Concat(a)[..4] == Frame(p)[..4];
    ReadsAnnounced(a, 4, |p|);
    assert Concat(a)[4..4 + |p|] == p && Concat(a)[4 + |p|..] == rest;
  }

  lemma CutHeaderStopsShort(a: Arrivals, p: Bytes, rest: Bytes)
    requires NonEmptyReads(a) && Concat(a) == Frame(p) + rest
    requires 1 <= |p| <= MAX_RPC_FRAME_SIZE && |a[0]| < 4
    ensures !ReadsCleanly(a, p, rest)
  {
    CutHeaderReads(a, p, rest);
    assert |Concat(a)| == 4 + |p| + |rest|;
  }

  /** One frame of 1 byte to 1 MiB is read, and the stream left right behind
      it, exactly when its header arrives in one piece. */
  lemma RpcFrameExactly(a: Arrivals, p: Bytes, rest: Bytes)
    requires NonEmptyReads(a) && Concat(a) == Frame(p) + rest
    requires 1 <= |p| <= MAX_RPC_FRAME_SIZE
    ensures ReadsCleanly(a, p, rest) <==> |a[0]| >= 4
  {
    if |a[0]| >= 4 {
      WholeHeaderReadsCleanly(a, p, rest);
    } else {
      CutHeaderStopsShort(a, p, rest);
    }
  }

  /** With its header in one piece, a direct frame is refused exactly if it is
      empty or over 1 MiB, and ends with the stream if its payload does. */
  lemma RpcFrameRefusedExactly(a: Arrivals)
    requires a != [] && |a[0]| >= 4
    ensures FirstRpcFrame(a).0 == Err(OutOfRange) <==> Value(a[0][..4]) == 0 || Value(a[0][..4]) > 1_048_576
    ensures FirstRpcFrame(a).0 == Err(EndOfStream) <==>
              1 <= Value(a[0][..4]) <= 1_048_576 && |Concat(a)| < 4 + Value(a[0][..4])
  {
    assert a[0][..4] + Zeros(0) == a[0][..4];
    ConcatDropBytes(a, 4);
  }

  /** Reading a list of frames, each one cleanly. */
  ghost predicate AllReadCleanly(a: Arrivals, ps: seq<Bytes>)
    decreases |ps|
  {
    ps == [] ||
    (ReadsCleanly(a, ps[0], Join(ps[1..])) && AllReadCleanly(FirstRpcFrame(a).1, ps[1..]))
  }

  /** No header of the list is cut: a property of the arrivals alone. */
  ghost predicate HeadersWhole(a: Arrivals, ps: seq<Bytes>)
    decreases |ps|
  {
    ps == [] ||
    (a != [] && |a[0]| >= 4 && HeadersWhole(DropBytes(a, |Frame(ps[0])|), ps[1..]))
  }

  lemma {:induction false} RpcStreamExactly(a: Arrivals, ps: seq<Bytes>)
    requires NonEmptyReads(a) && Concat(a) == Join(ps)
    requires forall i :: 0 <= i < |ps| ==> 1 <= |ps[i]| <= MAX_RPC_FRAME_SIZE
    ensures AllReadCleanly(a, ps) <==> HeadersWhole(a, ps)
    decreases |ps|
  {
    if ps != [] {
      var p := ps[0];
      RpcFrameExactly(a, p, Join(ps[1..]));
      if |a[0]| >= 4 {
        HeaderValue(p);
        assert a[0][..4] + Zeros(0) == Concat(a)[..4] == Frame(p)[..4];
        DropBytesTwice(a, 4, |p|);
        var next := FirstRpcFrame(a).1;
        assert next == DropBytes(a, |Frame(p)|);
        DropBytesNonEmpty(a, |Frame(p)|);
        RpcStreamExactly(next, ps[1..]);
      }
    }
  }

  /** A header cut after one byte is always an error, whatever comes behind. */
  lemma RpcHeaderCutFails(a: Arrivals, p: Bytes, rest: Bytes)
    requires NonEmptyReads(a) && Concat(a) == Frame(p) + rest
    requires 1 <= |p| <= MAX_RPC_FRAME_SIZE && |a[0]| == 1
    ensures FirstRpcFrame(a).0 == Err(OutOfRange)
  {
    CutHeaderReads(a, p, rest);
    assert Range(1) == 0x100 && Range(2) == 0x1_0000 && Range(3) == 0x100_0000;
  }
}
