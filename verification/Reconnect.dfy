/** The client's connection state and its background reconnect worker
    (internal/VirtualRouterClient/client.go). One step is one method, or one
    turn of the worker's loop together with the wait that ends it. */
module Reconnect {
  import opened Basics

  type Socket = nat

  /** `workers` counts reconnect goroutines that have not returned; `stopped`
      says that the stop channel is closed. */
  datatype Client = Client(
    needConnect: bool,
    isOpen: bool,
    reconnectAttempt: bool,
    conn: Option<Socket>,
    workers: nat,
    stopped: bool)

  const NEW_CLIENT := Client(false, false, false, None, 0, false)

  datatype Action =
    | Start(initialized: bool, dial: Option<Socket>)
    | Lost
    | Turn(dial: Option<Socket>, sawStop: bool)
    | Shutdown

  // ---------------------------------------------------------------------
  // The steps

  function StartWorker(c: Client): Client {
    if !c.needConnect || c.reconnectAttempt then c
    else c.(reconnectAttempt := true, workers := c.workers + 1)
  }

  function Quit(c: Client): Client
    requires c.workers > 0
  {
    c.(reconnectAttempt := false, workers := c.workers - 1)
  }

  function Step(c: Client, a: Action): Client
    requires Enabled(c, a)
  {
    match a
    case Start(initialized, dial) =>
      if !initialized || c.needConnect then c
      else if dial.Some? then c.(needConnect := true, conn := dial, isOpen := true)
      else StartWorker(c.(needConnect := true))
    case Lost =>
      if !c.needConnect then c else StartWorker(c.(isOpen := false, conn := None))
    case Turn(dial, sawStop) =>
      if !c.needConnect then Quit(c)
      else if !c.isOpen && dial.Some? then Quit(c.(conn := dial, isOpen := true))
      else if sawStop then Quit(c)
      else c
    case Shutdown =>
      c.(needConnect := false, isOpen := false, stopped := true, conn := None)
  }

  /** A worker turn needs a worker, only a closed stop channel is seen closed,
      and closing it a second time panics. */
  predicate Enabled(c: Client, a: Action) {
    && (a.Turn? ==> c.workers > 0 && (a.sawStop ==> c.stopped))
    && (a.Shutdown? ==> !c.stopped)
  }

  ghost predicate IsPath(path: seq<Client>, acts: seq<Action>) {
    && |path| == |acts| + 1
    && forall i :: 0 <= i < |acts| ==> Enabled(path[i], acts[i]) && path[i + 1] == Step(path[i], acts[i])
  }

  ghost predicate IsRun(run: seq<Client>, acts: seq<Action>) {
    IsPath(run, acts) && run[0] == NEW_CLIENT
  }

  // ---------------------------------------------------------------------
  // The object

  class RouterClient {
    var needConnect: bool
    var isOpen: bool
    var reconnectAttempt: bool
    var conn: Option<Socket>
    var stopped: bool
    var workers: nat

    constructor ()
      ensures View() == NEW_CLIENT
    {
      needConnect, isOpen, reconnectAttempt, conn, stopped, workers := false, false, false, None, false, 0;
    }

    function View(): Client
      reads this
    {
      Client(needConnect, isOpen, reconnectAttempt, conn, workers, stopped)
    }

    /** net.Dial is the parameter: the new socket, or nothing. */
    method TryConnect(dial: Option<Socket>) returns (ok: bool)
      modifies this`conn
      ensures ok == dial.Some?
      ensures conn == if ok then dial else old(conn)
    {
      if dial.None? {
        return false;
      }
      CloseConn();
      conn := dial;
      ok := true;
    }

    method CloseConn()
      modifies this`conn
      ensures conn == None
    {
      if conn.Some? {
        conn := None;
      }
    }

    method StartBackgroundReconnect()
      modifies this`reconnectAttempt, this`workers
      ensures View() == StartWorker(old(View()))
    {
      if !needConnect {
        return;
      }
      if reconnectAttempt {
        return;
      }
      reconnectAttempt := true;
      workers := workers + 1;
    }

    method StartClient(initialized: bool, dial: Option<Socket>)
      modifies this
      ensures View() == Step(old(View()), Start(initialized, dial))
      ensures initialized && !old(needConnect) && dial.Some? ==> isOpen && conn == dial
    {
      if !initialized {
        return;
      }
      if needConnect {
        return;
      }
      needConnect := true;
      var ok := TryConnect(dial);
      if ok {
        isOpen := true;
        return;
      }
      StartBackgroundReconnect();
    }

    method OnConnectionLost()
      modifies this
      ensures View() == Step(old(View()), Lost)
    {
      if !needConnect {
        return;
      }
      isOpen := false;
      CloseConn();
      StartBackgroundReconnect();
    }

    method WorkerTurn(dial: Option<Socket>, sawStop: bool)
      requires Enabled(View(), Turn(dial, sawStop))
      modifies this
      ensures View() == Step(old(View()), Turn(dial, sawStop))
      ensures needConnect && !old(isOpen) && dial.Some? ==> isOpen && conn == dial && workers == old(workers) - 1
    {
      var done := true;
      if needConnect {
        var connected := false;
        if !isOpen {
          connected := TryConnect(dial);
          if connected {
            isOpen := true;
          }
        }
        done := connected || sawStop;
      }
      if done {
        reconnectAttempt := false;
        workers := workers - 1;
      }
    }

    method ShutdownClient()
      requires Enabled(View(), Shutdown)
      modifies this
      ensures View() == Step(old(View()), Shutdown)
    {
      needConnect := false;
      isOpen := false;
      stopped := true;
      CloseConn();
    }
  }

  // ---------------------------------------------------------------------
  // What each step leads to

  /** Start does nothing before stubs are registered or when started already. Else
      a good dial opens the client, and a failed one leaves a worker to it. */
  lemma StartLeadsTo(c: Client, initialized: bool, dial: Option<Socket>)
    ensures var d := Step(c, Start(initialized, dial));
            && (!initialized || c.needConnect ==> d == c)
            && (initialized && !c.needConnect ==>
                  && d.needConnect && d.stopped == c.stopped
                  && (dial.Some? ==> d.isOpen && d.conn == dial && d.workers == c.workers)
                  && (dial.None? ==> d.isOpen == c.isOpen && d.conn == c.conn && d.reconnectAttempt)
                  && (dial.None? ==> d.workers == (if c.reconnectAttempt then c.workers else c.workers + 1)))
  {
  }

  /** A worker that finds the client wanted and closed opens it with a good dial
      and is done, whether or not it could see the stop channel closed; after a
      failed dial it goes on, unless it sees that; and it is done when the client
      is not wanted any more, without dialling. */
  lemma TurnLeadsTo(c: Client, dial: Option<Socket>, sawStop: bool)
    requires Inv(c) && Enabled(c, Turn(dial, sawStop))
    ensures var d := Step(c, Turn(dial, sawStop));
            && d.needConnect == c.needConnect && d.stopped == c.stopped
            && (!c.needConnect ==> d.workers == 0 && !d.isOpen && d.conn == c.conn)
            && (c.needConnect && !c.isOpen && dial.Some? ==> d.isOpen && d.conn == dial && d.workers == 0)
            && (c.needConnect && !c.isOpen && dial.None? && sawStop ==> !d.isOpen && d.conn == c.conn && d.workers == 0)
            && (c.needConnect && !sawStop && (c.isOpen || dial.None?) ==> d == c)
            && (c.needConnect && c.isOpen && sawStop ==> d.isOpen && d.conn == c.conn && d.workers == 0)
  {
  }

  /** A lost connection closes a client that is wanted and leaves it to exactly
      one worker; one that is shut down stays as it is. */
  lemma LostLeadsTo(c: Client)
    requires Inv(c)
    ensures var d := Step(c, Lost);
            && (c.needConnect ==> d.needConnect && !d.isOpen && d.conn == None && d.workers == 1 && d.stopped == c.stopped)
            && (!c.needConnect ==> d == c)
  {
  }

  /** Shutdown closes the client for good; a worker that is there ends by itself
      at its next turn. */
  lemma ShutdownLeadsTo(c: Client, dial: Option<Socket>, sawStop: bool)
    requires Inv(c) && Enabled(c, Shutdown)
    ensures var d := Step(c, Shutdown);
            && !d.needConnect && !d.isOpen && d.conn == None && d.stopped && d.workers == c.workers
            && (d.workers == 1 ==> Enabled(d, Turn(dial, sawStop)) && Step(d, Turn(dial, sawStop)).workers == 0)
  {
  }

  /** From here, without another Start, the client can come to be open. */
  ghost predicate CanOpen(c: Client) {
    exists path, acts :: Opens(c, path, acts)
  }

  ghost predicate Opens(c: Client, path: seq<Client>, acts: seq<Action>) {
    IsPath(path, acts) && path[0] == c && path[|acts|].isOpen && forall k :: 0 <= k < |acts| ==> !acts[k].Start?
  }

  lemma {:induction false} UnwantedStaysClosed(path: seq<Client>, acts: seq<Action>, i: nat)
    requires IsPath(path, acts) && i < |path| && !path[0].needConnect && !path[0].isOpen
    requires forall k :: 0 <= k < |acts| ==> !acts[k].Start?
    ensures !path[i].needConnect && !path[i].isOpen
  {
    if i > 0 {
      UnwantedStaysClosed(path, acts, i - 1);
      assert path[i] == Step(path[i - 1], acts[i - 1]);
    }
  }

  /** A closed client with a worker can come to be open without another Start if
      and only if it is still wanted: one good dial is enough. */
  lemma OpensExactly(run: seq<Client>, acts: seq<Action>, i: nat)
    requires IsRun(run, acts) && i < |run| && !run[i].isOpen && run[i].workers > 0
    ensures CanOpen(run[i]) <==> run[i].needConnect
  {
    var c := run[i];
    RunKeeps(run, acts, i);
    if c.needConnect {
      var path, more := OneGoodDial(c, 0);
    }
    if CanOpen(c) {
      var path, more :| Opens(c, path, more);
      if !c.needConnect {
        UnwantedStaysClosed(path, more, |more|);
      }
    }
  }

  lemma OneGoodDial(c: Client, k: Socket) returns (path: seq<Client>, acts: seq<Action>)
    requires Inv(c) && c.needConnect && !c.isOpen && c.workers > 0
    ensures Opens(c, path, acts) && acts == [Turn(Some(k), false)] && path[1].conn == Some(k)
  {
    TurnLeadsTo(c, Some(k), false);
    path, acts := [c, Step(c, Turn(Some(k), false))], [Turn(Some(k), false)];
  }

  // ---------------------------------------------------------------------
  // Over whole runs

  ghost predicate Inv(c: Client) {
    && (c.reconnectAttempt <==> c.workers == 1) && c.workers <= 1
    && (c.isOpen ==> c.conn.Some? && c.needConnect)
    && (c.needConnect && !c.stopped ==> c.isOpen || c.workers == 1)
  }

  lemma {:induction false} PathKeeps(path: seq<Client>, acts: seq<Action>, i: nat)
    requires IsPath(path, acts) && Inv(path[0]) && i < |path|
    ensures Inv(path[i])
  {
    if i > 0 {
      PathKeeps(path, acts, i - 1);
      assert path[i] == Step(path[i - 1], acts[i - 1]);
    }
  }

  lemma RunKeeps(run: seq<Client>, acts: seq<Action>, i: nat)
    requires IsRun(run, acts) && i < |run|
    ensures Inv(run[i])
  {
    PathKeeps(run, acts, i);
  }

  /** The flag is up exactly while a worker is alive, and there is never more
      than one; an open client has a connection. */
  lemma OneWorker(run: seq<Client>, acts: seq<Action>, i: nat)
    requires IsRun(run, acts) && i < |run|
    ensures (run[i].reconnectAttempt <==> run[i].workers == 1) && run[i].workers <= 1
    ensures run[i].isOpen ==> run[i].conn.Some?
  {
    RunKeeps(run, acts, i);
  }

  ghost predicate ShutBefore(acts: seq<Action>, i: nat) {
    exists k :: 0 <= k < i <= |acts| && acts[k] == Shutdown
  }

  lemma {:induction false} StoppedMeansShutdown(run: seq<Client>, acts: seq<Action>, i: nat)
    requires IsRun(run, acts) && i < |run|
    ensures run[i].stopped <==> ShutBefore(acts, i)
  {
    if i > 0 {
      StoppedMeansShutdown(run, acts, i - 1);
      assert run[i] == Step(run[i - 1], acts[i - 1]);
      if ShutBefore(acts, i - 1) {
        var k :| 0 <= k < i - 1 <= |acts| && acts[k] == Shutdown;
        assert ShutBefore(acts, i);
      }
    }
  }

  lemma {:induction false} StaysStarted(run: seq<Client>, acts: seq<Action>, i: nat, j: nat)
    requires IsRun(run, acts) && i <= j < |run| && run[i].needConnect
    requires forall k :: i <= k < j ==> !acts[k].Shutdown?
    ensures run[j].needConnect
    decreases j - i
  {
    if i < j {
      StaysStarted(run, acts, i, j - 1);
      assert run[j] == Step(run[j - 1], acts[j - 1]);
    }
  }

  /** From a good Start until the first Shutdown the client is open with a
      connection, or a worker is there to open it. */
  lemma StartedIsOpenOrTrying(run: seq<Client>, acts: seq<Action>, i: nat, j: nat)
    requires IsRun(run, acts) && i < j < |run|
    requires acts[i].Start? && acts[i].initialized
    requires forall k :: 0 <= k < j ==> !acts[k].Shutdown?
    ensures (run[j].isOpen && run[j].conn.Some?) || run[j].workers == 1
  {
    assert run[i + 1] == Step(run[i], acts[i]);
    StaysStarted(run, acts, i + 1, j);
    RunKeeps(run, acts, j);
    StoppedMeansShutdown(run, acts, j);
  }

  /** After Shutdown the client stays closed until somebody calls Start again. */
  lemma {:induction false} ShutdownIsFinalUntilStart(run: seq<Client>, acts: seq<Action>, i: nat, j: nat)
    requires IsRun(run, acts) && i < j < |run| && acts[i].Shutdown?
    requires forall k :: i < k < j ==> !acts[k].Start?
    ensures !run[j].isOpen && !run[j].needConnect && run[j].conn == None
    decreases j - i
  {
    assert run[j] == Step(run[j - 1], acts[j - 1]);
    if i < j - 1 {
      ShutdownIsFinalUntilStart(run, acts, i, j - 1);
    }
  }

  /** A Start after Shutdown does open the client again: the condition above
      cannot be dropped. */
  lemma StartReopensAfterShutdown(socket: Socket) returns (run: seq<Client>, acts: seq<Action>)
    ensures IsRun(run, acts) && |acts| == 2 && acts[0] == Shutdown && run[2].isOpen
  {
    acts := [Shutdown, Start(true, Some(socket))];
    var c1 := Step(NEW_CLIENT, acts[0]);
    run := [NEW_CLIENT, c1, Step(c1, acts[1])];
  }

  ghost predicate Stranded(c: Client) {
    c.needConnect && !c.isOpen && c.workers == 0
  }

  /** From here, lost connections, worker turns and calls of Start alone can
      leave the client wanting a connection with nobody working on it. */
  ghost predicate CanStrand(c: Client) {
    exists path, acts :: Strands(c, path, acts)
  }

  ghost predicate Strands(c: Client, path: seq<Client>, acts: seq<Action>) {
    && IsPath(path, acts) && path[0] == c && Stranded(path[|acts|])
    && Shutdown !in acts
  }

  lemma {:induction false} StopStays(path: seq<Client>, acts: seq<Action>, i: nat)
    requires IsPath(path, acts) && i < |path| && Shutdown !in acts
    ensures path[i].stopped == path[0].stopped
  {
    if i > 0 {
      StopStays(path, acts, i - 1);
      assert path[i] == Step(path[i - 1], acts[i - 1]);
    }
  }

  lemma OneTurnStrands(c: Client)
    requires Inv(c) && c.needConnect && c.stopped && !c.isOpen && !Stranded(c)
    ensures Enabled(c, Turn(None, true)) && Stranded(Step(c, Turn(None, true)))
  {
  }

  lemma LostLeavesWorker(c: Client)
    requires Inv(c) && c.needConnect && c.stopped
    ensures var d := Step(c, Lost); Inv(d) && d.needConnect && d.stopped && !d.isOpen && !Stranded(d)
  {
  }

  /** Once the stop channel is closed, at most a lost connection and one turn of
      the worker are needed. */
  lemma StoppedStrands(c: Client) returns (path: seq<Client>, acts: seq<Action>)
    requires Inv(c) && c.needConnect && c.stopped
    ensures Strands(c, path, acts) && |acts| <= 2
  {
    if Stranded(c) {
      path, acts := [c], [];
    } else {
      path, acts := LostThenTurn(c);
    }
  }

  lemma LostThenTurn(c: Client) returns (path: seq<Client>, acts: seq<Action>)
    requires Inv(c) && c.needConnect && c.stopped
    ensures Strands(c, path, acts) && |acts| == 2
  {
    LostLeavesWorker(c);
    var lost := Step(c, Lost);
    OneTurnStrands(lost);
    var left := Step(lost, Turn(None, true));
    path, acts := [c, lost, left], [Lost, Turn(None, true)];
    forall i | 0 <= i < 2 ensures Enabled(path[i], acts[i]) && path[i + 1] == Step(path[i], acts[i]) {
      if i == 0 {
        assert path[1] == Step(path[0], acts[0]);
      } else {
        assert path[2] == Step(path[1], acts[1]);
      }
    }
  }

  /** A started client can end up wanting a connection with nobody working on
      it, without being shut down again, exactly if its stop channel is closed:
      that is, exactly if it was restarted after a Shutdown. */
  lemma StrandedExactly(run: seq<Client>, acts: seq<Action>, i: nat)
    requires IsRun(run, acts) && i < |run| && run[i].needConnect
    ensures CanStrand(run[i]) <==> run[i].stopped
    ensures run[i].stopped <==> ShutBefore(acts, i)
    ensures Stranded(run[i]) ==> ShutBefore(acts, i)
  {
    var c := run[i];
    RunKeeps(run, acts, i);
    StoppedMeansShutdown(run, acts, i);
    if c.stopped {
      var path, more := StoppedStrands(c);
    }
    if CanStrand(c) {
      var path, more :| Strands(c, path, more);
      StopStays(path, more, |more|);
      PathKeeps(path, more, |more|);
    }
  }

  /** The shortest such run: a restarted client whose first dial fails gets a
      worker that leaves at once, because the stop channel is still closed. */
  lemma RestartCanStrand() returns (run: seq<Client>, acts: seq<Action>)
    ensures IsRun(run, acts) && Stranded(run[|acts|])
    ensures |acts| == 3 && acts[0] == Shutdown && acts[1] == Start(true, None) && acts[2] == Turn(None, true)
  {
    var down := NEW_CLIENT.(stopped := true);
    var trying := down.(needConnect := true, reconnectAttempt := true, workers := 1);
    var stranded := trying.(reconnectAttempt := false, workers := 0);
    run, acts := [NEW_CLIENT, down, trying, stranded], [Shutdown, Start(true, None), Turn(None, true)];
    forall i | 0 <= i < 3 ensures Enabled(run[i], acts[i]) && run[i + 1] == Step(run[i], acts[i]) {
      if i == 0 {
        assert Step(NEW_CLIENT, Shutdown) == down;
      } else if i == 1 {
        assert Step(down, Start(true, None)) == trying;
      } else {
        assert Step(trying, Turn(None, true)) == stranded;
      }
    }
  }

  // ---------------------------------------------------------------------
  // The delay between attempts

  const MILLISECOND := 1_000_000
  const MAX_DELAY := 60_000 * MILLISECOND
  const INT64_RANGE := 0x1_0000_0000_0000_0000

  type Int64 = n: int | -INT64_RANGE / 2 <= n < INT64_RANGE / 2

  /** Go's int64 arithmetic. */
  function Wrap64(n: int): Int64 {
    var low := n % INT64_RANGE;
    if low < INT64_RANGE / 2 then low else low - INT64_RANGE
  }

  function BaseMs(reconnectIntervalMs: Int64): (ms: Int64)
    ensures ms >= 1
  {
    if reconnectIntervalMs <= 0 then 10_000 else reconnectIntervalMs
  }

  /** What the loop returns with n doublings to go, wrap-around included. */
  function DelayAfter(delay: Int64, n: nat): Int64
    decreases n
  {
    if n == 0 then Min(MAX_DELAY, delay)
    else
      var doubled := Wrap64(delay * 2);
      if doubled >= MAX_DELAY then MAX_DELAY else DelayAfter(doubled, n - 1)
  }

  /** The delay before the first doubling, as int64 arithmetic gives it. */
  function Base(reconnectIntervalMs: Int64): Int64 {
    Wrap64(BaseMs(reconnectIntervalMs) * MILLISECOND)
  }

  function Delay(reconnectIntervalMs: Int64, attempt: int): Int64 {
    if attempt <= 1 then Base(reconnectIntervalMs) else DelayAfter(Base(reconnectIntervalMs), attempt - 1)
  }

  /** Doubling from the base, capped; the first attempt is not capped. */
  function Backoff(base: nat, attempt: int): nat {
    if attempt <= 1 then base else Min(MAX_DELAY, base * Pow2(attempt - 1))
  }

  lemma {:induction false} Pow2Grows(m: nat, n: nat)
    requires m <= n
    ensures 1 <= Pow2(m) <= Pow2(n)
    decreases n
  {
    if m < n {
      Pow2Grows(m, n - 1);
    } else if n > 0 {
      Pow2Grows(m - 1, n - 1);
    }
  }

  function Doubled(base: nat, n: nat): nat {
    if n == 0 then base else 2 * Doubled(base, n - 1)
  }

  lemma {:induction false} DoubledGrows(base: nat, m: nat, n: nat)
    requires m <= n
    ensures Doubled(base, m) <= Doubled(base, n)
    decreases n
  {
    if m < n {
      DoubledGrows(base, m, n - 1);
    }
  }

  lemma {:induction false} DoubledFirst(base: nat, n: nat)
    requires n > 0
    ensures Doubled(base, n) == Doubled(base * 2, n - 1)
  {
    if n > 1 {
      DoubledFirst(base, n - 1);
    }
  }

  lemma {:induction false} DoubledIsScaled(base: nat, n: nat)
    ensures Doubled(base, n) == base * Pow2(n)
  {
    if n > 0 {
      DoubledIsScaled(base, n - 1);
      assert base * Pow2(n) == 2 * (base * Pow2(n - 1));
    }
  }

  lemma {:induction false} DelayAfterDoubles(base: Int64, n: nat)
    requires 1 <= base < INT64_RANGE / 4
    ensures DelayAfter(base, n) == Min(MAX_DELAY, Doubled(base, n))
    decreases n
  {
    if n > 0 {
      assert Wrap64(base * 2) == base * 2;
      DoubledFirst(base, n);
      if base * 2 >= MAX_DELAY {
        DoubledGrows(base * 2, 0, n - 1);
      } else {
        DelayAfterDoubles(base * 2, n - 1);
      }
    }
  }

  /** The interval is below 2^62 ns, so it can be doubled once in an int64. */
  predicate Doubles(reconnectIntervalMs: Int64) {
    BaseMs(reconnectIntervalMs) * MILLISECOND < INT64_RANGE / 4
  }

  lemma BaseFits(reconnectIntervalMs: Int64)
    requires Doubles(reconnectIntervalMs)
    ensures Base(reconnectIntervalMs) == BaseMs(reconnectIntervalMs) * MILLISECOND
    ensures MILLISECOND <= Base(reconnectIntervalMs) < INT64_RANGE / 4
  {
  }

  lemma DelayIsBackoff(reconnectIntervalMs: Int64, attempt: int)
    requires Doubles(reconnectIntervalMs)
    ensures Delay(reconnectIntervalMs, attempt) == Backoff(BaseMs(reconnectIntervalMs) * MILLISECOND, attempt)
  {
    BaseFits(reconnectIntervalMs);
    if attempt >= 2 {
      BackoffOf(Base(reconnectIntervalMs), attempt);
    }
  }

  lemma BackoffOf(base: Int64, attempt: int)
    requires 1 <= base < INT64_RANGE / 4 && attempt >= 2
    ensures DelayAfter(base, attempt - 1) == Backoff(base, attempt)
  {
    DelayAfterDoubles(base, attempt - 1);
    DoubledIsScaled(base, attempt - 1);
  }

  /** The closed form holds for every attempt exactly when the interval is below
      2^62 ns: from there on, the first doubling runs over. */
  lemma ClosedFormExactly(reconnectIntervalMs: Int64)
    ensures (forall attempt: int ::
               Delay(reconnectIntervalMs, attempt) == Backoff(BaseMs(reconnectIntervalMs) * MILLISECOND, attempt))
       <==> Doubles(reconnectIntervalMs)
  {
    if Doubles(reconnectIntervalMs) {
      forall attempt: int {
        DelayIsBackoff(reconnectIntervalMs, attempt);
      }
    } else {
      FirstDoublingOverflows(reconnectIntervalMs);
    }
  }

  lemma FirstDoublingOverflows(reconnectIntervalMs: Int64)
    requires !Doubles(reconnectIntervalMs)
    ensures exists attempt: int ::
              Delay(reconnectIntervalMs, attempt) != Backoff(BaseMs(reconnectIntervalMs) * MILLISECOND, attempt)
  {
    var base := BaseMs(reconnectIntervalMs) * MILLISECOND;
    if Wrap64(base) != base {
      assert Delay(reconnectIntervalMs, 1) != Backoff(base, 1);
    } else {
      var doubled := Wrap64(base * 2);
      assert doubled < 0 && DelayAfter(doubled, 0) == doubled;
      Pow2Grows(0, 1);
      assert Pow2(1) == 2;
      assert Delay(reconnectIntervalMs, 2) != Backoff(base, 2);
    }
  }

  lemma FourDoublings(base: nat, n: nat)
    ensures Doubled(base, n + 4) == 16 * Doubled(base, n)
  {
    assert Doubled(base, n + 2) == 2 * Doubled(base, n + 1);
    assert Doubled(base, n + 3) == 2 * Doubled(base, n + 2);
  }

  /** How many of n doublings the loop gets to do. */
  function Doublings(delay: Int64, n: nat): nat
    decreases n
  {
    if n == 0 then 0
    else
      var doubled := Wrap64(delay * 2);
      if doubled >= MAX_DELAY then 1 else 1 + Doublings(doubled, n - 1)
  }

  lemma {:induction false} DoublingsBound(delay: Int64, n: nat, k: nat)
    requires 1 <= delay < INT64_RANGE / 4 && k > 0 && Doubled(delay, k) >= MAX_DELAY
    ensures Doublings(delay, n) <= k
    decreases n
  {
    if n > 0 {
      assert Wrap64(delay * 2) == delay * 2;
      DoubledFirst(delay, k);
      if delay * 2 < MAX_DELAY {
        DoublingsBound(delay * 2, n - 1, k - 1);
      }
    }
  }

  /** Sixteen doublings take any base to the cap. */
  lemma SixteenReachTheCap(base: nat)
    requires base >= MILLISECOND
    ensures Doubled(base, 16) >= MAX_DELAY
  {
    FourDoublings(base, 0);
    FourDoublings(base, 4);
    FourDoublings(base, 8);
    FourDoublings(base, 12);
  }

  lemma SixteenDoublings(reconnectIntervalMs: Int64, n: nat)
    requires Doubles(reconnectIntervalMs)
    ensures Doublings(Base(reconnectIntervalMs), n) <= 16
  {
    BaseFits(reconnectIntervalMs);
    SixteenReachTheCap(Base(reconnectIntervalMs));
    DoublingsBound(Base(reconnectIntervalMs), n, 16);
  }

  function DoublingsFor(reconnectIntervalMs: Int64, attempt: int): nat {
    if attempt <= 1 then 0 else Doublings(Base(reconnectIntervalMs), attempt - 1)
  }

  lemma InClosedForm(reconnectIntervalMs: Int64, attempt: int)
    requires Doubles(reconnectIntervalMs)
    ensures Delay(reconnectIntervalMs, attempt) == Backoff(BaseMs(reconnectIntervalMs) * MILLISECOND, attempt)
    ensures DoublingsFor(reconnectIntervalMs, attempt) <= 16
  {
    DelayIsBackoff(reconnectIntervalMs, attempt);
    if attempt >= 2 {
      SixteenDoublings(reconnectIntervalMs, attempt - 1);
    }
  }

  /** nextReconnectDelay, on any interval and attempt. */
  method NextReconnectDelay(reconnectIntervalMs: Int64, attempt: int) returns (delay: Int64, ghost doublings: nat)
    ensures delay == Delay(reconnectIntervalMs, attempt) && doublings == DoublingsFor(reconnectIntervalMs, attempt)
    ensures Doubles(reconnectIntervalMs) ==>
              delay == Backoff(BaseMs(reconnectIntervalMs) * MILLISECOND, attempt) && doublings <= 16
    ensures attempt >= 2 ==> delay <= 60_000_000_000
    ensures reconnectIntervalMs <= 0 ==> delay == Delay(10_000, attempt)
    ensures attempt <= 1 && 1 <= reconnectIntervalMs <= 9_000_000_000_000 ==> delay == reconnectIntervalMs * 1_000_000
    ensures attempt >= 2 && 1 <= reconnectIntervalMs <= 60_000 ==>
              delay == Min(60_000_000_000, reconnectIntervalMs * 1_000_000 * Pow2(attempt - 1))
  {
    CapExactly(reconnectIntervalMs, attempt);
    var baseMs := reconnectIntervalMs;
    if baseMs <= 0 {
      baseMs := 10_000;
    }
    var base := Wrap64(baseMs * MILLISECOND);
    if attempt <= 1 {
      delay, doublings := base, 0;
    } else {
      delay, doublings := DoubleUp(base, attempt);
    }
    if Doubles(reconnectIntervalMs) {
      InClosedForm(reconnectIntervalMs, attempt);
    }
  }

  /** The doubling loop. */
  method DoubleUp(base: Int64, attempt: int) returns (delay: Int64, ghost doublings: nat)
    requires attempt >= 2
    ensures delay == DelayAfter(base, attempt - 1) && doublings == Doublings(base, attempt - 1)
  {
    delay, doublings := base, 0;
    for i := 1 to attempt
      invariant DelayAfter(base, attempt - 1) == DelayAfter(delay, attempt - i)
      invariant Doublings(base, attempt - 1) == doublings + Doublings(delay, attempt - i)
    {
      delay := Wrap64(delay * 2);
      doublings := doublings + 1;
      if delay >= MAX_DELAY {
        return MAX_DELAY, doublings;
      }
    }
    if delay > MAX_DELAY {
      return MAX_DELAY, doublings;
    }
  }

  lemma {:induction false} DelayAfterCapped(delay: Int64, n: nat)
    ensures DelayAfter(delay, n) <= MAX_DELAY
    decreases n
  {
    if n > 0 {
      var doubled := Wrap64(delay * 2);
      if doubled < MAX_DELAY {
        DelayAfterCapped(doubled, n - 1);
      }
    }
  }

  /** The delay respects the cap exactly when its base does or it is not the
      first attempt. */
  lemma CapExactly(reconnectIntervalMs: Int64, attempt: int)
    ensures Delay(reconnectIntervalMs, attempt) <= MAX_DELAY <==> attempt >= 2 || Base(reconnectIntervalMs) <= MAX_DELAY
  {
    if attempt >= 2 {
      DelayAfterCapped(Base(reconnectIntervalMs), attempt - 1);
    }
  }

  lemma {:induction false} DelayAfterGrows(delay: Int64, n: nat)
    requires 0 <= delay <= MAX_DELAY
    ensures 0 <= DelayAfter(delay, n) <= DelayAfter(delay, n + 1)
    decreases n
  {
    var doubled := Wrap64(delay * 2);
    assert doubled == delay * 2;
    if doubled < MAX_DELAY {
      assert DelayAfter(delay, n + 1) == DelayAfter(doubled, n);
      if n > 0 {
        DelayAfterGrows(doubled, n - 1);
      }
    }
  }

  /** One doubling makes anything below -2^62 non-negative. */
  lemma WrappedGrows(base: Int64, n: nat)
    requires base < -INT64_RANGE / 4
    ensures base <= DelayAfter(base, n) <= DelayAfter(base, n + 1)
  {
    var doubled := Wrap64(base * 2);
    assert doubled == base * 2 + INT64_RANGE >= 0;
    if doubled < MAX_DELAY {
      DelayAfterGrows(doubled, n);
      if n > 0 {
        DelayAfterGrows(doubled, n - 1);
      }
    }
  }

  /** Delays never shrink from one attempt to the next exactly when the base is
      within the cap and its first doubling does not make it smaller. */
  lemma MonotoneExactly(reconnectIntervalMs: Int64)
    ensures (forall attempt: int :: Delay(reconnectIntervalMs, attempt) <= Delay(reconnectIntervalMs, attempt + 1))
       <==> 0 <= Base(reconnectIntervalMs) <= MAX_DELAY || Base(reconnectIntervalMs) < -INT64_RANGE / 4
    ensures Doubles(reconnectIntervalMs) ==> Base(reconnectIntervalMs) == BaseMs(reconnectIntervalMs) * MILLISECOND > 0
  {
    var base := Base(reconnectIntervalMs);
    if 0 <= base <= MAX_DELAY || base < -INT64_RANGE / 4 {
      forall attempt: int ensures Delay(reconnectIntervalMs, attempt) <= Delay(reconnectIntervalMs, attempt + 1) {
        if attempt >= 1 {
          NeverShrinks(base, attempt - 1);
        }
      }
    } else {
      FirstDoublingShrinks(base);
      assert Delay(reconnectIntervalMs, 1) > Delay(reconnectIntervalMs, 1 + 1);
    }
  }

  lemma NeverShrinks(base: Int64, n: nat)
    requires 0 <= base <= MAX_DELAY || base < -INT64_RANGE / 4
    ensures DelayAfter(base, n) <= DelayAfter(base, n + 1)
    ensures DelayAfter(base, 0) == base
  {
    if base >= 0 {
      DelayAfterGrows(base, n);
    } else {
      WrappedGrows(base, n);
    }
  }

  lemma FirstDoublingShrinks(base: Int64)
    requires base > MAX_DELAY || -INT64_RANGE / 4 <= base < 0
    ensures DelayAfter(base, 1) < base
  {
    DelayAfterCapped(base, 1);
    if base < 0 {
      assert Wrap64(base * 2) == base * 2;
      assert DelayAfter(base * 2, 0) == base * 2;
    }
  }
}
