/** Pending RPC results keyed by uid (internal/rpc/future.go) and the uid
    generator (internal/rpc/relay_client.go). */
module Futures {
  import opened Basics

  type Uid = string

  /** What a caller gets: the result text, or the text of an error. */
  datatype Outcome = Value(text: string) | Failure(error: string)

  // ---------------------------------------------------------------------
  // Uids

  /** "relay-" + milliseconds + "-" + counter. The clock may read anything. */
  function UidOf(clock: int, count: nat): Uid {
    "relay-" + SignedDecimal(clock) + "-" + Decimal(count)
  }

  lemma LastDashComesEarly(p: string, d: string, q: string, e: string)
    requires p + "-" + d == q + "-" + e && '-' !in e
    ensures |p| <= |q|
  {
    var s := q + "-" + e;
    assert forall i :: |q| < i < |s| ==> s[i] == e[i - |q| - 1];
    assert (p + "-" + d)[|p|] == '-';
  }

  lemma LastDashDecides(p: string, d: string, q: string, e: string)
    requires p + "-" + d == q + "-" + e
    requires '-' !in d && '-' !in e
    ensures d == e
  {
    LastDashComesEarly(p, d, q, e);
    LastDashComesEarly(q, e, p, d);
    assert d == (p + "-" + d)[|p| + 1..] && e == (q + "-" + e)[|q| + 1..];
  }

  /** Two uids with different counts differ, whatever the clock did. */
  lemma UidsDiffer(t1: int, n1: nat, t2: int, n2: nat)
    requires n1 != n2
    ensures UidOf(t1, n1) != UidOf(t2, n2)
  {
    if UidOf(t1, n1) == UidOf(t2, n2) {
      DecimalHasNoDash(n1);
      DecimalHasNoDash(n2);
      LastDashDecides("relay-" + SignedDecimal(t1), Decimal(n1), "relay-" + SignedDecimal(t2), Decimal(n2));
      DecimalInjective(n1, n2);
    }
  }

  class UidGenerator {
    var counter: nat
    ghost var issued: set<Uid>

    ghost predicate Valid()
      reads this
    {
      forall uid :: uid in issued ==> exists clock, n: nat :: n <= counter && uid == UidOf(clock, n)
    }

    constructor ()
      ensures Valid() && counter == 0 && issued == {}
    {
      counter, issued := 0, {};
    }

    /** No uid is ever given out twice, whatever the clock shows. */
    method GenerateRpcUid(clock: int) returns (uid: Uid)
      requires Valid()
      modifies this
      ensures Valid()
      ensures counter == old(counter) + 1 && uid == UidOf(clock, counter)
      ensures uid == "relay-" + SignedDecimal(clock) + "-" + Decimal(counter)
      ensures uid !in old(issued) && issued == old(issued) + {uid}
    {
      counter := counter + 1;
      uid := UidOf(clock, counter);
      forall t: int, n: nat | n < counter ensures UidOf(t, n) != uid {
        UidsDiffer(t, n, clock, counter);
      }
      issued := issued + {uid};
    }
  }

  // ---------------------------------------------------------------------
  // The manager as a ledger: every future ever registered, and which of them
  // the map still holds

  datatype Entry = Entry(uid: Uid, outcome: Option<Outcome>)

  datatype Ledger = Ledger(entries: seq<Entry>, index: map<Uid, nat>)

  const EMPTY_LEDGER := Ledger([], map[])

  function Enter(l: Ledger, uid: Uid): Ledger {
    Ledger(l.entries + [Entry(uid, None)], l.index[uid := |l.entries|])
  }

  function Complete(l: Ledger, uid: Uid, o: Outcome): Ledger {
    if uid in l.index && l.index[uid] < |l.entries| then
      Ledger(l.entries[l.index[uid] := Entry(uid, Some(o))], l.index - {uid})
    else l
  }

  ghost predicate LedgerOk(l: Ledger) {
    forall u :: u in l.index ==>
      l.index[u] < |l.entries| && l.entries[l.index[u]] == Entry(u, None)
  }

  // ---------------------------------------------------------------------
  // The objects

  class Future {
    const rpcUid: Uid
    var closed: bool
    var result: string
    var err: Option<string>

    constructor (rpcUid: Uid)
      ensures this.rpcUid == rpcUid && !closed && result == "" && err == None
    {
      this.rpcUid := rpcUid;
      closed, result, err := false, "", None;
    }

    /** Closing a channel twice panics: a future is completed at most once. */
    method Success(text: string)
      requires !closed && err == None
      modifies this
      ensures closed && Content() == Some(Value(text))
    {
      result := text;
      closed := true;
    }

    method Error(msg: string)
      requires !closed
      modifies this
      ensures closed && Content() == Some(Failure(msg))
    {
      err := Some(msg);
      closed := true;
    }

    /** What Await returns once the channel is closed. */
    function Content(): Option<Outcome>
      reads this
    {
      if !closed then None else if err.Some? then Some(Failure(err.value)) else Some(Value(result))
    }
  }

  class FutureManager {
    var m: map<Uid, Future>
    ghost var futures: seq<Future>
    ghost var slot: map<Uid, nat>

    ghost predicate Valid()
      reads this, futures
    {
      && slot.Keys == m.Keys
      && (forall u :: u in m ==> slot[u] < |futures| && futures[slot[u]] == m[u])
      && (forall u :: u in m ==> m[u].rpcUid == u && !m[u].closed)
      && (forall i :: 0 <= i < |futures| && !futures[i].closed ==> futures[i].err == None)
      && (forall i, j :: 0 <= i < j < |futures| ==> futures[i] != futures[j])
    }

    ghost function View(): Ledger
      reads this, futures
    {
      Ledger(seq(|futures|, i requires 0 <= i < |futures| reads this, futures => Entry(futures[i].rpcUid, futures[i].Content())), slot)
    }

    constructor ()
      ensures Valid() && View() == EMPTY_LEDGER
    {
      m, futures, slot := map[], [], map[];
    }

    method Register(f: Future)
      requires Valid() && f !in futures && !f.closed && f.err == None
      modifies this
      ensures Valid() && View() == Enter(old(View()), f.rpcUid)
      ensures futures == old(futures) + [f]
    {
      m := m[f.rpcUid := f];
      slot := slot[f.rpcUid := |futures|];
      futures := futures + [f];
      assert View().entries == old(View()).entries + [Entry(f.rpcUid, None)];
    }

    method Pop(uid: Uid) returns (f: Future?)
      requires Valid()
      modifies this`m, this`slot
      ensures Valid()
      ensures f == null <==> uid !in old(m)
      ensures f != null ==> uid in old(m) && f == old(m)[uid]
      ensures slot == old(slot) - {uid} && m == old(m) - {uid}
    {
      f := if uid in m then m[uid] else null;
      m := m - {uid};
      slot := slot - {uid};
    }

    method SetSuccess(uid: Uid, text: string)
      requires Valid()
      modifies this`m, this`slot, futures
      ensures Valid() && View() == Complete(old(View()), uid, Value(text))
    {
      ghost var before, at := View(), if uid in m then slot[uid] else 0;
      var f := Pop(uid);
      if f != null {
        f.Success(text);
        assert View().entries == before.entries[at := Entry(uid, Some(Value(text)))];
      }
    }

    method SetError(uid: Uid, msg: string)
      requires Valid()
      modifies this`m, this`slot, futures
      ensures Valid() && View() == Complete(old(View()), uid, Failure(msg))
    {
      ghost var before, at := View(), if uid in m then slot[uid] else 0;
      var f := Pop(uid);
      if f != null {
        f.Error(msg);
        assert View().entries == before.entries[at := Entry(uid, Some(Failure(msg)))];
      }
    }
  }

  // ---------------------------------------------------------------------
  // Any interleaving of registrations and responses

  datatype Event = Registers(uid: Uid) | Responds(uid: Uid, outcome: Outcome)

  function LedgerStep(l: Ledger, e: Event): Ledger {
    match e
    case Registers(u) => Enter(l, u)
    case Responds(u, o) => Complete(l, u, o)
  }

  function LedgerAfter(es: seq<Event>): Ledger {
    if es == [] then EMPTY_LEDGER else LedgerStep(LedgerAfter(es[..|es| - 1]), es[|es| - 1])
  }

  /** The response would close a channel that is closed already. */
  predicate ClosesTwice(l: Ledger, e: Event) {
    e.Responds? && e.uid in l.index && l.index[e.uid] < |l.entries| && l.entries[l.index[e.uid]].outcome.Some?
  }

  lemma LedgerStepKeeps(l: Ledger, e: Event)
    requires LedgerOk(l)
    ensures LedgerOk(LedgerStep(l, e))
  {
    if e.Responds? && e.uid in l.index {
      var l' := LedgerStep(l, e);
      forall u | u in l'.index ensures l'.entries[l'.index[u]] == Entry(u, None) {
        assert l.entries[l.index[u]].uid != l.entries[l.index[e.uid]].uid;
      }
    }
  }

  lemma {:induction false} NoChannelClosesTwice(es: seq<Event>, e: Event)
    ensures LedgerOk(LedgerAfter(es))
    ensures !ClosesTwice(LedgerAfter(es), e)
  {
    if es != [] {
      NoChannelClosesTwice(es[..|es| - 1], e);
      LedgerStepKeeps(LedgerAfter(es[..|es| - 1]), es[|es| - 1]);
    }
  }

  function CountDone(entries: seq<Entry>): nat {
    if entries == [] then 0
    else CountDone(entries[..|entries| - 1]) + (if entries[|entries| - 1].outcome.Some? then 1 else 0)
  }

  lemma {:induction false} CountDoneUpdate(entries: seq<Entry>, i: nat, e: Entry)
    requires i < |entries| && entries[i].outcome.None? && e.outcome.Some?
    ensures CountDone(entries[i := e]) == CountDone(entries) + 1
  {
    var init := entries[..|entries| - 1];
    if i < |init| {
      CountDoneUpdate(init, i, e);
      assert entries[i := e][..|entries| - 1] == init[i := e];
    } else {
      assert entries[i := e][..|entries| - 1] == init;
    }
  }

  /** Registrations that pushed out a future still waiting under the same uid. */
  function Overwrites(es: seq<Event>): nat {
    if es == [] then 0
    else
      var before, e := es[..|es| - 1], es[|es| - 1];
      Overwrites(before) + (if e.Registers? && e.uid in LedgerAfter(before).index then 1 else 0)
  }

  function Registrations(es: seq<Event>): nat {
    if es == [] then 0
    else Registrations(es[..|es| - 1]) + (if es[|es| - 1].Registers? then 1 else 0)
  }

  /** Nothing is lost unless a uid is used twice: every registered future is
      waiting, completed, or was overwritten while waiting. */
  lemma {:induction false} FuturesAddUp(es: seq<Event>)
    ensures var l := LedgerAfter(es);
            && Registrations(es) == |l.entries|
            && Registrations(es) == |l.index| + CountDone(l.entries) + Overwrites(es)
  {
    if es != [] {
      var before, e := es[..|es| - 1], es[|es| - 1];
      var l := LedgerAfter(before);
      FuturesAddUp(before);
      NoChannelClosesTwice(before, e);
      match e
      case Registers(u) =>
        assert Enter(l, u).entries[..|l.entries|] == l.entries;
        MapPutSize(l.index, u, |l.entries|);
      case Responds(u, o) =>
        if u in l.index {
          CountDoneUpdate(l.entries, l.index[u], Entry(u, Some(o)));
          MapDropSize(l.index, u);
        }
    }
  }

  lemma MapPutSize<K, V>(m: map<K, V>, k: K, v: V)
    ensures |m[k := v]| == |m| + (if k in m then 0 else 1)
  {
    assert m[k := v].Keys == m.Keys + {k};
    if k in m {
      assert m.Keys + {k} == m.Keys;
    }
    assert |m| == |m.Keys| && |m[k := v]| == |m[k := v].Keys|;
  }

  lemma MapDropSize<K, V>(m: map<K, V>, k: K)
    requires k in m
    ensures |m - {k}| == |m| - 1
  {
    assert (m - {k}).Keys == m.Keys - {k};
    assert |m| == |m.Keys| && |m - {k}| == |(m - {k}).Keys|;
  }

  // ---------------------------------------------------------------------
  // With generated uids

  /** Every registration carries the uid of its own call to the generator, made
      when the clock showed clocks[i]; calls may register in any order. */
  ghost predicate GeneratedUids(es: seq<Event>, clocks: seq<int>, counts: seq<nat>) {
    && |es| <= |clocks| && |es| <= |counts|
    && (forall i :: 0 <= i < |es| && es[i].Registers? ==> es[i].uid == UidOf(clocks[i], counts[i]))
    && (forall i, j :: 0 <= i < j < |es| && es[i].Registers? && es[j].Registers? ==> counts[i] != counts[j])
  }

  lemma {:induction false} WaitingWasRegistered(es: seq<Event>, u: Uid) returns (i: nat)
    requires u in LedgerAfter(es).index
    ensures i < |es| && es[i] == Registers(u)
  {
    var k := |es| - 1;
    if es[k] == Registers(u) {
      i := k;
    } else {
      i := WaitingWasRegistered(es[..k], u);
    }
  }

  lemma {:induction false} GeneratedUidsNeverOverwrite(es: seq<Event>, clocks: seq<int>, counts: seq<nat>)
    requires GeneratedUids(es, clocks, counts)
    ensures Overwrites(es) == 0
  {
    if es != [] {
      var k := |es| - 1;
      GeneratedUidsNeverOverwrite(es[..k], clocks, counts);
      if es[k].Registers? && es[k].uid in LedgerAfter(es[..k]).index {
        var i := WaitingWasRegistered(es[..k], es[k].uid);
        UidsDiffer(clocks[k], counts[k], clocks[i], counts[i]);
      }
    }
  }

  /** Registered = waiting + completed, for every clock and every interleaving. */
  lemma RegisteredIsWaitingPlusCompleted(es: seq<Event>, clocks: seq<int>, counts: seq<nat>)
    requires GeneratedUids(es, clocks, counts)
    ensures var l := LedgerAfter(es);
            Registrations(es) == |l.index| + CountDone(l.entries)
  {
    FuturesAddUp(es);
    GeneratedUidsNeverOverwrite(es, clocks, counts);
  }

  // ---------------------------------------------------------------------
  // What a future holds

  /** The first response to u in es before u is registered again, if any. */
  function FirstAnswer(es: seq<Event>, u: Uid): Option<Outcome> {
    if es == [] || es[0] == Registers(u) then None
    else if es[0].Responds? && es[0].uid == u then Some(es[0].outcome)
    else FirstAnswer(es[1..], u)
  }

  /** No later event has to do with the future any more: it is answered, or its
      uid has been registered again. */
  predicate Settles(es: seq<Event>, u: Uid) {
    exists i :: 0 <= i < |es| && es[i].uid == u
  }

  lemma {:induction false} FirstAnswerSnoc(es: seq<Event>, e: Event, u: Uid)
    ensures FirstAnswer(es + [e], u) ==
      (if Settles(es, u) then FirstAnswer(es, u) else FirstAnswer([e], u))
    ensures !Settles(es, u) ==> FirstAnswer(es, u) == None
  {
    if es == [] {
      assert es + [e] == [e];
    } else {
      FirstAnswerSnoc(es[1..], e, u);
      assert (es + [e])[0] == es[0] && (es + [e])[1..] == es[1..] + [e];
      if es[0].uid != u && Settles(es, u) {
        var i :| 0 <= i < |es| && es[i].uid == u;
        assert es[1..][i - 1].uid == u;
      }
      if Settles(es[1..], u) {
        var i :| 0 <= i < |es| - 1 && es[1..][i].uid == u;
        assert es[i + 1].uid == u;
      }
    }
  }

  /** Event k registers a future, the n-th of all. */
  predicate RegistersNth(es: seq<Event>, k: nat, n: nat) {
    k < |es| && es[k].Registers? && Registrations(es[..k]) == n
  }

  lemma SettlesSnoc(es: seq<Event>, e: Event, u: Uid)
    ensures Settles(es + [e], u) <==> Settles(es, u) || e.uid == u
  {
    if Settles(es, u) {
      var i :| 0 <= i < |es| && es[i].uid == u;
      assert (es + [e])[i].uid == u;
    }
    if e.uid == u {
      assert (es + [e])[|es|].uid == u;
    }
  }

  /** The n-th future is for u, holds the first answer among the events since it
      was registered, and waits in the map exactly until it is settled. */
  ghost predicate Tracks(l: Ledger, n: nat, u: Uid, since: seq<Event>) {
    && n < |l.entries| && l.entries[n] == Entry(u, FirstAnswer(since, u))
    && (u in l.index && l.index[u] == n <==> !Settles(since, u))
  }

  lemma TracksStep(l: Ledger, n: nat, u: Uid, since: seq<Event>, e: Event)
    requires LedgerOk(l) && Tracks(l, n, u, since)
    ensures Tracks(LedgerStep(l, e), n, u, since + [e])
  {
    FirstAnswerSnoc(since, e, u);
    SettlesSnoc(since, e, u);
  }

  lemma JustRegistered(l: Ledger, u: Uid)
    ensures Tracks(Enter(l, u), |l.entries|, u, [])
  {
  }

  /** Whatever the interleaving: a future holds the first response to its uid
      after its registration, unless the uid was registered again before that,
      and otherwise it is still open; no other response reaches it. */
  lemma {:induction false} HoldsFirstAnswer(es: seq<Event>, k: nat, n: nat)
    requires RegistersNth(es, k, n)
    ensures Tracks(LedgerAfter(es), n, es[k].uid, es[k + 1..])
  {
    var last := |es| - 1;
    var before, e := es[..last], es[last];
    NoChannelClosesTwice(before, e);
    assert LedgerAfter(es) == LedgerStep(LedgerAfter(before), e);
    if k == last {
      FuturesAddUp(before);
      JustRegistered(LedgerAfter(before), e.uid);
      assert es[k + 1..] == [];
    } else {
      assert before[..k] == es[..k];
      HoldsFirstAnswer(before, k, n);
      TracksStep(LedgerAfter(before), n, es[k].uid, before[k + 1..], e);
      assert es[k + 1..] == before[k + 1..] + [e];
    }
  }
}
