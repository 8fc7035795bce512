/**
 The timestamp join of two frame streams (core/src/ingest/gst_dual_source.cpp): an online merge-join with bounded queues.
 */
module DualSourceSpec {
  import opened Types

  /** A frame that was pulled; `pts` is 0 when the buffer carries no timestamp. Pulled images are never empty. */
  datatype Packet = Packet(pts: int, cols: nat, rows: nat)

  datatype Pair = Pair(inf: Packet, ui: Packet, pts: int, frameId: int, scaleX: real, scaleY: real)

  const PENDING_CAP := 8

  datatype Queues = Queues(inf: seq<Packet>, ui: seq<Packet>, nextFrameId: int)

  function MakePair(inf: Packet, ui: Packet, id: int): Pair {
    Pair(inf, ui, if inf.pts > 0 then inf.pts else ui.pts, id,
         ui.cols as real / Max(1, inf.cols) as real, ui.rows as real / Max(1, inf.rows) as real)
  }

  // try_match_

  /** `std::find_if` from position `j` on. */
  function IndexOf(queue: seq<Packet>, pts: int, j: nat): (r: Option<nat>)
    requires j <= |queue|
    ensures r.Some? ==> j <= r.value < |queue| && queue[r.value].pts == pts
    ensures forall k :: j <= k < (if r.Some? then r.value else |queue|) ==> queue[k].pts != pts
    decreases |queue| - j
  {
    if j == |queue| then None else if queue[j].pts == pts then Some(j) else IndexOf(queue, pts, j + 1)
  }

  predicate HasPts(queue: seq<Packet>, pts: int) {
    IndexOf(queue, pts, 0).Some?
  }

  /** The first frame of `inf` from position `i` on that has a timestamp and a partner. */
  function FirstMatch(inf: seq<Packet>, ui: seq<Packet>, i: nat): (r: Option<nat>)
    requires i <= |inf|
    ensures r.Some? ==> i <= r.value < |inf| && inf[r.value].pts > 0 && HasPts(ui, inf[r.value].pts)
    ensures forall k :: i <= k < (if r.Some? then r.value else |inf|) ==> inf[k].pts <= 0 || !HasPts(ui, inf[k].pts)
    decreases |inf| - i
  {
    if i == |inf| then None
    else if inf[i].pts > 0 && HasPts(ui, inf[i].pts) then Some(i)
    else FirstMatch(inf, ui, i + 1)
  }

  function RemoveAt(queue: seq<Packet>, i: nat): seq<Packet>
    requires i < |queue|
  {
    queue[..i] + queue[i + 1..]
  }

  function TakePair(q: Queues, i: nat, j: nat): (Queues, Option<Pair>)
    requires i < |q.inf| && j < |q.ui|
  {
    (Queues(RemoveAt(q.inf, i), RemoveAt(q.ui, j), q.nextFrameId + 1), Some(MakePair(q.inf[i], q.ui[j], q.nextFrameId)))
  }

  function TryMatch(q: Queues): (Queues, Option<Pair>) {
    var i := FirstMatch(q.inf, q.ui, 0);
    if i.Some? then TakePair(q, i.value, IndexOf(q.ui, q.inf[i.value].pts, 0).value)
    else if q.inf != [] && q.ui != [] && q.inf[0].pts <= 0 && q.ui[0].pts <= 0 then TakePair(q, 0, 0)
    else (q, None)
  }

  // trim_pending_

  function Newest(queue: seq<Packet>): seq<Packet> {
    if |queue| > PENDING_CAP then queue[|queue| - PENDING_CAP..] else queue
  }

  function TrimCap(q: Queues): Queues {
    q.(inf := Newest(q.inf), ui := Newest(q.ui))
  }

  predicate InfIsStale(q: Queues)
    requires q.inf != [] && q.ui != []
  {
    !HasPts(q.ui, q.inf[0].pts) && (HasPts(q.inf, q.ui[0].pts) || q.inf[0].pts < q.ui[0].pts)
  }

  predicate UiIsStale(q: Queues)
    requires q.inf != [] && q.ui != []
  {
    !HasPts(q.inf, q.ui[0].pts) && (HasPts(q.ui, q.inf[0].pts) || q.ui[0].pts < q.inf[0].pts)
  }

  function TrimStale(q: Queues): Queues
    decreases |q.inf| + |q.ui|
  {
    if q.inf == [] || q.ui == [] || q.inf[0].pts <= 0 || q.ui[0].pts <= 0 || q.inf[0].pts == q.ui[0].pts then q
    else if InfIsStale(q) then TrimStale(q.(inf := q.inf[1..]))
    else if UiIsStale(q) then TrimStale(q.(ui := q.ui[1..]))
    else q
  }

  function Trim(q: Queues): Queues {
    TrimStale(TrimCap(q))
  }

  // Histories

  datatype Op = PushInf(packet: Packet) | PushUi(packet: Packet) | Match | TrimPending

  /** The queues together with all that was pushed, emitted, and evicted by the size limit. */
  datatype History = History(
    queues: Queues,
    allInf: seq<Packet>,
    allUi: seq<Packet>,
    emitted: seq<Pair>,
    evictedInf: set<int>,
    evictedUi: set<int>)

  ghost function Start(): History {
    History(Queues([], [], 0), [], [], [], {}, {})
  }

  ghost function Pts(queue: seq<Packet>): set<int> {
    set p | p in queue :: p.pts
  }

  ghost function Step(h: History, op: Op): History {
    var q := h.queues;
    match op
    case PushInf(p) => h.(queues := q.(inf := q.inf + [p]), allInf := h.allInf + [p])
    case PushUi(p) => h.(queues := q.(ui := q.ui + [p]), allUi := h.allUi + [p])
    case Match =>
      var r := TryMatch(q);
      h.(queues := r.0, emitted := if r.1.Some? then h.emitted + [r.1.value] else h.emitted)
    case TrimPending =>
      var t := TrimCap(q);
      h.(queues := TrimStale(t),
         evictedInf := h.evictedInf + (Pts(q.inf) - Pts(t.inf)), evictedUi := h.evictedUi + (Pts(q.ui) - Pts(t.ui)))
  }

  ghost function Steps(h: History, ops: seq<Op>): History {
    if ops == [] then h else Step(Steps(h, ops[..|ops| - 1]), ops[|ops| - 1])
  }

  // read

  /** The packets that the two sinks deliver in one round of the loop. */
  type Pull = (Option<Packet>, Option<Packet>)

  ghost function InfPushed(pull: Pull): seq<Op> {
    if pull.0.Some? then [PushInf(pull.0.value)] else []
  }

  ghost function UiPushed(pull: Pull): seq<Op> {
    if pull.1.Some? then [PushUi(pull.1.value)] else []
  }

  /** The calls of one round: it ends at its first match, at its second, or finds nothing. */
  ghost function RoundCalls(pull: Pull, found: bool, early: bool): seq<Op> {
    if found && early then [Match]
    else
      var matched := [Match] + InfPushed(pull) + [Match];
      if found then matched else matched + UiPushed(pull) + [TrimPending]
  }

  /** The calls of the first `n` rounds when none of them finds a pair. */
  ghost function Rounds(pulls: seq<Pull>, n: nat): seq<Op>
    requires n <= |pulls|
  {
    if n == 0 then [] else Rounds(pulls, n - 1) + RoundCalls(pulls[n - 1], false, false)
  }

  /** The calls of a read: rounds in vain, then one that finds a pair, or a last trim and match after the deadline. */
  ghost function ReadCalls(pulls: seq<Pull>, n: nat, early: bool): seq<Op>
    requires n <= |pulls|
  {
    Rounds(pulls, n) + if n == |pulls| then [TrimPending] + [Match] else RoundCalls(pulls[n], true, early)
  }

  lemma OneMore(h: History, ops: seq<Op>, op: Op)
    ensures Steps(h, ops + [op]) == Step(Steps(h, ops), op)
  {
    assert (ops + [op])[..|ops|] == ops;
  }

  lemma OneStep(h: History, op: Op)
    ensures Steps(h, [op]) == Step(h, op)
  {
    assert Steps(h, []) == h;
  }

  lemma TwoSteps(h: History, a: Op, b: Op)
    ensures Steps(h, [a] + [b]) == Step(Step(h, a), b)
  {
    OneStep(h, a);
    OneMore(h, [a], b);
  }

  lemma {:induction false} ConcatOneMore(h: History, a: seq<Op>, b: seq<Op>, op: Op)
    requires Steps(h, a + b) == Steps(Steps(h, a), b)
    ensures Steps(h, a + (b + [op])) == Steps(Steps(h, a), b + [op])
  {
    OneMore(h, a + b, op);
    OneMore(Steps(h, a), b, op);
    assert a + b + [op] == a + (b + [op]);
  }

  lemma {:induction false} StepsConcat(h: History, a: seq<Op>, b: seq<Op>)
    ensures Steps(h, a + b) == Steps(Steps(h, a), b)
    decreases |b|
  {
    if b == [] {
      assert a + b == a;
    } else {
      var most, last := b[..|b| - 1], b[|b| - 1];
      StepsConcat(h, a, most);
      ConcatOneMore(h, a, most, last);
      assert most + [last] == b;
    }
  }

  /** What was emitted when at most one pair is. */
  ghost function Emitting(h: History, out: Option<Pair>): seq<Pair> {
    if out.Some? then h.emitted + [out.value] else h.emitted
  }
}

module DualSource {
  import opened Types
  import opened DualSourceSpec

  class GstDualSource {
    var pendingInf: seq<Packet>
    var pendingUi: seq<Packet>
    var nextFrameId: int

    ghost function Abs(): Queues
      reads this
    {
      Queues(pendingInf, pendingUi, nextFrameId)
    }

    constructor ()
      ensures Abs() == Start().queues
    {
      pendingInf, pendingUi, nextFrameId := [], [], 0;
    }

    method EmitPair(inf: Packet, ui: Packet) returns (out: Pair)
      modifies this`nextFrameId
      ensures out == MakePair(inf, ui, old(nextFrameId)) && nextFrameId == old(nextFrameId) + 1
    {
      out := MakePair(inf, ui, nextFrameId);
      nextFrameId := nextFrameId + 1;
    }

    method TryMatch() returns (out: Option<Pair>)
      modifies this
      ensures (Abs(), out) == DualSourceSpec.TryMatch(old(Abs()))
    {
      var i := 0;
      while i < |pendingInf|
        invariant i <= |pendingInf| && Abs() == old(Abs())
        invariant FirstMatch(pendingInf, pendingUi, 0) == FirstMatch(pendingInf, pendingUi, i)
      {
        if pendingInf[i].pts <= 0 {
          i := i + 1;
          continue;
        }
        var j := IndexOf(pendingUi, pendingInf[i].pts, 0);
        if j == None {
          i := i + 1;
          continue;
        }
        var pair := TakeOut(i, j.value);
        return Some(pair);
      }
      if pendingInf != [] && pendingUi != [] && pendingInf[0].pts <= 0 && pendingUi[0].pts <= 0 {
        var pair := TakeOut(0, 0);
        return Some(pair);
      }
      return None;
    }

    method TakeOut(i: nat, j: nat) returns (pair: Pair)
      requires i < |pendingInf| && j < |pendingUi|
      modifies this
      ensures (Abs(), Some(pair)) == TakePair(old(Abs()), i, j)
    {
      var inf, ui := pendingInf[i], pendingUi[j];
      pendingInf, pendingUi := RemoveAt(pendingInf, i), RemoveAt(pendingUi, j);
      pair := EmitPair(inf, ui);
    }

    method TrimPending()
      modifies this
      ensures Abs() == Trim(old(Abs()))
    {
      ghost var q := Abs();
      while |pendingInf| > PENDING_CAP
        invariant Newest(pendingInf) == Newest(q.inf) && pendingUi == q.ui && nextFrameId == q.nextFrameId
      {
        pendingInf := pendingInf[1..];
      }
      while |pendingUi| > PENDING_CAP
        invariant Newest(pendingUi) == Newest(q.ui) && pendingInf == Newest(q.inf) && nextFrameId == q.nextFrameId
      {
        pendingUi := pendingUi[1..];
      }
      while pendingInf != [] && pendingUi != []
        invariant TrimStale(Abs()) == Trim(q)
        decreases |pendingInf| + |pendingUi|
      {
        var infPts, uiPts := pendingInf[0].pts, pendingUi[0].pts;
        if infPts <= 0 || uiPts <= 0 || infPts == uiPts { break; }
        var infHasMatch, uiHasMatch := HasPts(pendingUi, infPts), HasPts(pendingInf, uiPts);
        if !infHasMatch && (uiHasMatch || infPts < uiPts) {
          pendingInf := pendingInf[1..];
          continue;
        }
        if !uiHasMatch && (infHasMatch || uiPts < infPts) {
          pendingUi := pendingUi[1..];
          continue;
        }
        break;
      }
    }

    /** The queues and the emitted pairs are those of `now`, at most one pair after `h`. */
    ghost predicate Reached(h: History, now: History, out: Option<Pair>)
      reads this
    {
      Abs() == now.queues && now.emitted == Emitting(h, out)
    }

    method MatchAndPush(pull: Pull, ghost h: History) returns (out: Option<Pair>)
      requires h.queues == Abs()
      modifies this
      ensures Reached(h, Steps(h, if out.Some? then [Match] else [Match] + InfPushed(pull)), out)
    {
      out := TryMatch();
      OneStep(h, Match);
      assert Reached(h, Step(h, Match), out);
      if out == None && pull.0.Some? {
        TwoSteps(h, Match, PushInf(pull.0.value));
        pendingInf := pendingInf + [pull.0.value];
      } else {
        assert [Op.Match] + [] == [Op.Match];
      }
    }

    method PushAndTrim(pull: Pull, ghost h: History)
      requires h.queues == Abs()
      modifies this
      ensures Reached(h, Steps(h, UiPushed(pull) + [Op.TrimPending]), None)
    {
      if pull.1.Some? {
        pendingUi := pendingUi + [pull.1.value];
        TwoSteps(h, PushUi(pull.1.value), Op.TrimPending);
      } else {
        OneStep(h, Op.TrimPending);
        assert [] + [Op.TrimPending] == [Op.TrimPending];
      }
      TrimPending();
    }

    method Round(pull: Pull, ghost h: History) returns (out: Option<Pair>, ghost early: bool)
      requires h.queues == Abs()
      modifies this
      ensures Reached(h, Steps(h, RoundCalls(pull, out.Some?, early)), out)
    {
      early := true;
      out := MatchAndPush(pull, h);
      if out.Some? { return; }
      early := false;
      ghost var ops := [Match] + InfPushed(pull);
      ghost var now := Steps(h, ops);
      out := TryMatch();
      now, ops := Then(h, ops, now, Match);
      if out.Some? { return; }
      PushAndTrim(pull, now);
      StepsConcat(h, ops, UiPushed(pull) + [Op.TrimPending]);
      assert ops + (UiPushed(pull) + [Op.TrimPending]) == RoundCalls(pull, false, false);
    }

    /**
     `pulls` are the packets that the sinks deliver in each round before the deadline; `h` is the history up to now. The
     read pushes exactly the packets of the rounds it needs, in order, and returns the first pair that a match finds.
     */
    method Read(pulls: seq<Pull>, ghost h: History) returns (out: Option<Pair>, ghost rounds: nat, ghost early: bool)
      requires h.queues == Abs()
      modifies this
      ensures rounds <= |pulls| && (rounds < |pulls| ==> out.Some?)
      ensures Reached(h, Steps(h, ReadCalls(pulls, rounds, early)), out)
      ensures out == None ==> DualSourceSpec.TryMatch(Abs()) == (Abs(), None)
    {
      ghost var now := h;
      rounds, early := 0, true;
      for n := 0 to |pulls|
        invariant rounds == n && now == Steps(h, Rounds(pulls, n)) && Abs() == now.queues && now.emitted == h.emitted
      {
        out, early := Round(pulls[n], now);
        StepsConcat(h, Rounds(pulls, n), RoundCalls(pulls[n], out.Some?, early));
        if out.Some? { return; }
        assert RoundCalls(pulls[n], false, early) == RoundCalls(pulls[n], false, false);
        now := Steps(now, RoundCalls(pulls[n], false, false));
        rounds := n + 1;
      }
      TrimPending();
      ghost var trimmed, ops := Then(now, [], now, Op.TrimPending);
      out := TryMatch();
      trimmed, ops := Then(now, ops, trimmed, Match);
      assert ops == [Op.TrimPending] + [Match];
      StepsConcat(h, Rounds(pulls, rounds), ops);
    }

    static ghost method Then(h: History, ops: seq<Op>, now: History, op: Op) returns (now': History, ops': seq<Op>)
      requires now == Steps(h, ops)
      ensures now' == Step(now, op) == Steps(h, ops') && ops' == ops + [op]
    {
      now', ops' := Step(now, op), ops + [op];
      assert ops'[..|ops|] == ops;
    }
  }
}

module DualSourceTheorems {
  import opened Types
  import opened DualSourceSpec

  ghost predicate Increasing(queue: seq<Packet>) {
    && (forall i :: 0 <= i < |queue| ==> queue[i].pts > 0)
    && (forall i, j :: 0 <= i < j < |queue| ==> queue[i].pts < queue[j].pts)
  }

  ghost function EmittedPts(emitted: seq<Pair>): set<int> {
    set e | e in emitted :: e.pts
  }

  /** One of the two queues with all that is known of its packets. */
  datatype Side = Side(queue: seq<Packet>, all: seq<Packet>, evicted: set<int>)

  ghost predicate SideInv(a: Side, emitted: set<int>) {
    && Increasing(a.all) && Increasing(a.queue) && (forall p :: p in a.queue ==> p in a.all)
    && a.evicted <= Pts(a.all) && emitted <= Pts(a.all)
    && (forall p :: p in a.queue ==> p.pts !in a.evicted && p.pts !in emitted)
  }

  /** No partner has arrived, and none can: a newer one has. */
  ghost predicate Hopeless(pts: int, other: seq<Packet>) {
    pts !in Pts(other) && exists u :: u in other && u.pts > pts
  }

  /** Every packet is pending, emitted, hopeless, or it or its partner was evicted by the size limit. */
  ghost predicate Settled(a: Side, b: Side, emitted: set<int>) {
    forall p :: p in a.all ==>
      p in a.queue || p.pts in emitted || p.pts in a.evicted || p.pts in b.evicted || Hopeless(p.pts, b.all)
  }

  /** Emitted pairs join equal timestamps of both sinks, in increasing order, under consecutive frame ids. */
  ghost predicate Joined(emitted: seq<Pair>, allInf: seq<Packet>, allUi: seq<Packet>) {
    && (forall n :: 0 <= n < |emitted| ==>
          && emitted[n].inf in allInf && emitted[n].ui in allUi && emitted[n].frameId == n
          && emitted[n].inf.pts == emitted[n].ui.pts == emitted[n].pts)
    && (forall m, n :: 0 <= m < n < |emitted| ==> emitted[m].pts < emitted[n].pts)
  }

  /** What can still be matched is newer than everything emitted. */
  ghost predicate Ahead(inf: seq<Packet>, ui: seq<Packet>, emitted: seq<Pair>) {
    forall e, p, u :: e in emitted && p in inf && u in ui && p.pts == u.pts ==> e.pts < p.pts
  }

  ghost function Inf(h: History): Side { Side(h.queues.inf, h.allInf, h.evictedInf) }

  ghost function Ui(h: History): Side { Side(h.queues.ui, h.allUi, h.evictedUi) }

  ghost predicate BothSides(a: Side, b: Side, emitted: set<int>) {
    SideInv(a, emitted) && SideInv(b, emitted) && Settled(a, b, emitted) && Settled(b, a, emitted)
  }

  ghost predicate Inv(h: History) {
    && BothSides(Inf(h), Ui(h), EmittedPts(h.emitted))
    && Joined(h.emitted, h.allInf, h.allUi) && h.queues.nextFrameId == |h.emitted|
    && Ahead(h.queues.inf, h.queues.ui, h.emitted)
  }

  // Pushes

  lemma AppendNewest(queue: seq<Packet>, all: seq<Packet>, p: Packet)
    requires Increasing(queue) && Increasing(all + [p]) && forall x :: x in queue ==> x in all
    ensures Increasing(queue + [p]) && forall x :: x in all ==> x.pts < p.pts
  {
    var longer := all + [p];
    assert longer[|all|] == p;
    forall x | x in all ensures x.pts < p.pts {
      var i :| 0 <= i < |all| && all[i] == x;
      assert longer[i] == x;
    }
    forall i | 0 <= i < |queue| ensures queue[i].pts < p.pts {
      assert queue[i] in all;
    }
  }

  lemma PushSide(a: Side, b: Side, emitted: set<int>, p: Packet)
    requires BothSides(a, b, emitted) && Increasing(a.all + [p])
    ensures BothSides(Side(a.queue + [p], a.all + [p], a.evicted), b, emitted)
  {
    var a' := Side(a.queue + [p], a.all + [p], a.evicted);
    AppendNewest(a.queue, a.all, p);
    forall x | x in a.evicted || x in emitted ensures x < p.pts && x in Pts(a'.all) {
      var y :| y in a.all && y.pts == x;
      assert y in a'.all;
    }
    forall x | x in b.all && Hopeless(x.pts, a.all) ensures Hopeless(x.pts, a'.all) {
      var u :| u in a.all && u.pts > x.pts;
      assert u in a'.all && p.pts > u.pts;
    }
    forall x | x in a'.all ensures x in a.all || x == p {
    }
  }

  lemma PushJoined(h: History, allInf: seq<Packet>, allUi: seq<Packet>)
    requires Joined(h.emitted, h.allInf, h.allUi) && h.allInf <= allInf && h.allUi <= allUi
    ensures Joined(h.emitted, allInf, allUi)
  {
  }

  /** A packet that has just arrived is newer than everything emitted. */
  lemma NewerThanEmitted(all: seq<Packet>, emitted: seq<Pair>, p: Packet)
    requires EmittedPts(emitted) <= Pts(all) && forall x :: x in all ==> x.pts < p.pts
    ensures forall e :: e in emitted ==> e.pts < p.pts
  {
    forall e | e in emitted ensures e.pts < p.pts {
      assert e.pts in EmittedPts(emitted);
    }
  }

  lemma PushAhead(inf: seq<Packet>, ui: seq<Packet>, emitted: seq<Pair>, p: Packet)
    requires Ahead(inf, ui, emitted) && forall e :: e in emitted ==> e.pts < p.pts
    ensures Ahead(inf + [p], ui, emitted) && Ahead(inf, ui + [p], emitted)
  {
  }

  lemma PushInfInv(h: History, p: Packet)
    requires Inv(h) && Increasing(h.allInf + [p])
    ensures Inv(Step(h, PushInf(p)))
  {
    PushSide(Inf(h), Ui(h), EmittedPts(h.emitted), p);
    AppendNewest(h.queues.inf, h.allInf, p);
    NewerThanEmitted(h.allInf, h.emitted, p);
    PushAhead(h.queues.inf, h.queues.ui, h.emitted, p);
    PushJoined(h, h.allInf + [p], h.allUi);
  }

  lemma PushUiInv(h: History, p: Packet)
    requires Inv(h) && Increasing(h.allUi + [p])
    ensures Inv(Step(h, PushUi(p)))
  {
    PushSide(Ui(h), Inf(h), EmittedPts(h.emitted), p);
    AppendNewest(h.queues.ui, h.allUi, p);
    NewerThanEmitted(h.allUi, h.emitted, p);
    PushAhead(h.queues.inf, h.queues.ui, h.emitted, p);
    PushJoined(h, h.allInf, h.allUi + [p]);
  }

  // Matches

  lemma RemovedIndex(queue: seq<Packet>, i: nat, k: nat)
    requires i < |queue| && k < |queue| - 1
    ensures RemoveAt(queue, i)[k] == queue[if k < i then k else k + 1]
  {
  }

  lemma RemovedIncreasing(queue: seq<Packet>, i: nat)
    requires Increasing(queue) && i < |queue|
    ensures Increasing(RemoveAt(queue, i))
  {
    var rest := RemoveAt(queue, i);
    forall k | 0 <= k < |rest| ensures rest[k].pts > 0 {
      RemovedIndex(queue, i, k);
    }
    forall k, l | 0 <= k < l < |rest| ensures rest[k].pts < rest[l].pts {
      RemovedIndex(queue, i, k);
      RemovedIndex(queue, i, l);
    }
  }

  lemma Removed(queue: seq<Packet>, i: nat)
    requires Increasing(queue) && i < |queue|
    ensures forall p :: p in RemoveAt(queue, i) ==> p in queue && p.pts != queue[i].pts
    ensures forall p :: p in queue ==> p in RemoveAt(queue, i) || p == queue[i]
  {
    var rest := RemoveAt(queue, i);
    forall p | p in rest ensures p in queue && p.pts != queue[i].pts {
      var k :| 0 <= k < |rest| && rest[k] == p;
      RemovedIndex(queue, i, k);
    }
    forall p | p in queue ensures p in rest || p == queue[i] {
      var k :| 0 <= k < |queue| && queue[k] == p;
      if k < i {
        RemovedIndex(queue, i, k);
      } else if k > i {
        RemovedIndex(queue, i, k - 1);
      }
    }
  }

  lemma RemoveSide(a: Side, i: nat, emitted: set<int>)
    requires SideInv(a, emitted) && i < |a.queue|
    ensures SideInv(Side(RemoveAt(a.queue, i), a.all, a.evicted), emitted + {a.queue[i].pts})
    ensures forall p :: p in a.queue ==> p in RemoveAt(a.queue, i) || p.pts == a.queue[i].pts
  {
    assert a.queue[i] in a.queue;
    Removed(a.queue, i);
    RemovedIncreasing(a.queue, i);
  }

  lemma TakeSides(a: Side, b: Side, i: nat, j: nat, emitted: set<int>)
    requires BothSides(a, b, emitted) && i < |a.queue| && j < |b.queue| && a.queue[i].pts == b.queue[j].pts
    ensures BothSides(Side(RemoveAt(a.queue, i), a.all, a.evicted), Side(RemoveAt(b.queue, j), b.all, b.evicted),
                      emitted + {a.queue[i].pts})
  {
    RemoveSide(a, i, emitted);
    RemoveSide(b, j, emitted);
  }

  lemma EmitPts(emitted: seq<Pair>, e: Pair)
    ensures EmittedPts(emitted + [e]) == EmittedPts(emitted) + {e.pts}
  {
    assert (emitted + [e])[|emitted|] == e;
    forall x ensures x in emitted + [e] <==> x in emitted || x == e {
    }
  }

  lemma EmitJoined(emitted: seq<Pair>, allInf: seq<Packet>, allUi: seq<Packet>, e: Pair)
    requires Joined(emitted, allInf, allUi) && e.inf in allInf && e.ui in allUi && e.frameId == |emitted|
    requires e.inf.pts == e.ui.pts == e.pts && forall x :: x in emitted ==> x.pts < e.pts
    ensures Joined(emitted + [e], allInf, allUi)
  {
    var longer := emitted + [e];
    forall m, n | 0 <= m < n < |longer| ensures longer[m].pts < longer[n].pts {
      assert longer[m] in emitted;
    }
  }

  lemma EarlierOrNewer(inf: seq<Packet>, i: nat, p: Packet)
    requires Increasing(inf) && i < |inf| && p in RemoveAt(inf, i)
    ensures p in inf[..i] || p.pts > inf[i].pts
  {
    var k :| 0 <= k < |RemoveAt(inf, i)| && RemoveAt(inf, i)[k] == p;
    if k < i {
      assert inf[..i][k] == p;
    } else {
      assert inf[k + 1] == p;
    }
  }

  lemma EarlierUnmatched(inf: seq<Packet>, ui: seq<Packet>, i: nat, p: Packet)
    requires Increasing(inf) && i < |inf| && FirstMatch(inf, ui, 0) == Some(i) && p in inf[..i]
    ensures p.pts !in Pts(ui)
  {
    var k :| 0 <= k < i && inf[..i][k] == p;
    assert inf[k] == p && !HasPts(ui, inf[k].pts);
  }

  /** After the first match, what can still be matched is newer. */
  lemma RestIsNewer(inf: seq<Packet>, ui: seq<Packet>, i: nat, j: nat)
    requires Increasing(inf) && Increasing(ui) && i < |inf| && j < |ui| && FirstMatch(inf, ui, 0) == Some(i)
    ensures forall p, u :: p in RemoveAt(inf, i) && u in RemoveAt(ui, j) && p.pts == u.pts ==> inf[i].pts < p.pts
  {
    Removed(ui, j);
    forall p | p in RemoveAt(inf, i) ensures p.pts > inf[i].pts || p.pts !in Pts(ui) {
      EarlierOrNewer(inf, i, p);
      if p in inf[..i] {
        EarlierUnmatched(inf, ui, i, p);
      }
    }
  }

  lemma MatchTaken(h: History, i: nat, j: nat)
    requires Inv(h) && FirstMatch(h.queues.inf, h.queues.ui, 0) == Some(i)
    requires i < |h.queues.inf| && j < |h.queues.ui| && h.queues.inf[i].pts == h.queues.ui[j].pts > 0
    ensures var r := TakePair(h.queues, i, j);
            Inv(h.(queues := r.0, emitted := h.emitted + [r.1.value]))
  {
    var inf, ui := h.queues.inf, h.queues.ui;
    var e := MakePair(inf[i], ui[j], h.queues.nextFrameId);
    assert inf[i] in inf && ui[j] in ui;
    EmitJoined(h.emitted, h.allInf, h.allUi, e);
    EmitPts(h.emitted, e);
    TakeSides(Inf(h), Ui(h), i, j, EmittedPts(h.emitted));
    RestIsNewer(inf, ui, i, j);
    Removed(inf, i);
    Removed(ui, j);
    TakenAhead(inf, ui, i, j, h.emitted, e);
  }

  lemma MatchInv(h: History)
    requires Inv(h)
    ensures Inv(Step(h, Match))
  {
    var q := h.queues;
    var i := FirstMatch(q.inf, q.ui, 0);
    if i.Some? {
      var j := IndexOf(q.ui, q.inf[i.value].pts, 0).value;
      MatchTaken(h, i.value, j);
      MatchFinds(h, i.value, j);
    } else {
      MatchInVain(h);
    }
  }

  lemma MatchFinds(h: History, i: nat, j: nat)
    requires FirstMatch(h.queues.inf, h.queues.ui, 0) == Some(i) && i < |h.queues.inf|
    requires IndexOf(h.queues.ui, h.queues.inf[i].pts, 0) == Some(j) && j < |h.queues.ui|
    ensures var r := TakePair(h.queues, i, j);
            Step(h, Match) == h.(queues := r.0, emitted := h.emitted + [r.1.value])
  {
  }

  lemma MatchInVain(h: History)
    requires Increasing(h.queues.inf) && FirstMatch(h.queues.inf, h.queues.ui, 0) == None
    ensures Step(h, Match) == h
  {
    assert h.queues.inf != [] ==> h.queues.inf[0].pts > 0;
  }

  lemma TakenAhead(inf: seq<Packet>, ui: seq<Packet>, i: nat, j: nat, emitted: seq<Pair>, e: Pair)
    requires i < |inf| && j < |ui| && Ahead(inf, ui, emitted) && e.pts == inf[i].pts
    requires (forall p :: p in RemoveAt(inf, i) ==> p in inf) && (forall u :: u in RemoveAt(ui, j) ==> u in ui)
    requires forall p, u :: p in RemoveAt(inf, i) && u in RemoveAt(ui, j) && p.pts == u.pts ==> inf[i].pts < p.pts
    ensures Ahead(RemoveAt(inf, i), RemoveAt(ui, j), emitted + [e])
  {
    forall x, p, u | x in emitted + [e] && p in RemoveAt(inf, i) && u in RemoveAt(ui, j) && p.pts == u.pts
      ensures x.pts < p.pts
    {
      assert x in emitted || x == e;
      assert p in inf && u in ui;
    }
  }

  // Trims

  lemma DropSide(a: Side, n: nat, emitted: set<int>)
    requires SideInv(a, emitted) && n <= |a.queue|
    ensures SideInv(a.(queue := a.queue[n..]), emitted)
    ensures forall p :: p in a.queue ==> p in a.queue[n..] || p.pts !in Pts(a.queue[n..])
  {
    var rest := a.queue[n..];
    forall i | n <= i < |a.queue| ensures a.queue[i] in rest {
      assert rest[i - n] == a.queue[i];
    }
    forall p | p in a.queue && p !in rest ensures p.pts !in Pts(rest) {
      var k :| 0 <= k < |a.queue| && a.queue[k] == p;
      forall x | x in rest ensures x.pts != p.pts {
        var l :| 0 <= l < |rest| && rest[l] == x;
        assert x == a.queue[n + l];
      }
    }
  }

  lemma EvictSide(a: Side, b: Side, n: nat, emitted: set<int>)
    requires BothSides(a, b, emitted) && n <= |a.queue|
    ensures var rest := a.queue[n..];
            BothSides(Side(rest, a.all, a.evicted + (Pts(a.queue) - Pts(rest))), b, emitted)
  {
    DropSide(a, n, emitted);
    var rest := a.queue[n..];
    forall p | p in a.queue ensures p in rest || p.pts in Pts(a.queue) - Pts(rest) {
    }
    forall x | x in Pts(a.queue) ensures x in Pts(a.all) {
    }
  }

  /** A packet that the stale trim drops has no pending partner, and a newer packet of the other sink has arrived. */
  lemma StaleFront(a: Side, b: Side, emitted: set<int>)
    requires BothSides(a, b, emitted) && a.queue != [] && b.queue != []
    requires !HasPts(b.queue, a.queue[0].pts)
    requires HasPts(a.queue, b.queue[0].pts) || a.queue[0].pts < b.queue[0].pts
    ensures a.queue[0].pts !in Pts(b.queue) && b.queue[0].pts > a.queue[0].pts
    ensures a.queue[0].pts in b.evicted || Hopeless(a.queue[0].pts, b.all)
    ensures BothSides(a.(queue := a.queue[1..]), b, emitted)
  {
    var x := a.queue[0];
    assert x in a.queue && b.queue[0] in b.queue && b.queue[0] in b.all;
    if HasPts(a.queue, b.queue[0].pts) {
      var k := IndexOf(a.queue, b.queue[0].pts, 0).value;
      assert a.queue[k].pts == b.queue[0].pts;
      assert k != 0;
    }
    if x.pts in Pts(b.all) {
      var y :| y in b.all && y.pts == x.pts;
      assert y !in b.queue;
    }
    DropSide(a, 1, emitted);
    forall p | p in a.queue ensures p in a.queue[1..] || p == x {
    }
  }

  lemma {:induction false} TrimStaleInv(q: Queues, a: Side, b: Side, emitted: set<int>)
    requires a.queue == q.inf && b.queue == q.ui && BothSides(a, b, emitted)
    ensures var t := TrimStale(q);
            && BothSides(a.(queue := t.inf), b.(queue := t.ui), emitted) && t.nextFrameId == q.nextFrameId
            && (forall p :: p in t.inf ==> p in q.inf) && (forall p :: p in t.ui ==> p in q.ui)
            && (forall p :: p in q.inf && p !in t.inf ==> p.pts in b.evicted || Hopeless(p.pts, b.all))
            && (forall p :: p in q.ui && p !in t.ui ==> p.pts in a.evicted || Hopeless(p.pts, a.all))
    decreases |q.inf| + |q.ui|
  {
    if q.inf == [] || q.ui == [] || q.inf[0].pts <= 0 || q.ui[0].pts <= 0 || q.inf[0].pts == q.ui[0].pts {
    } else if InfIsStale(q) {
      StaleFront(a, b, emitted);
      TrimStaleInv(q.(inf := q.inf[1..]), a.(queue := q.inf[1..]), b, emitted);
    } else if UiIsStale(q) {
      StaleFront(b, a, emitted);
      TrimStaleInv(q.(ui := q.ui[1..]), a, b.(queue := q.ui[1..]), emitted);
    }
  }

  ghost function Evicted(a: Side): Side {
    Side(Newest(a.queue), a.all, a.evicted + (Pts(a.queue) - Pts(Newest(a.queue))))
  }

  function Excess(queue: seq<Packet>): nat {
    if |queue| > PENDING_CAP then |queue| - PENDING_CAP else 0
  }

  lemma NewestIs(queue: seq<Packet>)
    ensures Excess(queue) <= |queue| && Newest(queue) == queue[Excess(queue)..]
    ensures forall p :: p in Newest(queue) ==> p in queue
  {
  }

  lemma EvictNewest(a: Side, b: Side, emitted: set<int>)
    requires BothSides(a, b, emitted)
    ensures BothSides(Evicted(a), b, emitted)
  {
    NewestIs(a.queue);
    EvictSide(a, b, Excess(a.queue), emitted);
  }

  lemma Swapped(a: Side, b: Side, emitted: set<int>)
    requires BothSides(a, b, emitted)
    ensures BothSides(b, a, emitted)
  {
  }

  lemma TrimCapSides(a: Side, b: Side, emitted: set<int>)
    requires BothSides(a, b, emitted)
    ensures BothSides(Evicted(a), Evicted(b), emitted)
  {
    EvictNewest(a, b, emitted);
    Swapped(Evicted(a), b, emitted);
    EvictNewest(b, Evicted(a), emitted);
    Swapped(Evicted(b), Evicted(a), emitted);
  }

  /** The sides after a trim. */
  lemma TrimmedSides(h: History)
    ensures var h', t := Step(h, TrimPending), TrimStale(TrimCap(h.queues));
            && Inf(h') == Evicted(Inf(h)).(queue := t.inf) && Ui(h') == Evicted(Ui(h)).(queue := t.ui)
            && h'.queues == t && h'.emitted == h.emitted && h'.allInf == h.allInf && h'.allUi == h.allUi
  {
  }

  lemma TrimSides(h: History)
    requires BothSides(Inf(h), Ui(h), EmittedPts(h.emitted))
    ensures var h' := Step(h, TrimPending);
            && BothSides(Inf(h'), Ui(h'), EmittedPts(h.emitted)) && h'.queues.nextFrameId == h.queues.nextFrameId
            && (forall p :: p in h'.queues.inf ==> p in h.queues.inf)
            && (forall p :: p in h'.queues.ui ==> p in h.queues.ui)
  {
    var q := h.queues;
    TrimCapSides(Inf(h), Ui(h), EmittedPts(h.emitted));
    TrimStaleInv(TrimCap(q), Evicted(Inf(h)), Evicted(Ui(h)), EmittedPts(h.emitted));
    NewestIs(q.inf);
    NewestIs(q.ui);
    TrimmedSides(h);
  }

  lemma AheadOfFewer(inf: seq<Packet>, ui: seq<Packet>, inf': seq<Packet>, ui': seq<Packet>, emitted: seq<Pair>)
    requires Ahead(inf, ui, emitted)
    requires (forall p :: p in inf' ==> p in inf) && (forall p :: p in ui' ==> p in ui)
    ensures Ahead(inf', ui', emitted)
  {
  }

  lemma TrimInv(h: History)
    requires Inv(h)
    ensures Inv(Step(h, TrimPending))
  {
    TrimSides(h);
    TrimmedSides(h);
    var h' := Step(h, TrimPending);
    AheadOfFewer(h.queues.inf, h.queues.ui, h'.queues.inf, h'.queues.ui, h.emitted);
  }

  // Whole histories

  lemma {:induction false} Grows(ops: seq<Op>)
    requires ops != []
    ensures var h, h' := Steps(Start(), ops[..|ops| - 1]), Steps(Start(), ops);
            h.allInf <= h'.allInf && h.allUi <= h'.allUi
  {
  }

  lemma {:induction false} RunInv(ops: seq<Op>)
    requires Increasing(Steps(Start(), ops).allInf) && Increasing(Steps(Start(), ops).allUi)
    ensures Inv(Steps(Start(), ops))
    decreases |ops|
  {
    if ops != [] {
      var before, op := ops[..|ops| - 1], ops[|ops| - 1];
      Grows(ops);
      RunInv(before);
      var h := Steps(Start(), before);
      match op
      case PushInf(p) => PushInfInv(h, p);
      case PushUi(p) => PushUiInv(h, p);
      case Match => MatchInv(h);
      case TrimPending => TrimInv(h);
    }
  }

  /** Pairs have equal timestamps, leave in increasing order, and are numbered consecutively. */
  lemma PairsInOrder(ops: seq<Op>)
    requires Increasing(Steps(Start(), ops).allInf) && Increasing(Steps(Start(), ops).allUi)
    ensures var h := Steps(Start(), ops); Joined(h.emitted, h.allInf, h.allUi)
  {
    RunInv(ops);
  }

  /** A timestamp seen on both sinks is emitted, or pending on both, unless the size limit evicted one copy. */
  lemma SeenOnBothIsJoined(ops: seq<Op>, pts: int)
    requires Increasing(Steps(Start(), ops).allInf) && Increasing(Steps(Start(), ops).allUi)
    requires pts in Pts(Steps(Start(), ops).allInf) && pts in Pts(Steps(Start(), ops).allUi)
    ensures var h := Steps(Start(), ops);
            || pts in EmittedPts(h.emitted)
            || (pts in Pts(h.queues.inf) && pts in Pts(h.queues.ui))
            || pts in h.evictedInf || pts in h.evictedUi
  {
    RunInv(ops);
    var h := Steps(Start(), ops);
    var p :| p in h.allInf && p.pts == pts;
    var u :| u in h.allUi && u.pts == pts;
  }

  lemma FoundIndex(queue: seq<Packet>, p: Packet)
    requires p in queue
    ensures HasPts(queue, p.pts)
  {
    var k :| 0 <= k < |queue| && queue[k] == p;
    assert queue[k].pts == p.pts;
  }

  /** A match that finds nothing means that no timestamp is pending on both sides. */
  lemma VainMatch(q: Queues)
    requires Increasing(q.inf) && TryMatch(q).1 == None
    ensures forall p, u :: p in q.inf && u in q.ui ==> p.pts != u.pts
  {
    forall p | p in q.inf ensures !HasPts(q.ui, p.pts) {
      var k :| 0 <= k < |q.inf| && q.inf[k] == p;
      assert q.inf[k].pts > 0;
    }
    forall u | u in q.ui ensures HasPts(q.ui, u.pts) {
      FoundIndex(q.ui, u);
    }
  }

  /** So once a match finds nothing, a timestamp seen on both sinks has been emitted, unless a copy was evicted. */
  lemma SeenOnBothIsEmitted(ops: seq<Op>, pts: int)
    requires Increasing(Steps(Start(), ops).allInf) && Increasing(Steps(Start(), ops).allUi)
    requires TryMatch(Steps(Start(), ops).queues).1 == None
    requires pts in Pts(Steps(Start(), ops).allInf) && pts in Pts(Steps(Start(), ops).allUi)
    ensures var h := Steps(Start(), ops);
            pts in EmittedPts(h.emitted) || pts in h.evictedInf || pts in h.evictedUi
  {
    RunInv(ops);
    SeenOnBothIsJoined(ops, pts);
    VainMatch(Steps(Start(), ops).queues);
  }

  /** Stale packets have no pending partner, and no continuation of an increasing stream can bring one. */
  lemma {:induction false} StaleDropped(q: Queues, a: Side, b: Side, emitted: set<int>, p: Packet, u: Packet)
    requires a.queue == q.inf && b.queue == q.ui && BothSides(a, b, emitted)
    requires p in q.inf && p !in TrimStale(q).inf && Increasing(b.all + [u])
    ensures p.pts !in Pts(q.ui) && u.pts > p.pts
    decreases |q.inf| + |q.ui|
  {
    AppendNewest(b.queue, b.all, u);
    if q.inf == [] || q.ui == [] || q.inf[0].pts <= 0 || q.ui[0].pts <= 0 || q.inf[0].pts == q.ui[0].pts {
    } else if InfIsStale(q) {
      StaleFront(a, b, emitted);
      assert b.queue[0] in b.queue;
      if p != q.inf[0] {
        assert p in q.inf[1..];
        StaleDropped(q.(inf := q.inf[1..]), a.(queue := q.inf[1..]), b, emitted, p, u);
      }
    } else if UiIsStale(q) {
      StaleFront(b, a, emitted);
      StaleDropped(q.(ui := q.ui[1..]), a, b.(queue := q.ui[1..]), emitted, p, u);
      UiFrontUnmatched(q, p);
    }
  }

  lemma UiFrontUnmatched(q: Queues, p: Packet)
    requires q.ui != [] && p in q.inf && !HasPts(q.inf, q.ui[0].pts) && p.pts !in Pts(q.ui[1..])
    ensures p.pts !in Pts(q.ui)
  {
    var k :| 0 <= k < |q.inf| && q.inf[k] == p;
    assert q.inf[k].pts != q.ui[0].pts;
    forall x | x in q.ui ensures x.pts != p.pts {
      assert x == q.ui[0] || x in q.ui[1..];
    }
  }

  /** The same on the other side. */
  lemma {:induction false} StaleUiDropped(q: Queues, a: Side, b: Side, emitted: set<int>, u: Packet, p: Packet)
    requires a.queue == q.inf && b.queue == q.ui && BothSides(a, b, emitted)
    requires u in q.ui && u !in TrimStale(q).ui && Increasing(a.all + [p])
    ensures u.pts !in Pts(q.inf) && p.pts > u.pts
    decreases |q.inf| + |q.ui|
  {
    AppendNewest(a.queue, a.all, p);
    if q.inf == [] || q.ui == [] || q.inf[0].pts <= 0 || q.ui[0].pts <= 0 || q.inf[0].pts == q.ui[0].pts {
    } else if InfIsStale(q) {
      StaleFront(a, b, emitted);
      StaleUiDropped(q.(inf := q.inf[1..]), a.(queue := q.inf[1..]), b, emitted, u, p);
      InfFrontUnmatched(q, u);
    } else if UiIsStale(q) {
      StaleFront(b, a, emitted);
      assert a.queue[0] in a.queue;
      if u != q.ui[0] {
        assert u in q.ui[1..];
        StaleUiDropped(q.(ui := q.ui[1..]), a, b.(queue := q.ui[1..]), emitted, u, p);
      }
    }
  }

  lemma InfFrontUnmatched(q: Queues, u: Packet)
    requires q.inf != [] && u in q.ui && !HasPts(q.ui, q.inf[0].pts) && u.pts !in Pts(q.inf[1..])
    ensures u.pts !in Pts(q.inf)
  {
    var k :| 0 <= k < |q.ui| && q.ui[k] == u;
    assert q.ui[k].pts != q.inf[0].pts;
    forall x | x in q.inf ensures x.pts != u.pts {
      assert x == q.inf[0] || x in q.inf[1..];
    }
  }

  /**
   The stale trim drops only what can never be matched, on either sink: the packet has no pending partner, and whatever
   packet comes next on the other sink is newer.
   */
  lemma StaleIsHopeless(ops: seq<Op>, p: Packet, next: Packet)
    requires Increasing(Steps(Start(), ops).allInf) && Increasing(Steps(Start(), ops).allUi)
    ensures var h, q := Steps(Start(), ops), TrimCap(Steps(Start(), ops).queues);
            && (p in q.inf && p !in TrimStale(q).inf && Increasing(h.allUi + [next]) ==>
                  p.pts !in Pts(q.ui) && next.pts > p.pts)
            && (p in q.ui && p !in TrimStale(q).ui && Increasing(h.allInf + [next]) ==>
                  p.pts !in Pts(q.inf) && next.pts > p.pts)
  {
    RunInv(ops);
    var h := Steps(Start(), ops);
    var q := TrimCap(h.queues);
    TrimCapSides(Inf(h), Ui(h), EmittedPts(h.emitted));
    if p in q.inf && p !in TrimStale(q).inf && Increasing(h.allUi + [next]) {
      StaleDropped(q, Evicted(Inf(h)), Evicted(Ui(h)), EmittedPts(h.emitted), p, next);
    }
    if p in q.ui && p !in TrimStale(q).ui && Increasing(h.allInf + [next]) {
      StaleUiDropped(q, Evicted(Inf(h)), Evicted(Ui(h)), EmittedPts(h.emitted), p, next);
    }
  }
}
