/**
 What every emitted pair is made of, timestamped or not, and what the size limit may drop
 (core/src/ingest/gst_dual_source.cpp).
 */
module DualSourcePairs {
  import opened Types
  import opened DualSourceSpec
  import opened DualSourceTheorems

  // Every pair

  /** Two frames that were pulled, with equal timestamps or none at all, and the ratio of their sizes. */
  ghost predicate PairSound(e: Pair, n: int, allInf: seq<Packet>, allUi: seq<Packet>) {
    && e.inf in allInf && e.ui in allUi && e.frameId == n
    && (if e.inf.pts > 0 then e.ui.pts == e.inf.pts == e.pts else e.ui.pts <= 0 && e.pts == e.ui.pts)
    && e.scaleX * Max(1, e.inf.cols) as real == e.ui.cols as real
    && e.scaleY * Max(1, e.inf.rows) as real == e.ui.rows as real
  }

  ghost predicate PairsSound(h: History) {
    && (forall n :: 0 <= n < |h.emitted| ==> PairSound(h.emitted[n], n, h.allInf, h.allUi))
    && (forall p :: p in h.queues.inf ==> p in h.allInf) && (forall p :: p in h.queues.ui ==> p in h.allUi)
    && h.queues.nextFrameId == |h.emitted|
  }

  lemma Ratio(a: nat, b: nat)
    ensures (a as real / Max(1, b) as real) * Max(1, b) as real == a as real
  {
  }

  lemma MadeSound(inf: Packet, ui: Packet, id: int, allInf: seq<Packet>, allUi: seq<Packet>)
    requires inf in allInf && ui in allUi
    requires if inf.pts > 0 then ui.pts == inf.pts else ui.pts <= 0
    ensures PairSound(MakePair(inf, ui, id), id, allInf, allUi)
  {
    Ratio(ui.cols, inf.cols);
    Ratio(ui.rows, inf.rows);
  }

  lemma TakenSound(h: History, i: nat, j: nat)
    requires PairsSound(h) && i < |h.queues.inf| && j < |h.queues.ui|
    requires var inf, ui := h.queues.inf[i], h.queues.ui[j]; if inf.pts > 0 then ui.pts == inf.pts else ui.pts <= 0
    ensures var r := TakePair(h.queues, i, j); PairsSound(h.(queues := r.0, emitted := h.emitted + [r.1.value]))
  {
    assert h.queues.inf[i] in h.allInf && h.queues.ui[j] in h.allUi;
    MadeSound(h.queues.inf[i], h.queues.ui[j], h.queues.nextFrameId, h.allInf, h.allUi);
  }

  lemma MatchSound(h: History)
    requires PairsSound(h)
    ensures PairsSound(Step(h, Match))
  {
    var q := h.queues;
    var i := FirstMatch(q.inf, q.ui, 0);
    if i.Some? {
      TakenSound(h, i.value, IndexOf(q.ui, q.inf[i.value].pts, 0).value);
    } else if q.inf != [] && q.ui != [] && q.inf[0].pts <= 0 && q.ui[0].pts <= 0 {
      TakenSound(h, 0, 0);
    }
  }

  lemma {:induction false} StaleOnlyDrops(q: Queues)
    ensures var t := TrimStale(q);
            && t.nextFrameId == q.nextFrameId && |t.inf| <= |q.inf| && |t.ui| <= |q.ui|
            && (forall p :: p in t.inf ==> p in q.inf) && (forall p :: p in t.ui ==> p in q.ui)
    decreases |q.inf| + |q.ui|
  {
    if q.inf == [] || q.ui == [] || q.inf[0].pts <= 0 || q.ui[0].pts <= 0 || q.inf[0].pts == q.ui[0].pts {
    } else if InfIsStale(q) {
      StaleOnlyDrops(q.(inf := q.inf[1..]));
    } else if UiIsStale(q) {
      StaleOnlyDrops(q.(ui := q.ui[1..]));
    }
  }

  lemma TrimSound(h: History)
    requires PairsSound(h)
    ensures PairsSound(Step(h, TrimPending))
  {
    NewestIs(h.queues.inf);
    NewestIs(h.queues.ui);
    StaleOnlyDrops(TrimCap(h.queues));
  }

  /** In any history, timestamped or not: every pair joins two pulled frames that belong together. */
  lemma {:induction false} PairsAreSound(ops: seq<Op>)
    ensures PairsSound(Steps(Start(), ops))
    decreases |ops|
  {
    if ops != [] {
      var h, op := Steps(Start(), ops[..|ops| - 1]), ops[|ops| - 1];
      PairsAreSound(ops[..|ops| - 1]);
      match op
      case Match => MatchSound(h);
      case TrimPending => TrimSound(h);
      case _ =>
    }
  }

  // Streams without timestamps

  ghost predicate Untimed(all: seq<Packet>) {
    forall i :: 0 <= i < |all| ==> all[i].pts <= 0
  }

  /** Where the packets of the pairs stand among all that were pulled: in order, and before those that wait. */
  ghost predicate Positions(taken: seq<Packet>, all: seq<Packet>, waiting: nat, at: seq<nat>) {
    && |at| == |taken| && waiting <= |all|
    && (forall k :: 0 <= k < |at| ==> at[k] < |all| - waiting && all[at[k]] == taken[k])
    && (forall k, l :: 0 <= k < l < |at| ==> at[k] < at[l])
  }

  ghost predicate TakenInOrder(taken: seq<Packet>, all: seq<Packet>, queue: seq<Packet>) {
    && |queue| <= |all| && queue == all[|all| - |queue|..]
    && exists at: seq<nat> :: Positions(taken, all, |queue|, at)
  }

  ghost function InfOf(emitted: seq<Pair>): seq<Packet> {
    seq(|emitted|, i requires 0 <= i < |emitted| => emitted[i].inf)
  }

  ghost function UiOf(emitted: seq<Pair>): seq<Packet> {
    seq(|emitted|, i requires 0 <= i < |emitted| => emitted[i].ui)
  }

  ghost predicate FirstInFirstOut(h: History) {
    TakenInOrder(InfOf(h.emitted), h.allInf, h.queues.inf) && TakenInOrder(UiOf(h.emitted), h.allUi, h.queues.ui)
  }

  lemma PushInOrder(taken: seq<Packet>, all: seq<Packet>, queue: seq<Packet>, p: Packet)
    requires TakenInOrder(taken, all, queue)
    ensures TakenInOrder(taken, all + [p], queue + [p])
  {
    var at: seq<nat> :| Positions(taken, all, |queue|, at);
    assert Positions(taken, all + [p], |queue| + 1, at);
  }

  lemma TakeInOrder(taken: seq<Packet>, all: seq<Packet>, queue: seq<Packet>)
    requires TakenInOrder(taken, all, queue) && queue != []
    ensures TakenInOrder(taken + [queue[0]], all, queue[1..])
  {
    var at: seq<nat> :| Positions(taken, all, |queue|, at);
    var here: nat := |all| - |queue|;
    assert all[here] == queue[0];
    assert Positions(taken + [queue[0]], all, |queue| - 1, at + [here]);
  }

  lemma DropInOrder(taken: seq<Packet>, all: seq<Packet>, queue: seq<Packet>, n: nat)
    requires TakenInOrder(taken, all, queue) && n <= |queue|
    ensures TakenInOrder(taken, all, queue[n..])
  {
    var at: seq<nat> :| Positions(taken, all, |queue|, at);
    assert Positions(taken, all, |queue| - n, at);
    assert queue[n..] == all[|all| - (|queue| - n)..];
  }

  lemma WaitingUntimed(taken: seq<Packet>, all: seq<Packet>, queue: seq<Packet>)
    requires TakenInOrder(taken, all, queue) && Untimed(all)
    ensures Untimed(queue)
  {
    forall i | 0 <= i < |queue| ensures queue[i].pts <= 0 {
      assert queue[i] == all[|all| - |queue| + i];
    }
  }

  /** Without timestamps a match joins the two fronts, if there are two. */
  lemma UntimedMatch(q: Queues)
    requires Untimed(q.inf) && Untimed(q.ui)
    ensures if q.inf == [] || q.ui == [] then TryMatch(q) == (q, None)
            else TryMatch(q) == (Queues(q.inf[1..], q.ui[1..], q.nextFrameId + 1),
                                 Some(MakePair(q.inf[0], q.ui[0], q.nextFrameId)))
  {
    assert FirstMatch(q.inf, q.ui, 0) == None;
    if q.inf != [] && q.ui != [] {
      assert RemoveAt(q.inf, 0) == q.inf[1..] && RemoveAt(q.ui, 0) == q.ui[1..];
    }
  }

  lemma MatchInOrder(h: History)
    requires FirstInFirstOut(h) && Untimed(h.allInf) && Untimed(h.allUi)
    ensures FirstInFirstOut(Step(h, Match))
  {
    var q := h.queues;
    WaitingUntimed(InfOf(h.emitted), h.allInf, q.inf);
    WaitingUntimed(UiOf(h.emitted), h.allUi, q.ui);
    UntimedMatch(q);
    if q.inf != [] && q.ui != [] {
      var e := MakePair(q.inf[0], q.ui[0], q.nextFrameId);
      TakeInOrder(InfOf(h.emitted), h.allInf, q.inf);
      TakeInOrder(UiOf(h.emitted), h.allUi, q.ui);
      assert InfOf(h.emitted + [e]) == InfOf(h.emitted) + [q.inf[0]];
      assert UiOf(h.emitted + [e]) == UiOf(h.emitted) + [q.ui[0]];
    }
  }

  lemma TrimInOrder(h: History)
    requires FirstInFirstOut(h) && Untimed(h.allInf) && Untimed(h.allUi)
    ensures FirstInFirstOut(Step(h, TrimPending))
  {
    var q := TrimCap(h.queues);
    NewestIs(h.queues.inf);
    NewestIs(h.queues.ui);
    DropInOrder(InfOf(h.emitted), h.allInf, h.queues.inf, Excess(h.queues.inf));
    DropInOrder(UiOf(h.emitted), h.allUi, h.queues.ui, Excess(h.queues.ui));
    WaitingUntimed(InfOf(h.emitted), h.allInf, q.inf);
    assert TrimStale(q) == q;
  }

  /**
   When no frame carries a timestamp, both sinks are consumed in order: the frames of later pairs were pulled later, on
   either side, and what waits was pulled after all of them.
   */
  lemma {:induction false} UntimedPairsInOrder(ops: seq<Op>)
    requires Untimed(Steps(Start(), ops).allInf) && Untimed(Steps(Start(), ops).allUi)
    ensures FirstInFirstOut(Steps(Start(), ops))
    decreases |ops|
  {
    if ops == [] {
      var nowhere: seq<nat> := [];
      assert Positions([], [], 0, nowhere);
      assert InfOf([]) == [] && UiOf([]) == [];
    } else {
      var h, op := Steps(Start(), ops[..|ops| - 1]), ops[|ops| - 1];
      Grows(ops);
      UntimedPairsInOrder(ops[..|ops| - 1]);
      match op
      case PushInf(p) => PushInOrder(InfOf(h.emitted), h.allInf, h.queues.inf, p);
      case PushUi(p) => PushInOrder(UiOf(h.emitted), h.allUi, h.queues.ui, p);
      case Match => MatchInOrder(h);
      case TrimPending => TrimInOrder(h);
    }
  }

  // The size limit

  ghost function Newer(all: seq<Packet>, pts: int): set<int> {
    set p | p in all && p.pts > pts :: p.pts
  }

  lemma SizeOfSubset(a: set<int>, b: set<int>)
    requires a <= b
    ensures |a| <= |b|
  {
    assert b == a + (b - a);
  }

  lemma {:induction false} PtsSize(queue: seq<Packet>)
    requires Increasing(queue)
    ensures |Pts(queue)| == |queue|
    decreases |queue|
  {
    if queue == [] {
      assert Pts(queue) == {};
    } else {
      var n := |queue| - 1;
      PtsSize(queue[..n]);
      assert queue == queue[..n] + [queue[n]];
      assert Pts(queue) == Pts(queue[..n]) + {queue[n].pts};
      assert queue[n].pts !in Pts(queue[..n]);
    }
  }

  /** Eight packets that came later from the same sink were pending together with every evicted one. */
  ghost predicate Crowded(evicted: set<int>, all: seq<Packet>) {
    forall pts :: pts in evicted ==> |Newer(all, pts)| >= 8
  }

  lemma CrowdedStays(evicted: set<int>, all: seq<Packet>, all': seq<Packet>)
    requires Crowded(evicted, all) && all <= all'
    ensures Crowded(evicted, all')
  {
    forall pts | pts in evicted ensures |Newer(all', pts)| >= 8 {
      SizeOfSubset(Newer(all, pts), Newer(all', pts));
    }
  }

  lemma BeforeSuffix(queue: seq<Packet>, n: nat, p: Packet)
    requires n <= |queue| && p in queue && p !in queue[n..]
    ensures exists i :: 0 <= i < n && queue[i] == p
  {
    assert queue == queue[..n] + queue[n..];
    assert p in queue[..n];
  }

  lemma EvictedIsCrowded(queue: seq<Packet>, all: seq<Packet>, pts: int)
    requires Increasing(queue) && (forall p :: p in queue ==> p in all) && pts in Pts(queue) - Pts(Newest(queue))
    ensures |Newer(all, pts)| >= 8
  {
    var kept := Newest(queue);
    NewestIs(queue);
    var p :| p in queue && p.pts == pts;
    assert p !in kept;
    BeforeSuffix(queue, Excess(queue), p);
    var i :| 0 <= i < Excess(queue) && queue[i] == p;
    PtsSize(kept);
    assert Pts(kept) <= Newer(all, pts);
    SizeOfSubset(Pts(kept), Newer(all, pts));
  }

  /** On timestamped streams the size limit evicts a packet only when eight newer ones of its sink were pulled. */
  lemma {:induction false} EvictedOnlyWhenCrowded(ops: seq<Op>)
    requires Increasing(Steps(Start(), ops).allInf) && Increasing(Steps(Start(), ops).allUi)
    ensures var h := Steps(Start(), ops); Crowded(h.evictedInf, h.allInf) && Crowded(h.evictedUi, h.allUi)
    decreases |ops|
  {
    if ops != [] {
      var h, h' := Steps(Start(), ops[..|ops| - 1]), Steps(Start(), ops);
      Grows(ops);
      RunInv(ops[..|ops| - 1]);
      EvictedOnlyWhenCrowded(ops[..|ops| - 1]);
      CrowdedStays(h.evictedInf, h.allInf, h'.allInf);
      CrowdedStays(h.evictedUi, h.allUi, h'.allUi);
      if ops[|ops| - 1] == TrimPending {
        forall pts | pts in h'.evictedInf - h.evictedInf ensures |Newer(h.allInf, pts)| >= 8 {
          EvictedIsCrowded(h.queues.inf, h.allInf, pts);
        }
        forall pts | pts in h'.evictedUi - h.evictedUi ensures |Newer(h.allUi, pts)| >= 8 {
          EvictedIsCrowded(h.queues.ui, h.allUi, pts);
        }
      }
    }
  }

  /** After a trim at most eight packets wait on either side. */
  lemma TrimBounds(h: History)
    ensures var q := Step(h, TrimPending).queues; |q.inf| <= 8 && |q.ui| <= 8
  {
    StaleOnlyDrops(TrimCap(h.queues));
  }
}
