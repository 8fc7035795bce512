/**
 Matching predicted boxes to reference boxes (scripts/eval_mot20_detection_overlap.py).
 */
module GreedyMatch {
  import opened Types
  import opened Geometry
  import opened OrderedKeys

  datatype Match = Match(pred: nat, ref: nat, score: real)

  ghost predicate IsCandidate(m: Match, preds: seq<Rect>, refs: seq<Rect>, threshold: real) {
    && m.pred < |preds| && m.ref < |refs|
    && m.score == ScriptIou(preds[m.pred], refs[m.ref]) >= threshold
  }

  /** Tuples (score, pred, ref) in descending order. */
  predicate AtLeast(a: Match, b: Match) {
    || a.score > b.score
    || (a.score == b.score && (a.pred > b.pred || (a.pred == b.pred && a.ref >= b.ref)))
  }

  ghost predicate Descending(list: seq<Match>) {
    forall i, j :: 0 <= i < j < |list| ==> AtLeast(list[i], list[j])
  }

  method Candidates(preds: seq<Rect>, refs: seq<Rect>, threshold: real) returns (list: seq<Match>)
    ensures forall m :: m in list <==> IsCandidate(m, preds, refs, threshold)
  {
    list := [];
    for p := 0 to |preds|
      invariant forall m :: m in list <==> IsCandidate(m, preds, refs, threshold) && m.pred < p
    {
      for r := 0 to |refs|
        invariant forall m :: m in list <==>
          IsCandidate(m, preds, refs, threshold) && (m.pred < p || (m.pred == p && m.ref < r))
      {
        var score := ScriptIou(preds[p], refs[r]);
        if score >= threshold {
          list := list + [Match(p, r, score)];
        }
      }
    }
  }

  function Insert(m: Match, list: seq<Match>): (r: seq<Match>)
    requires Descending(list)
    ensures Descending(r) && r != [] && (r[0] == m || (list != [] && r[0] == list[0]))
    ensures forall x :: x in r <==> x == m || x in list
  {
    if list == [] then [m]
    else if AtLeast(m, list[0]) then [m] + list
    else
      var rest := Insert(m, list[1..]);
      assert forall x :: x in list <==> x == list[0] || x in list[1..];
      [list[0]] + rest
  }

  /** `sort(reverse=True)`; equal tuples cannot be told apart. */
  function Sort(list: seq<Match>): (r: seq<Match>)
    ensures Descending(r) && forall x :: x in r <==> x in list
  {
    if list == [] then []
    else
      assert forall x :: x in list <==> x == list[0] || x in list[1..];
      Insert(list[0], Sort(list[1..]))
  }

  // What a matching is

  ghost predicate Disjoint(list: seq<Match>) {
    forall i, j :: 0 <= i < j < |list| ==> list[i].pred != list[j].pred && list[i].ref != list[j].ref
  }

  /** Any one-to-one choice of pairs that reach the threshold. */
  ghost predicate IsMatching(list: seq<Match>, preds: seq<Rect>, refs: seq<Rect>, threshold: real) {
    Disjoint(list) && forall m :: m in list ==> IsCandidate(m, preds, refs, threshold)
  }

  /** The pair shares a box with a chosen pair of at least its score. */
  ghost predicate Blocked(m: Match, chosen: seq<Match>) {
    exists c :: c in chosen && (c.pred == m.pred || c.ref == m.ref) && c.score >= m.score
  }

  ghost predicate BlocksAll(chosen: seq<Match>, preds: seq<Rect>, refs: seq<Rect>, threshold: real) {
    forall m :: IsCandidate(m, preds, refs, threshold) ==> Blocked(m, chosen)
  }

  ghost function PredsOf(list: seq<Match>): set<nat> {
    set m | m in list :: m.pred
  }

  ghost function RefsOf(list: seq<Match>): set<nat> {
    set m | m in list :: m.ref
  }

  lemma BlockedStays(m: Match, chosen: seq<Match>, c: Match)
    requires Blocked(m, chosen)
    ensures Blocked(m, chosen + [c])
  {
    var x :| x in chosen && (x.pred == m.pred || x.ref == m.ref) && x.score >= m.score;
    assert x in chosen + [c];
  }

  lemma ChooseOne(chosen: seq<Match>, m: Match)
    requires Disjoint(chosen) && m.pred !in PredsOf(chosen) && m.ref !in RefsOf(chosen)
    ensures Disjoint(chosen + [m])
    ensures PredsOf(chosen + [m]) == PredsOf(chosen) + {m.pred} && RefsOf(chosen + [m]) == RefsOf(chosen) + {m.ref}
  {
    var longer := chosen + [m];
    assert longer[|chosen|] == m;
    forall x ensures x in longer <==> x in chosen || x == m {
    }
    forall i, j | 0 <= i < j < |longer| ensures longer[i].pred != longer[j].pred && longer[i].ref != longer[j].ref {
      assert longer[i] in chosen;
    }
  }

  lemma RejectedIsBlocked(chosen: seq<Match>, m: Match)
    requires m.pred in PredsOf(chosen) || m.ref in RefsOf(chosen)
    requires forall c :: c in chosen ==> c.score >= m.score
    ensures Blocked(m, chosen)
  {
    var c :| c in chosen && (c.pred == m.pred || c.ref == m.ref);
  }

  /** What holds once the candidates in `seen` have been visited. */
  ghost predicate Chosen(seen: seq<Match>, chosen: seq<Match>) {
    && Disjoint(chosen) && (forall m :: m in chosen ==> m in seen) && (forall m :: m in seen ==> Blocked(m, chosen))
  }

  lemma Reject(seen: seq<Match>, m: Match, chosen: seq<Match>)
    requires Chosen(seen, chosen) && forall c :: c in seen ==> c.score >= m.score
    requires m.pred in PredsOf(chosen) || m.ref in RefsOf(chosen)
    ensures Chosen(seen + [m], chosen)
  {
    RejectedIsBlocked(chosen, m);
  }

  lemma Accept(seen: seq<Match>, m: Match, chosen: seq<Match>)
    requires Chosen(seen, chosen) && m.pred !in PredsOf(chosen) && m.ref !in RefsOf(chosen)
    ensures Chosen(seen + [m], chosen + [m])
  {
    ChooseOne(chosen, m);
    forall c | c in seen ensures Blocked(c, chosen + [m]) {
      BlockedStays(c, chosen, m);
    }
    assert m in chosen + [m];
  }

  lemma SeenScoreMore(candidates: seq<Match>, i: nat)
    requires Descending(candidates) && i < |candidates|
    ensures candidates[..i + 1] == candidates[..i] + [candidates[i]]
    ensures forall c :: c in candidates[..i] ==> c.score >= candidates[i].score
  {
    forall c | c in candidates[..i] ensures c.score >= candidates[i].score {
      var k :| 0 <= k < i && candidates[..i][k] == c;
      assert AtLeast(candidates[k], candidates[i]);
    }
  }

  lemma LastIsFresh(front: seq<Match>, m: Match)
    requires Disjoint(front + [m])
    ensures Disjoint(front) && m.pred !in PredsOf(front) && m.ref !in RefsOf(front)
  {
    var all := front + [m];
    assert all[|front|] == m;
    forall i, j | 0 <= i < j < |front| ensures front[i].pred != front[j].pred && front[i].ref != front[j].ref {
      assert all[i] == front[i] && all[j] == front[j];
    }
    forall c | c in front ensures c.pred != m.pred && c.ref != m.ref {
      var k :| 0 <= k < |front| && front[k] == c;
      assert all[k] == c;
    }
  }

  /** Chosen pairs use as many predictions and references as there are pairs. */
  lemma {:induction false} UsedOnce(chosen: seq<Match>)
    requires Disjoint(chosen)
    ensures |PredsOf(chosen)| == |chosen| == |RefsOf(chosen)|
    decreases |chosen|
  {
    if chosen != [] {
      var front, m := chosen[..|chosen| - 1], chosen[|chosen| - 1];
      assert chosen == front + [m];
      LastIsFresh(front, m);
      UsedOnce(front);
      ChooseOne(front, m);
    }
  }

  method Choose(candidates: seq<Match>) returns (chosen: seq<Match>, preds: set<nat>, refs: set<nat>)
    requires Descending(candidates)
    ensures Chosen(candidates, chosen) && preds == PredsOf(chosen) && refs == RefsOf(chosen)
  {
    chosen, preds, refs := [], {}, {};
    for i := 0 to |candidates|
      invariant Chosen(candidates[..i], chosen) && preds == PredsOf(chosen) && refs == RefsOf(chosen)
    {
      var m := candidates[i];
      SeenScoreMore(candidates, i);
      if m.pred in preds || m.ref in refs {
        Reject(candidates[..i], m, chosen);
        continue;
      }
      Accept(candidates[..i], m, chosen);
      ChooseOne(chosen, m);
      preds := preds + {m.pred};
      refs := refs + {m.ref};
      chosen := chosen + [m];
    }
    assert candidates[..|candidates|] == candidates;
  }

  /** The result is one-to-one, above the threshold, and leaves out no pair that does not lose to a chosen one. */
  method GreedyMatchIou(preds: seq<Rect>, refs: seq<Rect>, threshold: real)
    returns (matches: seq<Match>, matchedPreds: nat, matchedRefs: nat)
    ensures IsMatching(matches, preds, refs, threshold) && BlocksAll(matches, preds, refs, threshold)
    ensures matchedPreds == matchedRefs == |matches|
    ensures |matches| <= |preds| && |matches| <= |refs|
  {
    var candidates := Candidates(preds, refs, threshold);
    var ps, rs;
    var sorted := Sort(candidates);
    matches, ps, rs := Choose(sorted);
    UsedOnce(matches);
    matchedPreds, matchedRefs := |ps|, |rs|;
    forall m | m in matches ensures IsCandidate(m, preds, refs, threshold) {
      assert m in candidates;
    }
    forall m | IsCandidate(m, preds, refs, threshold) ensures Blocked(m, matches) {
      assert m in candidates;
    }
    Bounded(ps, |preds|);
    Bounded(rs, |refs|);
  }

  lemma {:induction false} Bounded(s: set<nat>, n: nat)
    requires forall x :: x in s ==> x < n
    ensures |s| <= n
  {
    if n == 0 {
      assert s == {} by {
        forall x ensures x !in s {
        }
      }
    } else {
      Bounded(s - {n - 1}, n - 1);
      assert s <= s - {n - 1} + {n - 1};
    }
  }

  // Half of the optimum

  ghost function Total(list: seq<Match>, weight: Match -> real): real {
    if list == [] then 0.0 else weight(list[0]) + Total(list[1..], weight)
  }

  /** The weight of the chosen pair with this key, if there is one. */
  ghost function WeightAt(chosen: seq<Match>, weight: Match -> real, key: Match -> nat, x: nat): real {
    if chosen == [] then 0.0
    else (if key(chosen[0]) == x then weight(chosen[0]) else 0.0) + WeightAt(chosen[1..], weight, key, x)
  }

  /** The chosen weight that the pairs of a list can be charged to by one of their keys. */
  ghost function Charge(list: seq<Match>, chosen: seq<Match>, weight: Match -> real, key: Match -> nat): real {
    if list == [] then 0.0 else WeightAt(chosen, weight, key, key(list[0])) + Charge(list[1..], chosen, weight, key)
  }

  ghost predicate NonNegative(list: seq<Match>, weight: Match -> real) {
    forall m :: m in list ==> weight(m) >= 0.0
  }

  ghost predicate DistinctKeys(list: seq<Match>, key: Match -> nat) {
    forall i, j :: 0 <= i < j < |list| ==> key(list[i]) != key(list[j])
  }

  lemma {:induction false} WeightAtLeast(chosen: seq<Match>, weight: Match -> real, key: Match -> nat, c: Match)
    requires NonNegative(chosen, weight)
    ensures forall x :: WeightAt(chosen, weight, key, x) >= 0.0
    ensures c in chosen ==> WeightAt(chosen, weight, key, key(c)) >= weight(c)
    decreases |chosen|
  {
    if chosen != [] {
      assert chosen[0] in chosen && forall m :: m in chosen[1..] ==> m in chosen;
      WeightAtLeast(chosen[1..], weight, key, c);
    }
  }

  ghost predicate Has(list: seq<Match>, key: Match -> nat, x: nat) {
    exists m :: m in list && key(m) == x
  }

  /** Adding a chosen pair raises the charge by its weight at most once. */
  lemma {:induction false} ChargeOne(list: seq<Match>, chosen: seq<Match>, weight: Match -> real, key: Match -> nat)
    requires chosen != [] && DistinctKeys(list, key)
    ensures Charge(list, chosen, weight, key)
         == Charge(list, chosen[1..], weight, key) + if Has(list, key, key(chosen[0])) then weight(chosen[0]) else 0.0
    decreases |list|
  {
    if list != [] {
      ChargeOne(list[1..], chosen, weight, key);
      assert Has(list, key, key(chosen[0])) <==> key(list[0]) == key(chosen[0]) || Has(list[1..], key, key(chosen[0]));
      if key(list[0]) == key(chosen[0]) {
        forall m | m in list[1..] ensures key(m) != key(chosen[0]) {
          var j :| 0 <= j < |list[1..]| && list[1..][j] == m;
          assert list[j + 1] == m;
        }
      }
    }
  }

  lemma {:induction false} ChargeBounded(list: seq<Match>, chosen: seq<Match>, weight: Match -> real, key: Match -> nat)
    requires DistinctKeys(list, key) && NonNegative(chosen, weight)
    ensures Charge(list, chosen, weight, key) <= Total(chosen, weight)
    decreases |chosen|
  {
    if chosen == [] {
      ChargeNothing(list, weight, key);
    } else {
      assert chosen[0] in chosen && forall m :: m in chosen[1..] ==> m in chosen;
      ChargeOne(list, chosen, weight, key);
      ChargeBounded(list, chosen[1..], weight, key);
    }
  }

  lemma {:induction false} ChargeNothing(list: seq<Match>, weight: Match -> real, key: Match -> nat)
    ensures Charge(list, [], weight, key) == 0.0
    decreases |list|
  {
    if list != [] {
      ChargeNothing(list[1..], weight, key);
    }
  }

  ghost predicate BlockedByWeight(list: seq<Match>, chosen: seq<Match>, weight: Match -> real) {
    forall m :: m in list ==>
      exists c :: c in chosen && (c.pred == m.pred || c.ref == m.ref) && weight(c) >= weight(m)
  }

  lemma {:induction false} Charged(list: seq<Match>, chosen: seq<Match>, weight: Match -> real)
    requires NonNegative(chosen, weight) && BlockedByWeight(list, chosen, weight)
    ensures Total(list, weight)
         <= Charge(list, chosen, weight, (m: Match) => m.pred) + Charge(list, chosen, weight, (m: Match) => m.ref)
    decreases |list|
  {
    if list != [] {
      assert list[0] in list && forall m :: m in list[1..] ==> m in list;
      var c :| c in chosen && (c.pred == list[0].pred || c.ref == list[0].ref) && weight(c) >= weight(list[0]);
      WeightAtLeast(chosen, weight, (m: Match) => m.pred, c);
      WeightAtLeast(chosen, weight, (m: Match) => m.ref, c);
      Charged(list[1..], chosen, weight);
    }
  }

  /** However pairs are weighed, a choice that blocks every pair of a matching has at least half of its weight. */
  lemma HalfOf(other: seq<Match>, chosen: seq<Match>, weight: Match -> real)
    requires Disjoint(other) && NonNegative(chosen, weight) && BlockedByWeight(other, chosen, weight)
    ensures Total(other, weight) <= 2.0 * Total(chosen, weight)
  {
    Charged(other, chosen, weight);
    ChargeBounded(other, chosen, weight, (m: Match) => m.pred);
    ChargeBounded(other, chosen, weight, (m: Match) => m.ref);
  }

  lemma {:induction false} TotalOfOnes(list: seq<Match>)
    ensures Total(list, (m: Match) => 1.0) == |list| as real
    decreases |list|
  {
    if list != [] {
      TotalOfOnes(list[1..]);
    }
  }

  /** Greedy matching finds at least half as many pairs, and half as much overlap, as any matching at the threshold. */
  lemma {:induction false} AtLeastHalfOfAnyMatching(matches: seq<Match>, other: seq<Match>, preds: seq<Rect>,
                                                    refs: seq<Rect>, threshold: real)
    requires IsMatching(matches, preds, refs, threshold) && BlocksAll(matches, preds, refs, threshold)
    requires IsMatching(other, preds, refs, threshold)
    ensures |other| <= 2 * |matches|
    ensures Total(other, (m: Match) => m.score) <= 2.0 * Total(matches, (m: Match) => m.score)
  {
    forall m | m in other ensures Blocked(m, matches) {
    }
    HalfOf(other, matches, (m: Match) => 1.0);
    TotalOfOnes(other);
    TotalOfOnes(matches);
    forall m | m in matches ensures m.score >= 0.0 {
      IouLaws(preds[m.pred], refs[m.ref]);
    }
    HalfOf(other, matches, (m: Match) => m.score);
  }

  // Counting over all frames

  type Boxes = map<int, seq<Rect>>

  function At(boxes: Boxes, frame: int): seq<Rect> {
    if frame in boxes then boxes[frame] else []
  }

  function Size(boxes: Boxes, frames: seq<int>): nat {
    if frames == [] then 0 else Size(boxes, frames[..|frames| - 1]) + |At(boxes, frames[|frames| - 1])|
  }

  /** `sorted(...)` of a set of frame numbers. */
  method SortFrames(frames: set<int>) returns (s: seq<int>)
    ensures Ascending(s) && forall k :: k in s <==> k in frames
  {
    s := SortedKeys(frames);
  }

  method CountBoxes(boxes: Boxes) returns (n: nat, ghost frames: seq<int>)
    ensures Ascending(frames) && (forall k :: k in frames <==> k in boxes) && n == Size(boxes, frames)
  {
    var keys := SortFrames(boxes.Keys);
    frames := keys;
    n := 0;
    for i := 0 to |keys|
      invariant n == Size(boxes, keys[..i])
    {
      assert keys[i] in keys && keys[..i + 1][..i] == keys[..i];
      n := n + |boxes[keys[i]]|;
    }
    assert keys[..|keys|] == keys;
  }

  /** Frames without boxes do not change the count. */
  lemma {:induction false} SizeOfMore(boxes: Boxes, frames: seq<int>, more: seq<int>)
    requires Ascending(frames) && Ascending(more) && (forall k :: k in frames <==> k in more && k in boxes)
    ensures Size(boxes, frames) == Size(boxes, more)
    decreases |more|
  {
    if more == [] {
      NonemptyList(frames);
    } else {
      var last, n := more[|more| - 1], |more| - 1;
      assert last in more && last !in more[..n];
      assert forall k :: k in more <==> k in more[..n] || k == last;
      if last in boxes {
        LastOf(frames, last);
        SizeOfMore(boxes, frames[..|frames| - 1], more[..n]);
      } else {
        SizeOfMore(boxes, frames, more[..n]);
      }
    }
  }

  lemma LastOf(frames: seq<int>, last: int)
    requires Ascending(frames) && last in frames && forall k :: k in frames ==> k <= last
    ensures frames != [] && frames[|frames| - 1] == last
    ensures forall k :: k in frames[..|frames| - 1] <==> k in frames && k != last
  {
    var i :| 0 <= i < |frames| && frames[i] == last;
    assert frames[|frames| - 1] in frames;
    assert i == |frames| - 1;
    assert forall k :: k in frames <==> k in frames[..i] || k == last;
    assert last !in frames[..i];
  }

  datatype Counts = Counts(total: nat, evaluated: int, outside: nat, tp: nat, fp: nat, fn: nat)

  datatype Row = Row(references: nat, detections: nat, tp: nat, fp: nat, fn: nat)

  /** The smallest and the largest frame number, if there is any. */
  ghost predicate IsRange(range: Option<(int, int)>, boxes: Boxes) {
    if range == None then boxes == map[]
    else
      && range.value.0 in boxes && range.value.1 in boxes
      && forall k :: k in boxes ==> range.value.0 <= k <= range.value.1
  }

  method FrameRange(boxes: Boxes) returns (range: Option<(int, int)>)
    ensures IsRange(range, boxes)
  {
    if boxes == map[] {
      return None;
    }
    assert Least(boxes.Keys) in boxes && Greatest(boxes.Keys) in boxes;
    range := Some((Least(boxes.Keys), Greatest(boxes.Keys)));
  }

  /** A frame is outside the range when it lies before or behind all frames with boxes. */
  lemma OutsideMeans(range: Option<(int, int)>, boxes: Boxes, k: int)
    requires IsRange(range, boxes)
    ensures Outside(range, k) <==> (forall x :: x in boxes ==> k < x) || (forall x :: x in boxes ==> x < k)
  {
  }

  lemma NoneOutside(range: Option<(int, int)>, boxes: Boxes)
    requires IsRange(range, boxes)
    ensures forall k :: k in boxes ==> !Outside(range, k)
  {
  }

  predicate Outside(range: Option<(int, int)>, frame: int) {
    range == None || frame < range.value.0 || frame > range.value.1
  }

  /** Overlaps that a matching may have. */
  ghost predicate Overlaps(scores: seq<real>, threshold: real) {
    forall i :: 0 <= i < |scores| ==> threshold <= scores[i] && 0.0 <= scores[i] <= 1.0
  }

  function Scores(matches: seq<Match>): seq<real> {
    seq(|matches|, i requires 0 <= i < |matches| => matches[i].score)
  }

  lemma MatchingOverlaps(matches: seq<Match>, preds: seq<Rect>, refs: seq<Rect>, threshold: real)
    requires IsMatching(matches, preds, refs, threshold)
    ensures Overlaps(Scores(matches), threshold)
  {
    forall i | 0 <= i < |matches| ensures threshold <= matches[i].score && 0.0 <= matches[i].score <= 1.0 {
      assert matches[i] in matches;
      IouLaws(preds[matches[i].pred], refs[matches[i].ref]);
    }
  }

  method EvaluateFrame(preds: seq<Rect>, refs: seq<Rect>, threshold: real)
    returns (row: Row, scores: seq<real>, ghost matches: seq<Match>)
    ensures IsMatching(matches, preds, refs, threshold) && BlocksAll(matches, preds, refs, threshold)
    ensures row.tp == |matches| && row.references == |refs| && row.detections == |preds|
    ensures row.tp + row.fp == |preds| && row.tp + row.fn == |refs|
    ensures scores == Scores(matches) && Overlaps(scores, threshold)
  {
    var chosen, matchedPreds, matchedRefs := GreedyMatchIou(preds, refs, threshold);
    row := Row(|refs|, |preds|, |chosen|, |preds| - matchedPreds, |refs| - matchedRefs);
    MatchingOverlaps(chosen, preds, refs, threshold);
    scores, matches := Scores(chosen), chosen;
  }

  /** The counts of all rows before `i`. */
  ghost predicate Counted(c: Counts, preds: Boxes, refs: Boxes, frames: seq<int>) {
    c.tp + c.fp + c.outside == Size(preds, frames) && c.tp + c.fn == Size(refs, frames)
  }

  /** How many boxes lie in frames outside the range. */
  ghost function SizeOutside(boxes: Boxes, frames: seq<int>, range: Option<(int, int)>): nat {
    if frames == [] then 0
    else
      var last := frames[|frames| - 1];
      SizeOutside(boxes, frames[..|frames| - 1], range) + if Outside(range, last) then |At(boxes, last)| else 0
  }

  lemma SizeOutsideStep(boxes: Boxes, frames: seq<int>, i: nat, range: Option<(int, int)>)
    requires i < |frames|
    ensures SizeOutside(boxes, frames[..i + 1], range)
         == SizeOutside(boxes, frames[..i], range) + if Outside(range, frames[i]) then |At(boxes, frames[i])| else 0
  {
    assert frames[..i + 1][..i] == frames[..i];
  }

  ghost predicate Balanced(row: Row, preds: seq<Rect>, refs: seq<Rect>) {
    row.tp + row.fp == |preds| && row.tp + row.fn == |refs|
  }

  lemma SizeStep(boxes: Boxes, frames: seq<int>, i: nat)
    requires i < |frames|
    ensures Size(boxes, frames[..i + 1]) == Size(boxes, frames[..i]) + |At(boxes, frames[i])|
  {
    assert frames[..i + 1][..i] == frames[..i];
  }

  lemma AtOutside(refs: Boxes, range: Option<(int, int)>, frame: int)
    requires (forall k :: k in refs ==> !Outside(range, k)) && Outside(range, frame)
    ensures At(refs, frame) == []
  {
  }

  ghost predicate RowsBalanced(rows: map<int, Row>, preds: Boxes, refs: Boxes, range: Option<(int, int)>) {
    forall k :: k in rows && !Outside(range, k) ==> Balanced(rows[k], At(preds, k), At(refs, k))
  }

  ghost predicate HasRows(rows: map<int, Row>, frames: seq<int>) {
    forall k :: k in rows <==> k in frames
  }

  lemma CountOutside(c: Counts, preds: Boxes, refs: Boxes, frames: seq<int>, i: nat, range: Option<(int, int)>)
    requires i < |frames| && Counted(c, preds, refs, frames[..i])
    requires (forall k :: k in refs ==> !Outside(range, k)) && Outside(range, frames[i])
    ensures Counted(c.(outside := c.outside + |At(preds, frames[i])|), preds, refs, frames[..i + 1])
  {
    SizeStep(preds, frames, i);
    SizeStep(refs, frames, i);
    AtOutside(refs, range, frames[i]);
  }

  lemma CountInside(c: Counts, row: Row, preds: Boxes, refs: Boxes, frames: seq<int>, i: nat)
    requires i < |frames| && Counted(c, preds, refs, frames[..i])
    requires Balanced(row, At(preds, frames[i]), At(refs, frames[i]))
    ensures Counted(c.(tp := c.tp + row.tp, fp := c.fp + row.fp, fn := c.fn + row.fn), preds, refs, frames[..i + 1])
  {
    SizeStep(preds, frames, i);
    SizeStep(refs, frames, i);
  }

  lemma AddRow(rows: map<int, Row>, frames: seq<int>, i: nat, row: Row, preds: Boxes, refs: Boxes,
               range: Option<(int, int)>)
    requires i < |frames| && HasRows(rows, frames[..i]) && RowsBalanced(rows, preds, refs, range)
    requires !Outside(range, frames[i]) ==> Balanced(row, At(preds, frames[i]), At(refs, frames[i]))
    ensures HasRows(rows[frames[i] := row], frames[..i + 1]) && RowsBalanced(rows[frames[i] := row], preds, refs, range)
  {
    assert frames[..i + 1] == frames[..i] + [frames[i]];
  }

  lemma MoreOverlaps(ious: seq<real>, scores: seq<real>, threshold: real)
    requires Overlaps(ious, threshold) && Overlaps(scores, threshold)
    ensures Overlaps(ious + scores, threshold)
  {
  }

  /** What is counted over some frames: the counts, a row for each frame, and the overlaps of all matches. */
  datatype Tally = Tally(counts: Counts, rows: map<int, Row>, ious: seq<real>)

  /** Which pairs were chosen in each frame. */
  type Matchings = map<int, seq<Match>>

  function MatchesOf(matchings: Matchings, frame: int): seq<Match> {
    if frame in matchings then matchings[frame] else []
  }

  /** The overlaps of all frames, frame by frame. */
  ghost function AllScores(matchings: Matchings, frames: seq<int>): seq<real> {
    if frames == [] then []
    else AllScores(matchings, frames[..|frames| - 1]) + Scores(MatchesOf(matchings, frames[|frames| - 1]))
  }

  /** Inside the range every row counts a maximal one-to-one matching of the frame; outside nothing is matched. */
  ghost predicate RowMatched(row: Row, matches: seq<Match>, preds: seq<Rect>, refs: seq<Rect>, inside: bool,
                             threshold: real) {
    && row.references == |refs| && row.detections == |preds|
    && if inside then
         && IsMatching(matches, preds, refs, threshold) && BlocksAll(matches, preds, refs, threshold)
         && row.tp == |matches|
       else matches == [] && row.tp == row.fp == row.fn == 0
  }

  ghost predicate RowsMatched(rows: map<int, Row>, matchings: Matchings, preds: Boxes, refs: Boxes,
                              range: Option<(int, int)>, threshold: real) {
    && (forall k :: k in matchings <==> k in rows)
    && forall k :: k in rows ==>
         RowMatched(rows[k], MatchesOf(matchings, k), At(preds, k), At(refs, k), !Outside(range, k), threshold)
  }

  ghost predicate Tallied(t: Tally, matchings: Matchings, preds: Boxes, refs: Boxes, frames: seq<int>,
                          range: Option<(int, int)>, threshold: real) {
    && Counted(t.counts, preds, refs, frames) && HasRows(t.rows, frames) && RowsBalanced(t.rows, preds, refs, range)
    && RowsMatched(t.rows, matchings, preds, refs, range, threshold)
    && t.ious == AllScores(matchings, frames)
    && |t.ious| == t.counts.tp && Overlaps(t.ious, threshold)
    && t.counts.outside == SizeOutside(preds, frames, range)
  }

  lemma AddMatching(rows: map<int, Row>, matchings: Matchings, frame: int, row: Row, matches: seq<Match>,
                    preds: Boxes, refs: Boxes, range: Option<(int, int)>, threshold: real)
    requires RowsMatched(rows, matchings, preds, refs, range, threshold)
    requires RowMatched(row, matches, At(preds, frame), At(refs, frame), !Outside(range, frame), threshold)
    ensures RowsMatched(rows[frame := row], matchings[frame := matches], preds, refs, range, threshold)
  {
    var rows', matchings' := rows[frame := row], matchings[frame := matches];
    forall k | k in rows'
      ensures RowMatched(rows'[k], MatchesOf(matchings', k), At(preds, k), At(refs, k), !Outside(range, k), threshold)
    {
      assert k != frame ==> MatchesOf(matchings', k) == MatchesOf(matchings, k);
    }
  }

  /** The scores of frames that are not touched stay. */
  lemma {:induction false} ScoresKept(matchings: Matchings, frames: seq<int>, frame: int, matches: seq<Match>)
    requires frame !in frames
    ensures AllScores(matchings[frame := matches], frames) == AllScores(matchings, frames)
    decreases |frames|
  {
    if frames != [] {
      var last := frames[|frames| - 1];
      assert last in frames && forall k :: k in frames[..|frames| - 1] ==> k in frames;
      ScoresKept(matchings, frames[..|frames| - 1], frame, matches);
    }
  }

  lemma ScoresGrow(matchings: Matchings, frames: seq<int>, i: nat, matches: seq<Match>)
    requires i < |frames| && Ascending(frames)
    ensures AllScores(matchings[frames[i] := matches], frames[..i + 1])
         == AllScores(matchings, frames[..i]) + Scores(matches)
  {
    var upTo := frames[..i + 1];
    assert upTo[..|upTo| - 1] == frames[..i] && upTo[|upTo| - 1] == frames[i];
    assert frames[i] !in frames[..i];
    ScoresKept(matchings, frames[..i], frames[i], matches);
  }

  /** The tally with one more frame. */
  function AddFrame(t: Tally, c: Counts, frame: int, row: Row, scores: seq<real>): Tally {
    Tally(c, t.rows[frame := row], t.ious + scores)
  }

  lemma TallyOutside(t: Tally, matchings: Matchings, preds: Boxes, refs: Boxes, frames: seq<int>, i: nat,
                     range: Option<(int, int)>, threshold: real, row: Row)
    requires (forall k :: k in refs ==> !Outside(range, k)) && i < |frames| && Ascending(frames)
    requires Tallied(t, matchings, preds, refs, frames[..i], range, threshold) && Outside(range, frames[i])
    requires row == Row(|At(refs, frames[i])|, |At(preds, frames[i])|, 0, 0, 0)
    ensures var c := t.counts.(outside := t.counts.outside + |At(preds, frames[i])|);
            Tallied(AddFrame(t, c, frames[i], row, []), matchings[frames[i] := []], preds, refs, frames[..i + 1], range,
                    threshold)
  {
    CountOutside(t.counts, preds, refs, frames, i, range);
    AddRow(t.rows, frames, i, row, preds, refs, range);
    AddMatching(t.rows, matchings, frames[i], row, [], preds, refs, range, threshold);
    ScoresGrow(matchings, frames, i, []);
    SizeOutsideStep(preds, frames, i, range);
  }

  lemma TallyInside(t: Tally, matchings: Matchings, preds: Boxes, refs: Boxes, frames: seq<int>, i: nat,
                    range: Option<(int, int)>, threshold: real, row: Row, matches: seq<Match>)
    requires i < |frames| && Ascending(frames) && !Outside(range, frames[i])
    requires Tallied(t, matchings, preds, refs, frames[..i], range, threshold)
    requires RowMatched(row, matches, At(preds, frames[i]), At(refs, frames[i]), true, threshold)
    requires Balanced(row, At(preds, frames[i]), At(refs, frames[i])) && Overlaps(Scores(matches), threshold)
    ensures var c := t.counts.(tp := t.counts.tp + row.tp, fp := t.counts.fp + row.fp, fn := t.counts.fn + row.fn);
            Tallied(AddFrame(t, c, frames[i], row, Scores(matches)), matchings[frames[i] := matches], preds, refs,
                    frames[..i + 1], range, threshold)
  {
    CountInside(t.counts, row, preds, refs, frames, i);
    AddRow(t.rows, frames, i, row, preds, refs, range);
    AddMatching(t.rows, matchings, frames[i], row, matches, preds, refs, range, threshold);
    ScoresGrow(matchings, frames, i, matches);
    MoreOverlaps(t.ious, Scores(matches), threshold);
    SizeOutsideStep(preds, frames, i, range);
  }

  method CountOutsideFrame(t: Tally, ghost matchings: Matchings, preds: Boxes, refs: Boxes, frames: seq<int>, i: nat,
                           ghost range: Option<(int, int)>, ghost threshold: real)
    returns (t': Tally, ghost matchings': Matchings)
    requires (forall k :: k in refs ==> !Outside(range, k)) && i < |frames| && Ascending(frames)
    requires Tallied(t, matchings, preds, refs, frames[..i], range, threshold) && Outside(range, frames[i])
    ensures Tallied(t', matchings', preds, refs, frames[..i + 1], range, threshold)
  {
    var frame, c := frames[i], t.counts;
    var row := Row(|At(refs, frame)|, |At(preds, frame)|, 0, 0, 0);
    TallyOutside(t, matchings, preds, refs, frames, i, range, threshold, row);
    t' := AddFrame(t, c.(outside := c.outside + |At(preds, frame)|), frame, row, []);
    matchings' := matchings[frame := []];
  }

  method CountInsideFrame(t: Tally, ghost matchings: Matchings, preds: Boxes, refs: Boxes, frames: seq<int>, i: nat,
                          ghost range: Option<(int, int)>, threshold: real)
    returns (t': Tally, ghost matchings': Matchings)
    requires i < |frames| && Ascending(frames)
    requires Tallied(t, matchings, preds, refs, frames[..i], range, threshold) && !Outside(range, frames[i])
    ensures Tallied(t', matchings', preds, refs, frames[..i + 1], range, threshold)
  {
    var frame, c := frames[i], t.counts;
    var row, scores, matches := EvaluateFrame(At(preds, frame), At(refs, frame), threshold);
    TallyInside(t, matchings, preds, refs, frames, i, range, threshold, row, matches);
    t' := AddFrame(t, c.(tp := c.tp + row.tp, fp := c.fp + row.fp, fn := c.fn + row.fn), frame, row, scores);
    matchings' := matchings[frame := matches];
  }

  /** The body of the loop over the frames. */
  method CountFrame(t: Tally, ghost matchings: Matchings, preds: Boxes, refs: Boxes, frames: seq<int>, i: nat,
                    range: Option<(int, int)>, threshold: real)
    returns (t': Tally, ghost matchings': Matchings)
    requires (forall k :: k in refs ==> !Outside(range, k)) && i < |frames| && Ascending(frames)
    requires Tallied(t, matchings, preds, refs, frames[..i], range, threshold)
    ensures Tallied(t', matchings', preds, refs, frames[..i + 1], range, threshold)
  {
    if Outside(range, frames[i]) {
      t', matchings' := CountOutsideFrame(t, matchings, preds, refs, frames, i, range, threshold);
    } else {
      t', matchings' := CountInsideFrame(t, matchings, preds, refs, frames, i, range, threshold);
    }
  }

  lemma NothingTallied(t: Tally, matchings: Matchings, preds: Boxes, refs: Boxes, frames: seq<int>,
                       range: Option<(int, int)>, threshold: real)
    requires t.counts.tp == t.counts.fp == t.counts.fn == t.counts.outside == 0 && t.ious == [] && frames == []
    requires (forall k :: k !in t.rows) && forall k :: k !in matchings
    ensures Tallied(t, matchings, preds, refs, frames, range, threshold)
  {
  }

  method StartTally(ghost preds: Boxes, ghost refs: Boxes, ghost frames: seq<int>, ghost range: Option<(int, int)>,
                    ghost threshold: real)
    returns (t: Tally, ghost matchings: Matchings)
    ensures Tallied(t, matchings, preds, refs, frames[..0], range, threshold)
  {
    t, matchings := Tally(Counts(0, 0, 0, 0, 0, 0), map[], []), map[];
    NothingTallied(t, matchings, preds, refs, frames[..0], range, threshold);
  }

  lemma AllTallied(t: Tally, matchings: Matchings, preds: Boxes, refs: Boxes, frames: seq<int>,
                   range: Option<(int, int)>, threshold: real)
    requires Tallied(t, matchings, preds, refs, frames[..|frames|], range, threshold)
    ensures Tallied(t, matchings, preds, refs, frames, range, threshold)
  {
    assert frames[..|frames|] == frames;
  }

  method CountFrames(preds: Boxes, refs: Boxes, frames: seq<int>, range: Option<(int, int)>, threshold: real)
    returns (t: Tally, ghost matchings: Matchings)
    requires (forall k :: k in refs ==> !Outside(range, k)) && Ascending(frames)
    ensures Tallied(t, matchings, preds, refs, frames, range, threshold)
  {
    t, matchings := StartTally(preds, refs, frames, range, threshold);
    for i := 0 to |frames|
      invariant Tallied(t, matchings, preds, refs, frames[..i], range, threshold)
    {
      t, matchings := CountFrame(t, matchings, preds, refs, frames, i, range, threshold);
    }
    AllTallied(t, matchings, preds, refs, frames, range, threshold);
  }

  function SumOf(list: seq<real>): real {
    if list == [] then 0.0 else SumOf(list[..|list| - 1]) + list[|list| - 1]
  }

  lemma {:induction false} SumBounds(list: seq<real>, lo: real, hi: real)
    requires forall i :: 0 <= i < |list| ==> lo <= list[i] <= hi
    ensures lo * |list| as real <= SumOf(list) <= hi * |list| as real
    decreases |list|
  {
    if list != [] {
      var n := |list| - 1;
      SumBounds(list[..n], lo, hi);
      assert lo * |list| as real == lo * n as real + lo && hi * |list| as real == hi * n as real + hi;
    }
  }

  /** A mean lies between the bounds of its terms. */
  lemma MeanBounds(list: seq<real>, lo: real, hi: real)
    requires list != [] && forall i :: 0 <= i < |list| ==> lo <= list[i] <= hi
    ensures lo <= SumOf(list) / |list| as real <= hi
  {
    SumBounds(list, lo, hi);
    QuotientBetween(SumOf(list), |list| as real, lo, hi);
  }

  lemma QuotientBetween(sum: real, n: real, lo: real, hi: real)
    requires n > 0.0 && lo * n <= sum <= hi * n
    ensures lo <= sum / n <= hi
  {
    var m := sum / n;
    assert m * n == sum;
    assert (m - lo) * n >= 0.0 && (hi - m) * n >= 0.0;
  }

  method SumReals(list: seq<real>) returns (s: real)
    ensures s == SumOf(list)
  {
    s := 0.0;
    for i := 0 to |list|
      invariant s == SumOf(list[..i])
    {
      assert list[..i + 1][..i] == list[..i];
      s := s + list[i];
    }
    assert list[..|list|] == list;
  }

  function SafeDiv(a: real, b: real): real {
    if b == 0.0 then 0.0 else a / b
  }

  lemma SameQuotient(x: real, y: real, u: real, v: real)
    requires y != 0.0 && v != 0.0 && x * v == u * y
    ensures x / y == u / v
  {
    assert (x / y - u / v) * (y * v) == (x / y) * y * v - (u / v) * v * y;
  }

  lemma Harmonic(tp: real, p: real, r: real, preds: real, refs: real)
    requires p * preds == tp && r * refs == tp
    ensures 2.0 * p * r * (preds + refs) == 2.0 * tp * (p + r)
  {
    assert p * r * preds == tp * r && p * r * refs == tp * p;
  }

  /** The harmonic mean of precision and recall is the share of matched boxes among all boxes of both lists. */
  lemma HarmonicMean(tp: real, p: real, r: real, preds: real, refs: real)
    requires tp > 0.0 && preds > 0.0 && refs > 0.0 && p * preds == tp && r * refs == tp
    ensures p + r > 0.0 && 2.0 * p * r / (p + r) == 2.0 * tp / (preds + refs)
  {
    Positive(p, preds, tp);
    Positive(r, refs, tp);
    Harmonic(tp, p, r, preds, refs);
    SameQuotient(2.0 * p * r, p + r, 2.0 * tp, preds + refs);
  }

  lemma Positive(p: real, m: real, x: real)
    requires m > 0.0 && x > 0.0 && p * m == x
    ensures p > 0.0
  {
  }

  datatype Report = Report(counts: Counts, precision: real, recall: real, f1: real, meanIou: real)

  ghost predicate RatesSound(r: Report) {
    var c := r.counts;
    && 0.0 <= r.precision <= 1.0 && 0.0 <= r.recall <= 1.0
    && (c.tp == 0 ==> r.precision == r.recall == r.f1 == 0.0)
    && (c.tp > 0 ==>
          && r.precision == c.tp as real / (c.tp + c.fp) as real && r.recall == c.tp as real / (c.tp + c.fn) as real
          && r.f1 == 2.0 * c.tp as real / ((c.tp + c.fp) as real + (c.tp + c.fn) as real))
  }

  /** The mean overlap, and the bounds that it shares with its terms. */
  ghost predicate MeanSound(mean: real, scores: seq<real>, threshold: real) {
    && mean * |scores| as real == SumOf(scores)
    && (scores == [] ==> mean == 0.0) && (scores != [] ==> threshold <= mean && 0.0 <= mean <= 1.0)
  }

  lemma MeanIsSound(scores: seq<real>, threshold: real)
    requires Overlaps(scores, threshold)
    ensures MeanSound(SafeDiv(SumOf(scores), |scores| as real), scores, threshold)
  {
    if scores != [] {
      MeanBounds(scores, RMax(threshold, 0.0), 1.0);
    }
  }

  function Precision(c: Counts): real {
    SafeDiv(c.tp as real, (c.tp + c.fp) as real)
  }

  function Recall(c: Counts): real {
    SafeDiv(c.tp as real, (c.tp + c.fn) as real)
  }

  function F1(precision: real, recall: real): real {
    SafeDiv(2.0 * precision * recall, precision + recall)
  }

  lemma RatesAreSound(r: Report)
    requires r.precision == Precision(r.counts) && r.recall == Recall(r.counts) && r.f1 == F1(r.precision, r.recall)
    ensures RatesSound(r)
  {
    RateSound(r.counts.tp, r.counts.fp);
    RateSound(r.counts.tp, r.counts.fn);
    F1Sound(r.counts);
  }

  lemma RateSound(tp: nat, others: nat)
    ensures 0.0 <= SafeDiv(tp as real, (tp + others) as real) <= 1.0
    ensures tp == 0 ==> SafeDiv(tp as real, (tp + others) as real) == 0.0
  {
    if tp + others > 0 {
      QuotientBounded(tp as real, (tp + others) as real);
    }
  }

  lemma F1Sound(c: Counts)
    ensures c.tp == 0 ==> F1(Precision(c), Recall(c)) == 0.0
    ensures c.tp > 0 ==>
              F1(Precision(c), Recall(c)) == 2.0 * c.tp as real / ((c.tp + c.fp) as real + (c.tp + c.fn) as real)
  {
    if c.tp > 0 {
      F1OfRates(c.tp as real, (c.tp + c.fp) as real, (c.tp + c.fn) as real);
    }
  }

  lemma F1OfRates(tp: real, preds: real, refs: real)
    requires 0.0 < tp && 0.0 < preds && 0.0 < refs
    ensures F1(tp / preds, tp / refs) == 2.0 * tp / (preds + refs)
  {
    HarmonicMean(tp, tp / preds, tp / refs, preds, refs);
  }

  method MakeReport(c: Counts, ious: seq<real>, ghost threshold: real) returns (r: Report)
    requires Overlaps(ious, threshold)
    ensures r.counts == c && RatesSound(r) && MeanSound(r.meanIou, ious, threshold)
  {
    var precision, recall := Precision(c), Recall(c);
    var sum := SumReals(ious);
    r := Report(c, precision, recall, F1(precision, recall), SafeDiv(sum, |ious| as real));
    RatesAreSound(r);
    MeanIsSound(ious, threshold);
  }

  /** The two sums of box counts do not depend on the frames without boxes. */
  lemma SizesOfAll(preds: Boxes, refs: Boxes, predFrames: seq<int>, refFrames: seq<int>, frames: seq<int>)
    requires Ascending(predFrames) && Ascending(refFrames) && Ascending(frames)
    requires (forall k :: k in predFrames <==> k in preds) && (forall k :: k in refFrames <==> k in refs)
    requires forall k :: k in frames <==> k in preds || k in refs
    ensures Size(preds, predFrames) == Size(preds, frames) && Size(refs, refFrames) == Size(refs, frames)
  {
    SizeOfMore(preds, predFrames, frames);
    SizeOfMore(refs, refFrames, frames);
  }

  /**
   No detection and no reference is counted twice or lost, and the matches that are counted, and whose overlap is averaged,
   are those of one maximal one-to-one matching per frame.
   */
  method EvaluatePersonDetections(preds: Boxes, refs: Boxes, threshold: real)
    returns (report: Report, rows: map<int, Row>, range: Option<(int, int)>, ghost frames: seq<int>,
             ghost predFrames: seq<int>, ghost refFrames: seq<int>, ghost matchings: Matchings)
    ensures Ascending(predFrames) && (forall k :: k in predFrames <==> k in preds)
    ensures Ascending(refFrames) && (forall k :: k in refFrames <==> k in refs)
    ensures Ascending(frames) && (forall k :: k in frames <==> k in preds || k in refs) && HasRows(rows, frames)
    ensures var c := report.counts;
            && c.total == Size(preds, predFrames) && c.tp + c.fp == c.evaluated == c.total - c.outside
            && c.tp + c.fn == Size(refs, refFrames)
    ensures RatesSound(report) && report.counts.tp == |AllScores(matchings, frames)|
    ensures MeanSound(report.meanIou, AllScores(matchings, frames), threshold)
    ensures IsRange(range, refs)
    ensures report.counts.outside == SizeOutside(preds, frames, range) && RowsBalanced(rows, preds, refs, range)
    ensures RowsMatched(rows, matchings, preds, refs, range, threshold)
  {
    range := FrameRange(refs);
    NoneOutside(range, refs);
    var total;
    total, predFrames := CountBoxes(preds);
    var all := SortFrames(refs.Keys + preds.Keys);
    var t;
    t, matchings := CountFrames(preds, refs, all, range, threshold);
    rows := t.rows;
    ghost var _, refKeys := CountBoxes(refs);
    frames, refFrames := all, refKeys;
    SizesOfAll(preds, refs, predFrames, refFrames, frames);
    report := MakeReport(t.counts.(total := total, evaluated := total - t.counts.outside), t.ious, threshold);
  }
}
