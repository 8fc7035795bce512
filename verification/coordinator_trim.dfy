/**
 What the size limit drops: in every map the smallest ids and no more than the excess, in every state of any run.
 */
module CoordinatorTrim {
  import opened Types
  import opened OrderedKeys
  import opened CoordinatorSpec
  import opened CoordinatorTheorems

  /** `kept` are the newest entries of `m`: as many as the limit allows, and all that was dropped is older. */
  ghost predicate NewestOf<T>(m: map<int, T>, kept: map<int, T>, limit: int) {
    && kept.Keys <= m.Keys && (forall k :: k in kept ==> kept[k] == m[k])
    && |kept| == (if |m| <= limit then |m| else limit)
    && forall k, d :: k in kept && d in m && d !in kept ==> d < k
  }

  lemma OneLess<T>(m: map<int, T>, kept: map<int, T>, limit: int, k: int)
    requires |m| > limit && k in m && (forall x :: x in m ==> k <= x) && NewestOf(m - {k}, kept, limit)
    ensures NewestOf(m, kept, limit)
  {
    assert (m - {k}).Keys == m.Keys - {k};
    forall x, d | x in kept && d in m && d !in kept ensures d < x {
      assert x in m - {k} && (d == k || d in m - {k});
    }
  }

  lemma {:induction false} TrimKeepsNewest<T>(m: map<int, T>, limit: int)
    requires limit >= 1
    ensures NewestOf(m, TrimMap(m, limit), limit)
    decreases |m|
  {
    if |m| > limit {
      var k := Least(m.Keys);
      assert (m - {k}).Keys == m.Keys - {k};
      TrimKeepsNewest(m - {k}, limit);
      OneLess(m, TrimMap(m - {k}, limit), limit, k);
    }
  }

  /** The commit frontier lies behind every dropped face frame, and it moves no further than that. */
  ghost predicate MovedPast(faceFrames: map<int, PendingFaceFrame>, kept: map<int, PendingFaceFrame>, next: int,
                            next': int) {
    && next <= next' && (forall d :: d in faceFrames && d !in kept ==> d < next')
    && (next' == next || exists d :: d in faceFrames && d !in kept && next' == d + 1)
  }

  lemma OneFaceFrameLess(m: map<int, PendingFaceFrame>, kept: map<int, PendingFaceFrame>, k: int, next: int, next1: int,
                         next': int)
    requires k in m && k >= 0 && kept.Keys <= (m - {k}).Keys && MovedPast(m - {k}, kept, next1, next')
    requires next1 == if next < 0 || k >= next then k + 1 else next
    ensures MovedPast(m, kept, next, next')
  {
    forall d | d in m && d !in kept ensures d < next' {
      assert d == k || d in m - {k};
    }
    if next' != next1 {
      var d :| d in m - {k} && d !in kept && next' == d + 1;
      assert d in m && d !in kept;
    } else if next1 != next {
      assert k in m && k !in kept && next' == k + 1;
    }
  }

  lemma {:induction false} TrimFaceFramesKeepsNewest(m: map<int, PendingFaceFrame>, next: int, limit: int)
    requires limit >= 1
    ensures var r := TrimFaceFrames(m, next, limit);
            NewestOf(m, r.0, limit) && ((forall k :: k in m ==> k >= 0) ==> MovedPast(m, r.0, next, r.1))
    decreases |m|
  {
    if |m| > limit {
      var k := Least(m.Keys);
      var next1 := if next < 0 || k >= next then k + 1 else next;
      assert (m - {k}).Keys == m.Keys - {k};
      TrimFaceFramesKeepsNewest(m - {k}, next1, limit);
      var r := TrimFaceFrames(m - {k}, next1, limit);
      OneLess(m, r.0, limit, k);
      if forall x :: x in m ==> x >= 0 {
        OneFaceFrameLess(m, r.0, k, next, next1, r.1);
      }
    }
  }

  /** The state after trimming, map by map. */
  ghost predicate Trimmed(s: State, t: State, limit: int) {
    && t.intake.next == s.intake.next && t.recognition.next == s.recognition.next
    && NewestOf(s.intake.frames, t.intake.frames, limit) && NewestOf(s.intake.detections, t.intake.detections, limit)
    && NewestOf(s.queuedProbes, t.queuedProbes, limit) && NewestOf(s.early, t.early, limit)
    && NewestOf(s.faceFrames, t.faceFrames, limit)
    && NewestOf(s.recognition.pending, t.recognition.pending, limit)
    && NewestOf(s.commit.pending, t.commit.pending, limit)
    && t.calls == s.calls && t.latestFace == s.latestFace && t.latestRecognition == s.latestRecognition
    && t.latestIdentity == s.latestIdentity && t.cfg == s.cfg
  }

  lemma TrimIsTrimmed(s: State)
    ensures Trimmed(s, Trim(s), s.cfg.limit)
    ensures (forall k :: k in s.faceFrames ==> k >= 0) ==>
              MovedPast(s.faceFrames, Trim(s).faceFrames, s.commit.next, Trim(s).commit.next)
  {
    TrimKeepsNewest(s.intake.frames, s.cfg.limit);
    TrimKeepsNewest(s.intake.detections, s.cfg.limit);
    TrimKeepsNewest(s.queuedProbes, s.cfg.limit);
    TrimKeepsNewest(s.early, s.cfg.limit);
    TrimFaceFramesKeepsNewest(s.faceFrames, s.commit.next, s.cfg.limit);
    TrimKeepsNewest(s.recognition.pending, s.cfg.limit);
    TrimKeepsNewest(s.commit.pending, s.cfg.limit);
  }

  /**
   In any run, legal or not, a drain leaves in each of the seven maps the newest entries, as many as there are or as the
   limit allows, and moves the commit frontier just past the face frames that it drops.
   */
  lemma DrainsKeepNewest(cfg: Config, ops: seq<Op>)
    ensures var s, t := DrainStages(Run(cfg, ops)), Run(cfg, ops + [DrainReady]);
            && Trimmed(s, t, cfg.limit)
            && ((forall k :: k in s.faceFrames ==> k >= 0) ==>
                  MovedPast(s.faceFrames, t.faceFrames, s.commit.next, t.commit.next))
  {
    RunDrain(cfg, ops);
    TrimIsTrimmed(DrainStages(Run(cfg, ops)));
  }
}
