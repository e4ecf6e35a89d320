/** What becomes of a staged edit over whole runs: which fields are pending,
    and what a commit can still report. */
module StageRuns {
  import opened Words
  import opened Wrappers
  import opened CfgStage
  import opened Remote
  import opened RemoteRuns

  /** The event stages a word for field `i` through the open gate. */
  predicate Stages(e: Event, i: nat) {
    e.Remote? && e.p.gate && e.p.msg.Some? && e.p.msg.value.a == StagedReg(i)
  }

  predicate StagesAny(e: Event) {
    e.Remote? && e.p.gate && e.p.msg.Some? && IsStaged(e.p.msg.value.a)
  }

  /** The edit is 30 s old when the tick looks at it. */
  predicate Expires(w: World, p: Poll) {
    w.stage.dirty != {} && Elapsed(Tick(p.stageAt), w.stage.at) >= STAGE_TIMEOUT_MS
  }

  predicate Discards(p: Poll) {
    p.gate && p.msg.Some? && p.msg.value.a == CFG_CTRL && p.msg.value.v == 2
  }

  /** The event ends the pending edit: it expires, the link changes, a commit
      goes through, or the master discards it. */
  predicate Clears(w: World, e: Event)
    requires w.Valid()
  {
    e.Remote? && (
      Expires(w, e.p) || e.p.relink || Discards(e.p)
      || (e.p.msg.Some? && CommitBy(Met(w, e.p), e.p, e.p.msg.value.link)))
  }

  /** One event: a staged field joins the edit, an end of the edit empties it
      of the others, and nothing else touches it. */
  lemma EditStep(w: World, e: Event, i: nat)
    requires w.Valid() && i < FIELDS
    ensures i in Next(w, e).stage.dirty <==> Stages(e, i) || (i in w.stage.dirty && !Clears(w, e))
  {
    if e.Remote? {
      EditMet(w, e.p);
      EditDelivered(Met(w, e.p), e.p, i);
      hide Delivered, Met, CommitBy;
    }
  }

  lemma EditMet(w: World, p: Poll)
    requires w.Valid()
    ensures Met(w, p).stage.dirty == if Expires(w, p) || p.relink then {} else w.stage.dirty
  {
    hide Elapsed, Tick;
  }

  lemma EditDelivered(w: World, p: Poll, i: nat)
    requires w.Valid() && i < FIELDS
    ensures
      i in Delivered(w, p).w.stage.dirty <==>
      Stages(Remote(p), i)
      || (i in w.stage.dirty && !Discards(p) && !(p.msg.Some? && CommitBy(w, p, p.msg.value.link)))
  {
    hide WithSetting, Differs, Taken, Tick, InRange, OtherLink;
    StagedRegIsField(i);
    if p.msg.Some? {
      if IsStaged(p.msg.value.a) {
        StagedRegIsField(StagedField(p.msg.value.a));
      }
    }
  }

  /** Over every run that begins without an edit, field `i` is pending if and
      only if it was staged through the open gate and no later event ended the
      edit. */
  lemma {:induction false} PendingExactlySinceStaged(w: World, events: seq<Event>, i: nat)
    requires w.Valid() && w.stage.dirty == {} && i < FIELDS
    ensures
      i in Final(w, events).stage.dirty <==>
      exists k :: 0 <= k < |events| && Stages(events[k], i) && Undisturbed(w, events, k)
    decreases |events|
  {
    hide Next, Stages, Clears;
    if events == [] {
      assert Final(w, events) == w;
    } else {
      var n := |events| - 1;
      var front, e := events[..n], events[n];
      assert events == front + [e];
      FinalAppend(w, front, e);
      EditStep(Final(w, front), e, i);
      PendingExactlySinceStaged(w, front, i);
      forall k | 0 <= k < n
        ensures Undisturbed(w, events, k) <==> Undisturbed(w, front, k) && !Clears(Final(w, front), e)
      {
        UndisturbedOneMore(w, front, e, k);
      }
      assert Undisturbed(w, events, n);
    }
  }

  /** No event after the `k`-th ends the edit. */
  predicate Undisturbed(w: World, events: seq<Event>, k: nat)
    requires w.Valid()
  {
    forall j :: k < j < |events| ==> !Clears(Final(w, events[..j]), events[j])
  }

  lemma UndisturbedOneMore(w: World, front: seq<Event>, e: Event, k: nat)
    requires w.Valid() && k < |front|
    ensures Undisturbed(w, front + [e], k) <==> Undisturbed(w, front, k) && !Clears(Final(w, front), e)
  {
    hide Clears, Final;
    var all := front + [e];
    assert all[..|front|] == front && all[|front|] == e;
    assert forall j :: 0 <= j < |front| ==> all[..j] == front[..j] && all[j] == front[j];
  }

  // --- After an expiry ---

  /** Nothing is pending and no commit is on record. */
  predicate Gone(w: World) { w.stage.dirty == {} && !w.stage.stat.CommitOk? }

  lemma GoneStays(w: World, e: Event)
    requires w.Valid() && Gone(w) && !StagesAny(e)
    ensures Gone(Next(w, e))
  {
    if e.Remote? {
      GoneMet(w, e.p);
      GoneDelivered(Met(w, e.p), e.p);
      hide Met, Delivered;
    }
  }

  lemma GoneMet(w: World, p: Poll)
    requires w.Valid() && (Gone(w) || Expires(w, p))
    ensures Gone(Met(w, p))
  {
    hide Elapsed, Tick;
  }

  lemma GoneDelivered(w: World, p: Poll)
    requires w.Valid() && Gone(w) && !StagesAny(Remote(p))
    ensures Gone(Delivered(w, p).w)
  {
    hide WithSetting, Differs, Taken, Tick, InRange, OtherLink;
  }

  /** Once an edit has expired, with nothing staged since, no number of commits
      or other messages makes the status read COMMIT_OK. */
  lemma {:induction false} ExpiredNeverReadsOk(w: World, p: Poll, events: seq<Event>)
    requires w.Valid() && Expires(w, p) && !StagesAny(Remote(p))
    requires forall k :: 0 <= k < |events| ==> !StagesAny(events[k])
    ensures Gone(Final(Next(w, Remote(p)), events))
  {
    GoneMet(w, p);
    GoneDelivered(Met(w, p), p);
    GoneForGood(Next(w, Remote(p)), events);
    hide Met, Delivered, Final;
  }

  lemma {:induction false} GoneForGood(w: World, events: seq<Event>)
    requires w.Valid() && Gone(w) && forall k :: 0 <= k < |events| ==> !StagesAny(events[k])
    ensures Gone(Final(w, events))
    decreases |events|
  {
    hide Next, Gone, StagesAny;
    if events != [] {
      assert !StagesAny(events[0]);
      GoneStays(w, events[0]);
      GoneForGood(Next(w, events[0]), events[1..]);
    }
  }

  // --- The age of a staged edit ---

  /** When a word was last staged through the open gate. */
  function LastStagedAt(events: seq<Event>, before: nat): nat
    decreases |events|
  {
    if events == [] then before
    else
      var e := events[|events| - 1];
      if e.Remote? && e.p.gate && e.p.msg.Some? && IsStaged(e.p.msg.value.a) then e.p.msgAt
      else LastStagedAt(events[..|events| - 1], before)
  }

  lemma StampStep(w: World, e: Event)
    requires w.Valid()
    ensures Next(w, e).stage.at ==
      if e.Remote? && e.p.gate && e.p.msg.Some? && IsStaged(e.p.msg.value.a) then Tick(e.p.msgAt) else w.stage.at
  {
    if e.Remote? {
      StampMet(w, e.p);
      StampDelivered(Met(w, e.p), e.p);
      hide Met, Delivered;
    }
  }

  lemma StampMet(w: World, p: Poll)
    requires w.Valid()
    ensures Met(w, p).stage.at == w.stage.at
  {
  }

  lemma StampDelivered(w: World, p: Poll)
    requires w.Valid()
    ensures Delivered(w, p).w.stage.at ==
      if p.gate && p.msg.Some? && IsStaged(p.msg.value.a) then Tick(p.msgAt) else w.stage.at
  {
    hide WithSetting, Differs, Taken, Tick, InRange, OtherLink;
  }

  lemma {:induction false} StampIsLast(w: World, events: seq<Event>, before: nat)
    requires w.Valid() && w.stage.at == Tick(before)
    ensures Final(w, events).stage.at == Tick(LastStagedAt(events, before))
    decreases |events|
  {
    hide Next;
    if events != [] {
      var front, e := events[..|events| - 1], events[|events| - 1];
      assert events == front + [e];
      FinalAppend(w, front, e);
      StampIsLast(w, front, before);
      StampStep(Final(w, front), e);
    }
  }

  /** Over every run, in real time: a tick drops a pending edit as timed out
      exactly when the last word was staged 30 s or more ago. */
  lemma EditExpiresExactly(w: World, events: seq<Event>, before: nat, p: Poll)
    requires w.Valid() && w.stage.at == Tick(before)
    requires Final(w, events).stage.dirty != {} && !p.relink
    requires LastStagedAt(events, before) <= p.stageAt < LastStagedAt(events, before) + WRAP
    ensures
      var s := Met(Final(w, events), p).stage;
      if p.stageAt - LastStagedAt(events, before) >= 30000 then s.dirty == {} && s.stat.Code() == 6
      else s == Final(w, events).stage
  {
    StampIsLast(w, events, before);
    ElapsedIsReal(p.stageAt, LastStagedAt(events, before));
    hide Final, LastStagedAt, Tick, Elapsed;
  }
}
