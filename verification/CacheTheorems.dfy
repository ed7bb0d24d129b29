// What holds in every run of the design cache.
module CacheTheorems {
  import opened Recency
  import opened Recorders
  import opened DesignCache
  import opened CacheProtocol
  import opened CacheSafety
  import opened CacheSteps

  lemma CallingKeeps(sys: System, tid: nat, sh: Shared, th: Thread, sh': Shared, th': Thread)
    requires Ready(sys, tid, sh, th) && CallStep(sys, tid, sh, th, sh', th')
    ensures Keeps(sys, tid, sh, th, sh', th')
  {
    if key :| Start(sh, th, sh', th', key) { StartKeeps(sys, tid, sh, th, sh', th', key); }
    else if key :| StartPeek(sh, th, sh', th', key) { StartKeeps(sys, tid, sh, th, sh', th', key); }
    else if Join(sh, th, sh', th') { JoinKeeps(sys, tid, sh, th, sh', th'); }
    else if Begin(sys, tid, sh, th, sh', th') { BeginKeeps(sys, tid, sh, th, sh', th'); }
    else if Wake(sh, th, sh', th') || Glance(sh, th, sh', th') { WakeKeeps(sys, tid, sh, th, sh', th'); }
    else if WakeToNothing(sh, th, sh', th') { WakeToNothingKeeps(sys, tid, sh, th, sh', th'); }
    else if GiveUp(sh, th, sh', th') { GiveUpKeeps(sys, tid, sh, th, sh', th'); }
    else if n :| CheckName(sh, th, sh', th', n) { CheckNameKeeps(sys, tid, sh, th, sh', th', n); }
    else if Serve(sh, th, sh', th') { ServeKeeps(sys, tid, sh, th, sh', th'); }
    else if Retry(sh, th, sh', th') { RetryKeeps(sys, tid, sh, th, sh', th'); }
    else if TakeFailure(sh, th, sh', th') { TakeFailureKeeps(sys, tid, sh, th, sh', th'); }
    else if Return(sh, th, sh', th') { PropagateKeeps(sys, tid, sh, th, sh', th'); }
    else if PeekLook(sh, th, sh', th') { PeekLookKeeps(sys, tid, sh, th, sh', th'); }
    else { OverlookKeeps(sys, tid, sh, th, sh', th'); }
  }

  lemma TierKeeps(sys: System, tid: nat, sh: Shared, th: Thread, sh': Shared, th': Thread)
    requires Ready(sys, tid, sh, th) && TierStep(sys, sh, th, sh', th')
    ensures Keeps(sys, tid, sh, th, sh', th')
  {
    if Fetch(sys, sh, th, sh', th') { FetchKeeps(sys, tid, sh, th, sh', th'); }
    else if n :| MatchContent(sys, sh, th, sh', th', n) { MatchContentKeeps(sys, tid, sh, th, sh', th', n); }
    else if MatchStamp(sh, th, sh', th') { MatchStampKeeps(sys, tid, sh, th, sh', th'); }
    else if Restore(sh, th, sh', th') { RestoreKeeps(sys, tid, sh, th, sh', th'); }
    else if Miss(sh, th, sh', th') { MissKeeps(sys, tid, sh, th, sh', th'); }
    else if SkipSave(sh, th, sh', th') { SkipSaveKeeps(sys, tid, sh, th, sh', th'); }
    else if Print(sys, sh, th, sh', th') { PrintKeeps(sys, tid, sh, th, sh', th'); }
    else if n :| PrintStamp(sh, th, sh', th', n) { PrintStampKeeps(sys, tid, sh, th, sh', th', n); }
    else if PrintContent(sys, sh, th, sh', th') { PrintContentKeeps(sys, tid, sh, th, sh', th'); }
    else { SaveKeeps(sys, tid, sh, th, sh', th'); }
  }

  lemma WorkKeeps(sys: System, tid: nat, sh: Shared, th: Thread, sh': Shared, th': Thread)
    requires Ready(sys, tid, sh, th) && WorkStep(sys, sh, th, sh', th')
    ensures Keeps(sys, tid, sh, th, sh', th')
  {
    if n :| Noted(sys, sh, th, sh', th', n) { NotedKeeps(sys, tid, sh, th, sh', th', n); }
    else if Read(sys, sh, th, sh', th') { ReadKeeps(sys, tid, sh, th, sh', th'); }
    else if key :| Nest(sys, sh, th, sh', th', key) { NestKeeps(sys, tid, sh, th, sh', th', key); }
    else if Finish(sys, sh, th, sh', th') { FinishKeeps(sys, tid, sh, th, sh', th'); }
    else if e :| Abort(sh, th, sh', th', e) { AbortKeeps(sys, tid, sh, th, sh', th', e); }
    else if Unmap(sh, th, sh', th') { UnmapKeeps(sys, tid, sh, th, sh', th'); }
    else if StayMapped(sh, th, sh', th') { StayMappedKeeps(sys, tid, sh, th, sh', th'); }
    else if Close(sh, th, sh', th') { CloseKeeps(sys, tid, sh, th, sh', th'); }
    else if Answer(sh, th, sh', th') { AnswerKeeps(sys, tid, sh, th, sh', th'); }
    else { PropagateKeeps(sys, tid, sh, th, sh', th'); }
  }

  lemma BuildingKeeps(sys: System, tid: nat, sh: Shared, th: Thread, sh': Shared, th': Thread)
    requires Ready(sys, tid, sh, th) && BuildStep(sys, sh, th, sh', th')
    ensures Keeps(sys, tid, sh, th, sh', th')
  {
    if TierStep(sys, sh, th, sh', th') {
      TierKeeps(sys, tid, sh, th, sh', th');
    } else {
      WorkKeeps(sys, tid, sh, th, sh', th');
    }
  }

  lemma ActKeeps(sys: System, tid: nat, sh: Shared, th: Thread, sh': Shared, th': Thread)
    requires Ready(sys, tid, sh, th) && Act(sys, tid, sh, th, sh', th')
    ensures Keeps(sys, tid, sh, th, sh', th')
  {
    if CallStep(sys, tid, sh, th, sh', th') {
      CallingKeeps(sys, tid, sh, th, sh', th');
    } else {
      BuildingKeeps(sys, tid, sh, th, sh', th');
    }
  }

  lemma ReadyToAct(sys: System, s: State, tid: nat)
    requires Sane(sys) && Inv(sys, s) && tid in s.threads
    ensures Ready(sys, tid, s.sh, s.threads[tid])
  {
    forall id | id in s.sh.table.cells && !s.sh.table.cells[id].ready && s.sh.table.cells[id].builder == tid
      ensures OnStack(s.threads[tid].stack, id)
    {
      assert Attended(s, id);
    }
  }

  lemma ThreadsAfter(sys: System, s: State, s': State, tid: nat)
    requires Inv(sys, s) && tid in s.threads && tid in s'.threads
    requires s'.threads == s.threads[tid := s'.threads[tid]]
    requires Moves(s.sh, s'.sh, tid) && ThreadInv(sys, s'.sh, tid, s'.threads[tid])
    ensures AllThreadsInv(sys, s')
  {
    forall t | t in s'.threads ensures ThreadInv(sys, s'.sh, t, s'.threads[t]) {
      if t != tid {
        assert ThreadInv(sys, s.sh, t, s.threads[t]);
        OtherThreadKept(sys, s.sh, s'.sh, tid, t, s.threads[t]);
      }
    }
  }

  lemma AttendedAfter(s: State, s': State, tid: nat)
    requires AllAttended(s) && tid in s.threads && tid in s'.threads
    requires s'.threads == s.threads[tid := s'.threads[tid]]
    requires Moves(s.sh, s'.sh, tid) && MineOnStack(s'.sh, tid, s'.threads[tid].stack)
    ensures AllAttended(s')
  {
    forall id | id in s'.sh.table.cells && !s'.sh.table.cells[id].ready ensures Attended(s', id) {
      var cell := s'.sh.table.cells[id];
      if cell.builder == tid {
        assert OnStack(s'.threads[tid].stack, id);
      } else {
        assert id in s.sh.table.cells;
        assert CellMoves(s.sh.table.cells[id], cell, tid);
        assert Attended(s, id);
      }
    }
  }

  lemma StepKeepsInv(sys: System, s: State, s': State)
    requires Sane(sys) && Inv(sys, s) && Next(sys, s, s')
    ensures Inv(sys, s')
  {
    if tid :| ThreadStep(sys, s, s', tid) {
      ReadyToAct(sys, s, tid);
      ActKeeps(sys, tid, s.sh, s.threads[tid], s'.sh, s'.threads[tid]);
      ThreadsAfter(sys, s, s', tid);
      AttendedAfter(s, s', tid);
    } else if n :| Edit(sys, s, s', n) {
      EditKeepsInv(sys, s, s', n);
    } else {
      var tid :| Cancel(s, s', tid);
      CancelKeepsInv(sys, s, s', tid);
    }
  }

  lemma RunStepKeepsInv(sys: System, r: seq<State>, i: nat)
    requires Sane(sys) && Run(sys, r) && 0 < i < |r| && Inv(sys, r[i - 1])
    ensures Inv(sys, r[i])
  {
    assert Steps(sys, r, i - 1);
    StepKeepsInv(sys, r[i - 1], r[i]);
  }

  lemma FreshProcessIsSound(sys: System, s: State)
    requires Init(sys, s)
    ensures Inv(sys, s)
  {
  }

  lemma {:induction false} RunKeepsInv(sys: System, r: seq<State>, i: nat)
    requires Sane(sys) && Run(sys, r) && i < |r|
    ensures Inv(sys, r[i])
  {
    if i > 0 {
      RunKeepsInv(sys, r, i - 1);
      RunStepKeepsInv(sys, r, i);
    } else {
      FreshProcessIsSound(sys, r[i]);
    }
  }

  /* ---- what a check compares against ---- */

  // The thread is checking what is held for key, or leaving with it, against the files as they stood in since.
  ghost predicate Sighted(th: Thread, key: Key, since: Files) {
    || (th.phase.Checking? && th.phase.key == key && th.phase.since == since)
    || (th.phase.Leaving? && th.phase.key == key && th.phase.from == Memory(since))
  }

  // The thread has asked for key and is waiting for its entry, or glancing at it.
  ghost predicate Looking(th: Thread, key: Key) {
    (th.phase.Waiting? || th.phase.Peeked?) && th.phase.key == key
  }

  lemma CallSights(sys: System, tid: nat, sh: Shared, th: Thread, sh': Shared, th': Thread, key: Key, since: Files)
    requires CallStep(sys, tid, sh, th, sh', th') && Sighted(th', key, since)
    ensures Sighted(th, key, since) || (Looking(th, key) && sh.files == since)
  {
  }

  lemma BuildSights(sys: System, sh: Shared, th: Thread, sh': Shared, th': Thread, key: Key, since: Files)
    requires BuildStep(sys, sh, th, sh', th')
    ensures !Sighted(th', key, since)
  {
    if TierStep(sys, sh, th, sh', th') {
      assert !th'.phase.Checking? && !th'.phase.Leaving?;
    }
  }

  lemma StepSights(sys: System, s: State, s': State, tid: nat, key: Key, since: Files)
    requires Next(sys, s, s') && tid in s'.threads && Sighted(s'.threads[tid], key, since)
    ensures tid in s.threads
    ensures Sighted(s.threads[tid], key, since) || (Looking(s.threads[tid], key) && s.sh.files == since)
  {
    if t :| ThreadStep(sys, s, s', t) {
      if t == tid {
        if BuildStep(sys, s.sh, s.threads[t], s'.sh, s'.threads[t]) {
          BuildSights(sys, s.sh, s.threads[t], s'.sh, s'.threads[t], key, since);
        } else {
          CallSights(sys, t, s.sh, s.threads[t], s'.sh, s'.threads[t], key, since);
        }
      }
    }
  }

  lemma RunSights(sys: System, r: seq<State>, i: nat, tid: nat, key: Key, since: Files)
    requires Run(sys, r) && i < |r| && tid in r[i].threads && Sighted(r[i].threads[tid], key, since)
    ensures i > 0 && tid in r[i - 1].threads
    ensures Sighted(r[i - 1].threads[tid], key, since)
            || (Looking(r[i - 1].threads[tid], key) && r[i - 1].sh.files == since)
  {
    assert i > 0;
    assert Steps(sys, r, i - 1);
    StepSights(sys, r[i - 1], r[i], tid, key, since);
  }

  // What a check compares against is how the files stood at a moment of the call that makes it: the thread was then
  // looking at the entry of that very key, and has been checking it, or leaving with it, ever since.
  lemma {:induction false} SinceIsHistory(sys: System, r: seq<State>, i: nat, tid: nat, key: Key, since: Files)
    returns (j: nat)
    requires Run(sys, r) && i < |r| && tid in r[i].threads && Sighted(r[i].threads[tid], key, since)
    ensures j < i && r[j].sh.files == since && tid in r[j].threads && Looking(r[j].threads[tid], key)
    ensures forall m | j < m <= i :: tid in r[m].threads && Sighted(r[m].threads[tid], key, since)
  {
    RunSights(sys, r, i, tid, key, since);
    if Sighted(r[i - 1].threads[tid], key, since) {
      j := SinceIsHistory(sys, r, i - 1, tid, key, since);
    } else {
      j := i - 1;
    }
  }

  /* ---- runs whose fingerprints are not torn ---- */

  function Sparing(sys: System): System {
    sys.(spared := true)
  }

  ghost predicate EditsAt(r: seq<State>, i: nat, n: Name) {
    i + 1 < |r| && r[i + 1].threads == r[i].threads
    && r[i + 1].sh == r[i].sh.(files := r[i].sh.files[n := r[i].sh.clock + 1], clock := r[i].sh.clock + 1)
  }

  // No edit changes what a name holds while a fingerprint is between its two looks at it.
  ghost predicate Untorn(sys: System, r: seq<State>) {
    forall i: nat, n: Name {:trigger EditsAt(r, i, n)} | EditsAt(r, i, n) :: Spares(sys, r[i], n)
  }

  // Every record in the store was true of a build: any contents it matches build to its value.
  ghost predicate SoundStore(sys: System, sh: Shared) {
    forall k | k in sh.store :: RecordInv(Sparing(sys), k, sh.store[k])
  }

  lemma CallIgnoresSparing(sys: System, tid: nat, sh: Shared, th: Thread, sh': Shared, th': Thread)
    requires CallStep(sys, tid, sh, th, sh', th')
    ensures CallStep(Sparing(sys), tid, sh, th, sh', th')
  {
  }

  lemma BuildIgnoresSparing(sys: System, sh: Shared, th: Thread, sh': Shared, th': Thread)
    requires BuildStep(sys, sh, th, sh', th')
    ensures BuildStep(Sparing(sys), sh, th, sh', th')
  {
    if n :| MatchContent(sys, sh, th, sh', th', n) {
      assert MatchContent(Sparing(sys), sh, th, sh', th', n);
    } else if n :| Noted(sys, sh, th, sh', th', n) {
      assert Noted(Sparing(sys), sh, th, sh', th', n);
    } else if key :| Nest(sys, sh, th, sh', th', key) {
      assert Nest(Sparing(sys), sh, th, sh', th', key);
    }
  }

  lemma StepIsSparing(sys: System, r: seq<State>, i: nat)
    requires i + 1 < |r| && Next(sys, r[i], r[i + 1]) && Untorn(sys, r)
    ensures Next(Sparing(sys), r[i], r[i + 1])
  {
    var s, s' := r[i], r[i + 1];
    if tid :| ThreadStep(sys, s, s', tid) {
      if CallStep(sys, tid, s.sh, s.threads[tid], s'.sh, s'.threads[tid]) {
        CallIgnoresSparing(sys, tid, s.sh, s.threads[tid], s'.sh, s'.threads[tid]);
      } else {
        BuildIgnoresSparing(sys, s.sh, s.threads[tid], s'.sh, s'.threads[tid]);
      }
      assert ThreadStep(Sparing(sys), s, s', tid);
    } else if n :| Edit(sys, s, s', n) {
      assert EditsAt(r, i, n);
      assert Spares(Sparing(sys), s, n);
      assert Edit(Sparing(sys), s, s', n);
    }
  }

  lemma UntornIsSparing(sys: System, r: seq<State>)
    requires Run(sys, r) && Untorn(sys, r) && SoundStore(sys, r[0].sh)
    ensures Run(Sparing(sys), r)
  {
    forall i: nat | i + 1 < |r| ensures Steps(Sparing(sys), r, i) {
      assert Steps(sys, r, i);
      StepIsSparing(sys, r, i);
    }
  }

  lemma FreshIgnoresSparing(sys: System, k: Key, files: Files)
    ensures Fresh(Sparing(sys), k, files) == Fresh(sys, k, files)
  {
    EvalIgnoresStamps(Sparing(sys), sys, k, [], View(sys, files));
    assert forall n :: View(Sparing(sys), files)(n) == View(sys, files)(n);
    SameViewsEval(Sparing(sys), k, [], View(Sparing(sys), files), View(sys, files));
  }

  lemma {:induction false} SameViewsEval(sys: System, k: Key, answers: seq<string>, c: Name -> Content, d: Name -> Content)
    requires forall n :: c(n) == d(n)
    ensures Eval(sys, k, answers, c) == Eval(sys, k, answers, d)
    decreases sys.level(k), sys.limit(k) - |answers|
  {
    if |answers| < sys.limit(k) {
      match sys.ask(k, answers)
      case Open(n) => SameViewsEval(sys, k, answers + [c(n)], c, d);
      case Use(k') =>
        if sys.level(k') < sys.level(k) {
          SameViewsEval(sys, k', [], c, d);
          var nested := Eval(sys, k', [], c);
          if nested.Ok? {
            SameViewsEval(sys, k, answers + [nested.v], c, d);
          }
        }
      case _ =>
    }
  }

  lemma WindowIsKept(sys: System, s: State, tid: nat, n: Name)
    requires AllThreadsInv(sys, s) && tid in s.threads && InWindow(s.threads[tid], n)
    ensures s.threads[tid].stack != [] && sys.kept(Top(s.threads[tid]).key)
  {
    assert ThreadInv(sys, s.sh, tid, s.threads[tid]);
  }

  lemma FingerprintsAreOfKept(sys: System, r: seq<State>, i: nat, tid: nat, n: Name)
    requires Sane(sys) && Run(sys, r) && i < |r| && tid in r[i].threads && InWindow(r[i].threads[tid], n)
    ensures r[i].threads[tid].stack != [] && sys.kept(Top(r[i].threads[tid]).key)
  {
    RunKeepsInv(sys, r, i);
    WindowIsKept(sys, r[i], tid, n);
  }

  // Where no key is kept across processes there are no fingerprints, and nothing to tear.
  lemma NothingKeptIsUntorn(sys: System, r: seq<State>)
    requires Sane(sys) && Run(sys, r) && forall k :: !sys.kept(k)
    ensures Untorn(sys, r)
  {
    forall i: nat, n: Name | EditsAt(r, i, n) ensures Spares(sys, r[i], n) {
      forall tid | tid in r[i].threads ensures !InWindow(r[i].threads[tid], n) {
        if InWindow(r[i].threads[tid], n) {
          FingerprintsAreOfKept(sys, r, i, tid, n);
        }
      }
    }
  }

  /* ---- the theorems ---- */

  lemma LeavingIsFresh(sys: System, s: State, tid: nat)
    requires AllThreadsInv(sys, s) && tid in s.threads
    requires s.threads[tid].phase.Leaving? && s.threads[tid].phase.from.Memory?
    ensures var p := s.threads[tid].phase;
            p.res.Ok? && (sys.spared ==> p.res == Fresh(sys, p.key, p.from.since))
  {
    assert ThreadInv(sys, s.sh, tid, s.threads[tid]);
  }

  // A value served from memory is what a fresh read would have given at a moment during the call, whatever files were
  // edited, entries evicted or builds cancelled meanwhile, and however deep the entry's build nested, in every run that
  // tears no fingerprint (see CacheTears for runs that do).
  lemma MemoryServesFresh(sys: System, r: seq<State>, i: nat, tid: nat) returns (j: nat)
    requires Sane(sys) && Run(sys, r) && Untorn(sys, r) && SoundStore(sys, r[0].sh) && i < |r|
    requires tid in r[i].threads && r[i].threads[tid].phase.Leaving? && r[i].threads[tid].phase.from.Memory?
    ensures var p := r[i].threads[tid].phase;
            && j < i && tid in r[j].threads && Looking(r[j].threads[tid], p.key)
            && (forall m | j < m <= i :: tid in r[m].threads && Sighted(r[m].threads[tid], p.key, r[j].sh.files))
            && p.res.Ok? && p.res == Fresh(sys, p.key, r[j].sh.files)
  {
    var p := r[i].threads[tid].phase;
    UntornIsSparing(sys, r);
    RunKeepsInv(Sparing(sys), r, i);
    LeavingIsFresh(Sparing(sys), r[i], tid);
    FreshIgnoresSparing(sys, p.key, p.from.since);
    j := SinceIsHistory(sys, r, i, tid, p.key, p.from.since);
  }

  lemma ClosingIsFresh(sys: System, s: State, tid: nat)
    requires AllThreadsInv(sys, s) && tid in s.threads
    requires s.threads[tid].phase.Closing? && s.threads[tid].phase.res.Ok?
    ensures var th := s.threads[tid];
            && th.stack != []
            && (sys.spared && Intact(s.sh.files, Top(th).touched) ==>
                  Fresh(sys, Top(th).key, s.sh.files) == th.phase.res)
  {
    var th := s.threads[tid];
    assert ThreadInv(sys, s.sh, tid, th);
    if Intact(s.sh.files, Top(th).touched) {
      SettledIsFresh(sys, Top(th).key, th.phase.res.v, s.sh.files, Top(th).touched);
    }
  }

  // The builder's own caller gets its value unchecked, built or restored. It is fresh while none of the files it noted has
  // been edited.
  lemma BuiltIsFreshUntilEdited(sys: System, r: seq<State>, i: nat, tid: nat)
    requires Sane(sys) && Run(sys, r) && Untorn(sys, r) && SoundStore(sys, r[0].sh) && i < |r|
    requires tid in r[i].threads && r[i].threads[tid].phase.Closing? && r[i].threads[tid].phase.res.Ok?
    ensures var th := r[i].threads[tid];
            && th.stack != []
            && (Intact(r[i].sh.files, Top(th).touched) ==>
                  Fresh(sys, Top(th).key, r[i].sh.files) == th.phase.res)
  {
    UntornIsSparing(sys, r);
    RunKeepsInv(Sparing(sys), r, i);
    ClosingIsFresh(Sparing(sys), r[i], tid);
    FreshIgnoresSparing(sys, Top(r[i].threads[tid]).key, r[i].sh.files);
  }

  lemma StoreStaysSound(sys: System, r: seq<State>, i: nat)
    requires Sane(sys) && Run(sys, r) && Untorn(sys, r) && SoundStore(sys, r[0].sh) && i < |r|
    ensures SoundStore(sys, r[i].sh)
  {
    UntornIsSparing(sys, r);
    RunKeepsInv(Sparing(sys), r, i);
  }

  lemma MatchedIsFresh(sys: System, k: Key, rec: Record, sh: Shared)
    requires RecordInv(Sparing(sys), k, rec) && Matches(sys, sh, rec)
    ensures Fresh(sys, k, sh.files) == Ok(rec.v)
  {
    assert Holds(View(Sparing(sys), sh.files), rec.seen);
    FreshIgnoresSparing(sys, k, sh.files);
  }

  // A record of the persistent tier gives what a fresh build would, under any contents it matches.
  lemma RestoredIsFresh(sys: System, r: seq<State>, i: nat, k: Key)
    requires Sane(sys) && Run(sys, r) && Untorn(sys, r) && SoundStore(sys, r[0].sh) && i < |r|
    requires k in r[i].sh.store && Matches(sys, r[i].sh, r[i].sh.store[k])
    ensures Fresh(sys, k, r[i].sh.files) == Ok(r[i].sh.store[k].v)
  {
    StoreStaysSound(sys, r, i);
    MatchedIsFresh(sys, k, r[i].sh.store[k], r[i].sh);
  }

  ghost predicate Builds(s: State, tid: nat, p: nat, id: EntryId) {
    tid in s.threads && p < |s.threads[tid].stack| && s.threads[tid].stack[p].id == id
  }

  lemma DistinctIds(sys: System, tid: nat, sh: Shared, stack: seq<Frame>)
    requires StackInv(sys, sh, tid, stack)
    ensures forall i, j | 0 <= i < j < |stack| :: stack[i].id != stack[j].id
  {
    forall i, j | 0 <= i < j < |stack| ensures stack[i].id != stack[j].id {
      OthersDiffer(sys, tid, sh, stack, i, j);
    }
  }

  lemma BuilderIsUnique(sys: System, s: State, t: nat, q: nat, u: nat, p: nat, id: EntryId)
    requires AllThreadsInv(sys, s) && Builds(s, t, q, id) && Builds(s, u, p, id)
    ensures t == u && p == q
  {
    assert ThreadInv(sys, s.sh, t, s.threads[t]) && FrameInv(sys, s.sh, t, s.threads[t].stack[q]);
    assert ThreadInv(sys, s.sh, u, s.threads[u]) && FrameInv(sys, s.sh, u, s.threads[u].stack[p]);
    DistinctIds(sys, t, s.sh, s.threads[t].stack);
  }

  // Every entry not yet ready has exactly one builder, and one place on that builder's stack.
  lemma OneBuilderPerEntry(sys: System, r: seq<State>, i: nat, id: EntryId) returns (tid: nat, p: nat)
    requires Sane(sys) && Run(sys, r) && i < |r|
    requires id in r[i].sh.table.cells && !r[i].sh.table.cells[id].ready
    ensures Builds(r[i], tid, p, id)
    ensures forall t, q | Builds(r[i], t, q, id) :: t == tid && q == p
  {
    RunKeepsInv(sys, r, i);
    assert Attended(r[i], id);
    tid := r[i].sh.table.cells[id].builder;
    p :| 0 <= p < |r[i].threads[tid].stack| && r[i].threads[tid].stack[p].id == id;
    assert Builds(r[i], tid, p, id);
    forall t, q | Builds(r[i], t, q, id) ensures t == tid && q == p {
      BuilderIsUnique(sys, r[i], t, q, tid, p, id);
    }
  }

  // An entry found in the map is filed under its own key, within the limit, and if it is ready it is one a caller may
  // use: no error, and files to check it against.
  lemma MappedEntriesAreUsable(sys: System, r: seq<State>, i: nat, k: Key)
    requires Sane(sys) && Run(sys, r) && i < |r| && k in r[i].sh.table.entries
    ensures var t := r[i].sh.table;
            && |t.entries| <= sys.max && t.entries[k] in t.cells && t.cells[t.entries[k]].key == k
            && (t.cells[t.entries[k]].ready ==>
                  t.cells[t.entries[k]].res.Ok? && t.cells[t.entries[k]].touched != map[])
  {
    RunKeepsInv(sys, r, i);
  }

  // The three ways an entry leaves the map. A caller drops the entry it found stale or failed. A builder drops its own
  // entry when it has nothing to keep. A miss on another key evicts it when at least max others were used since.
  ghost predicate MayDrop(sys: System, tid: nat, sh: Shared, th: Thread, k: Key)
    requires k in sh.table.entries
  {
    || (th.phase.Dropping? && th.phase.key == k && th.phase.id == sh.table.entries[k])
    || (th.phase.Settling? && th.stack != [] && Unkeepable(th.phase.res, Top(th))
        && Top(th).key == k && Top(th).id == sh.table.entries[k])
    || (th.phase.Asking? && th.phase.key !in sh.table.entries
        && !Survives(Place(sh.table, th.phase.key, tid, sh.clock).used, sys.max, k))
  }

  lemma CallDrops(sys: System, tid: nat, sh: Shared, th: Thread, sh': Shared, th': Thread, k: Key)
    requires CallStep(sys, tid, sh, th, sh', th') && k in sh.table.entries && Held(sh.table)
    ensures (k in sh'.table.entries && sh'.table.entries[k] == sh.table.entries[k]) || MayDrop(sys, tid, sh, th, k)
  {
  }

  lemma BuildDrops(sys: System, tid: nat, sh: Shared, th: Thread, sh': Shared, th': Thread, k: Key)
    requires BuildStep(sys, sh, th, sh', th') && k in sh.table.entries && Held(sh.table)
    ensures (k in sh'.table.entries && sh'.table.entries[k] == sh.table.entries[k]) || MayDrop(sys, tid, sh, th, k)
  {
  }

  lemma OnlyTheSeenEntryIsDropped(sys: System, r: seq<State>, i: nat, k: Key)
    requires Sane(sys) && Run(sys, r) && i + 1 < |r| && k in r[i].sh.table.entries
    ensures || (k in r[i + 1].sh.table.entries && r[i + 1].sh.table.entries[k] == r[i].sh.table.entries[k])
            || exists tid :: tid in r[i].threads && MayDrop(sys, tid, r[i].sh, r[i].threads[tid], k)
  {
    RunKeepsInv(sys, r, i);
    var s, s' := r[i], r[i + 1];
    assert Steps(sys, r, i);
    if tid :| ThreadStep(sys, s, s', tid) {
      if CallStep(sys, tid, s.sh, s.threads[tid], s'.sh, s'.threads[tid]) {
        CallDrops(sys, tid, s.sh, s.threads[tid], s'.sh, s'.threads[tid], k);
      } else {
        BuildDrops(sys, tid, s.sh, s.threads[tid], s'.sh, s'.threads[tid], k);
      }
    }
  }

  /* ---- across processes ---- */

  // Another process: the same builds, over a copy of the files whose stamps mean something else.
  ghost predicate SameBuilds(a: System, b: System) {
    a.ask == b.ask && a.level == b.level && a.limit == b.limit
  }

  lemma {:induction false} EvalIgnoresStamps(a: System, b: System, k: Key, answers: seq<string>, c: Name -> Content)
    requires SameBuilds(a, b)
    ensures Eval(a, k, answers, c) == Eval(b, k, answers, c)
    decreases a.level(k), a.limit(k) - |answers|
  {
    if |answers| < a.limit(k) {
      match a.ask(k, answers)
      case Open(n) => EvalIgnoresStamps(a, b, k, answers + [c(n)], c);
      case Use(k') =>
        if a.level(k') < a.level(k) {
          EvalIgnoresStamps(a, b, k', [], c);
          var nested := Eval(a, k', [], c);
          if nested.Ok? {
            EvalIgnoresStamps(a, b, k, answers + [nested.v], c);
          }
        }
      case _ =>
    }
  }

  lemma RecordOutlivesProcess(a: System, b: System, k: Key, rec: Record)
    requires SameBuilds(a, b) && RecordInv(Sparing(a), k, rec)
    ensures RecordInv(Sparing(b), k, rec)
  {
    forall c: Name -> Content | Holds(c, rec.seen) ensures Eval(Sparing(b), k, [], c) == Ok(rec.v) {
      EvalIgnoresStamps(Sparing(a), Sparing(b), k, [], c);
    }
  }

  // A store left by one process that tore no fingerprint is one the next may start from.
  lemma StoreOutlivesProcess(a: System, b: System, r: seq<State>, i: nat, sh: Shared)
    requires Sane(a) && Run(a, r) && Untorn(a, r) && SoundStore(a, r[0].sh) && i < |r|
    requires SameBuilds(a, b) && sh.store == r[i].sh.store
    ensures SoundStore(b, sh)
  {
    StoreStaysSound(a, r, i);
    forall k | k in sh.store ensures RecordInv(Sparing(b), k, sh.store[k]) {
      assert RecordInv(Sparing(a), k, r[i].sh.store[k]);
      RecordOutlivesProcess(a, b, k, sh.store[k]);
    }
  }
}
