// A call retries only when something happened to its entry, and some thread can always move.
module CacheProgress {
  import opened Recency
  import opened Recorders
  import opened DesignCache
  import opened CacheProtocol
  import opened CacheSafety
  import opened CacheSteps
  import opened CacheTheorems

  /* ---- each retry is charged to an edit or to a spoiled build ---- */

  ghost predicate Counted(sh: Shared, log: Log) {
    && log.edits0 <= log.prev <= log.cur <= sh.clock
    && log.spoiled0 <= log.curSpoiled <= sh.spoiled
    && log.nextAt <= sh.table.next
    && forall id | id in sh.table.cells && id >= log.nextAt :: sh.table.cells[id].born >= log.cur
  }

  ghost predicate AskingLog(sh: Shared, log: Log, key: Key) {
    && log.retries <= (sh.clock - log.edits0) + (log.cur - log.edits0) + (sh.spoiled - log.spoiled0) + 1
    && (log.retries > 0 && key in sh.table.entries ==> sh.table.entries[key] >= log.nextAt)
  }

  // The entry id was found under the lock when the counts were as the log says.
  ghost predicate FoundLog(sh: Shared, log: Log, key: Key, id: EntryId) {
    && id in sh.table.cells
    && log.retries <= (log.cur - log.edits0) + (log.prev - log.edits0) + (log.curSpoiled - log.spoiled0) + 1
    && (key in sh.table.entries ==> sh.table.entries[key] == id || sh.table.entries[key] >= log.nextAt)
    && (log.retries > 0 ==> sh.table.cells[id].born >= log.prev)
    && (sh.table.cells[id].ready && Spoilt(sh.table.cells[id].res, sh.table.cells[id].touched) ==>
          sh.spoiled > log.curSpoiled)
  }

  ghost predicate DroppingLog(sh: Shared, log: Log, id: EntryId)
    requires id in sh.table.cells
  {
    && sh.table.cells[id].ready
    && (sh.table.cells[id].res.Ok? && sh.table.cells[id].touched != map[] ==>
          log.retries == 0 || sh.clock > log.prev)
  }

  ghost predicate LogInv(sh: Shared, th: Thread) {
    match th.phase
    case Asking(key) => Counted(sh, th.log) && AskingLog(sh, th.log, key)
    case Waiting(key, id) => Counted(sh, th.log) && FoundLog(sh, th.log, key, id)
    case Checking(key, id, _, _, peek) => peek || (Counted(sh, th.log) && FoundLog(sh, th.log, key, id))
    case Dropping(key, id) =>
      Counted(sh, th.log) && FoundLog(sh, th.log, key, id) && DroppingLog(sh, th.log, id)
    case _ => true
  }

  ghost predicate AllLogged(s: State) {
    forall tid | tid in s.threads :: LogInv(s.sh, s.threads[tid])
  }

  // A build that closes with nothing to keep is counted.
  ghost predicate CountsSpoils(sh: Shared, sh': Shared) {
    forall id | id in sh.table.cells && id in sh'.table.cells && !sh.table.cells[id].ready && sh'.table.cells[id].ready
      && Spoilt(sh'.table.cells[id].res, sh'.table.cells[id].touched) :: sh'.spoiled > sh.spoiled
  }

  lemma CallCountsSpoils(sys: System, tid: nat, sh: Shared, th: Thread, sh': Shared, th': Thread)
    requires CallStep(sys, tid, sh, th, sh', th') && Held(sh.table)
    ensures CountsSpoils(sh, sh')
  {
  }

  lemma BuildCountsSpoils(sys: System, sh: Shared, th: Thread, sh': Shared, th': Thread)
    requires BuildStep(sys, sh, th, sh', th')
    ensures CountsSpoils(sh, sh')
  {
  }

  lemma OtherLogKept(sh: Shared, sh': Shared, tid: nat, th: Thread)
    requires Moves(sh, sh', tid) && CountsSpoils(sh, sh') && LogInv(sh, th) && Held(sh.table)
    ensures LogInv(sh', th)
  {
    if th.phase.Waiting? || th.phase.Checking? || th.phase.Dropping? {
      if th.phase.id in sh.table.cells {
        assert CellMoves(sh.table.cells[th.phase.id], sh'.table.cells[th.phase.id], tid);
      }
    }
  }

  lemma EditKeepsLog(sh: Shared, sh': Shared, n: Name, th: Thread)
    requires Edited(sh, sh', n) && LogInv(sh, th)
    ensures LogInv(sh', th)
  {
  }

  lemma JoinLogs(sys: System, tid: nat, sh: Shared, th: Thread, sh': Shared, th': Thread)
    requires SharedInv(sys, sh) && LogInv(sh, th) && Join(sh, th, sh', th')
    ensures LogInv(sh', th')
  {
    var id := sh.table.entries[th.phase.key];
    assert Usable(sh.table.cells[id]);
  }

  lemma MismatchLogs(sys: System, tid: nat, sh: Shared, th: Thread, sh': Shared, th': Thread, n: Name)
    requires SharedInv(sys, sh) && LogInv(sh, th) && PhaseInv(sys, sh, th) && CheckName(sh, th, sh', th', n)
    ensures LogInv(sh', th')
  {
    var cell := sh.table.cells[th.phase.id];
    assert CellInv(sys, sh.files, sh.clock, cell);
    assert At(sh.files, n) <= sh.clock;
    if At(sh.files, n) != cell.touched[n] {
      assert At(sh.files, n) > cell.born;
    }
  }

  lemma RetryLogs(sys: System, tid: nat, sh: Shared, th: Thread, sh': Shared, th': Thread)
    requires SharedInv(sys, sh) && LogInv(sh, th) && Retry(sh, th, sh', th')
    ensures LogInv(sh', th')
  {
  }

  lemma CallLogs(sys: System, tid: nat, sh: Shared, th: Thread, sh': Shared, th': Thread)
    requires SharedInv(sys, sh) && LogInv(sh, th) && PhaseInv(sys, sh, th) && CallStep(sys, tid, sh, th, sh', th')
    ensures LogInv(sh', th')
  {
    if Join(sh, th, sh', th') { JoinLogs(sys, tid, sh, th, sh', th'); }
    else if n :| CheckName(sh, th, sh', th', n) { MismatchLogs(sys, tid, sh, th, sh', th', n); }
    else if Retry(sh, th, sh', th') { RetryLogs(sys, tid, sh, th, sh', th'); }
  }

  lemma NestLogs(sys: System, sh: Shared, th: Thread, sh': Shared, th': Thread, key: Key)
    requires SharedInv(sys, sh) && Nest(sys, sh, th, sh', th', key)
    ensures LogInv(sh', th')
  {
  }

  lemma TierNeverAsks(sys: System, sh: Shared, th: Thread, sh': Shared, th': Thread)
    requires TierStep(sys, sh, th, sh', th')
    ensures !(th'.phase.Asking? || th'.phase.Waiting? || th'.phase.Dropping? || th'.phase.Checking?)
  {
  }

  lemma BuildSeeks(sys: System, sh: Shared, th: Thread, sh': Shared, th': Thread)
    requires BuildStep(sys, sh, th, sh', th')
    ensures (exists key :: Nest(sys, sh, th, sh', th', key)) || LogInv(sh', th')
  {
    if TierStep(sys, sh, th, sh', th') {
      TierNeverAsks(sys, sh, th, sh', th');
    }
  }

  lemma BuildLogs(sys: System, tid: nat, sh: Shared, th: Thread, sh': Shared, th': Thread)
    requires SharedInv(sys, sh) && BuildStep(sys, sh, th, sh', th')
    ensures LogInv(sh', th')
  {
    BuildSeeks(sys, sh, th, sh', th');
    if key :| Nest(sys, sh, th, sh', th', key) {
      NestLogs(sys, sh, th, sh', th', key);
    }
  }

  lemma ThreadLogs(sys: System, s: State, s': State, tid: nat)
    requires Sane(sys) && Inv(sys, s) && AllLogged(s) && ThreadStep(sys, s, s', tid)
    ensures LogInv(s'.sh, s'.threads[tid])
    ensures CountsSpoils(s.sh, s'.sh)
  {
    assert ThreadInv(sys, s.sh, tid, s.threads[tid]);
    if CallStep(sys, tid, s.sh, s.threads[tid], s'.sh, s'.threads[tid]) {
      CallLogs(sys, tid, s.sh, s.threads[tid], s'.sh, s'.threads[tid]);
      CallCountsSpoils(sys, tid, s.sh, s.threads[tid], s'.sh, s'.threads[tid]);
    } else {
      BuildLogs(sys, tid, s.sh, s.threads[tid], s'.sh, s'.threads[tid]);
      BuildCountsSpoils(sys, s.sh, s.threads[tid], s'.sh, s'.threads[tid]);
    }
  }

  lemma ThreadMoves(sys: System, s: State, s': State, tid: nat)
    requires Sane(sys) && Inv(sys, s) && ThreadStep(sys, s, s', tid)
    ensures Moves(s.sh, s'.sh, tid)
  {
    ReadyToAct(sys, s, tid);
    ActKeeps(sys, tid, s.sh, s.threads[tid], s'.sh, s'.threads[tid]);
  }

  lemma OtherLogsKept(s: State, s': State, tid: nat)
    requires AllLogged(s) && Held(s.sh.table) && Moves(s.sh, s'.sh, tid) && CountsSpoils(s.sh, s'.sh)
    requires tid in s.threads && tid in s'.threads && s'.threads == s.threads[tid := s'.threads[tid]]
    requires LogInv(s'.sh, s'.threads[tid])
    ensures AllLogged(s')
  {
    forall t | t in s'.threads && t != tid ensures LogInv(s'.sh, s'.threads[t]) {
      OtherLogKept(s.sh, s'.sh, tid, s.threads[t]);
    }
  }

  lemma ThreadKeepsLogs(sys: System, s: State, s': State, tid: nat)
    requires Sane(sys) && Inv(sys, s) && AllLogged(s) && ThreadStep(sys, s, s', tid)
    ensures AllLogged(s')
  {
    ThreadLogs(sys, s, s', tid);
    ThreadMoves(sys, s, s', tid);
    OtherLogsKept(s, s', tid);
  }

  lemma EditKeepsLogs(sys: System, s: State, s': State, n: Name)
    requires Clocked(s.sh.files, s.sh.clock) && AllLogged(s) && Edit(sys, s, s', n)
    ensures AllLogged(s')
  {
    forall t | t in s'.threads ensures LogInv(s'.sh, s'.threads[t]) {
      EditKeepsLog(s.sh, s'.sh, n, s.threads[t]);
    }
  }

  lemma CancelKeepsLogs(s: State, s': State, tid: nat)
    requires AllLogged(s) && Cancel(s, s', tid)
    ensures AllLogged(s')
  {
    assert LogInv(s.sh, s.threads[tid]);
  }

  lemma StepKeepsLogs(sys: System, s: State, s': State)
    requires Sane(sys) && Inv(sys, s) && AllLogged(s) && Next(sys, s, s')
    ensures AllLogged(s')
  {
    if tid :| ThreadStep(sys, s, s', tid) {
      ThreadKeepsLogs(sys, s, s', tid);
    } else if n :| Edit(sys, s, s', n) {
      EditKeepsLogs(sys, s, s', n);
    } else {
      var tid :| Cancel(s, s', tid);
      CancelKeepsLogs(s, s', tid);
    }
  }

  lemma RunStepKeepsLogs(sys: System, r: seq<State>, i: nat)
    requires Sane(sys) && Run(sys, r) && i + 1 < |r| && AllLogged(r[i])
    ensures AllLogged(r[i + 1])
  {
    RunKeepsInv(sys, r, i);
    assert Steps(sys, r, i);
    StepKeepsLogs(sys, r[i], r[i + 1]);
  }

  lemma {:induction false} RunKeepsLogs(sys: System, r: seq<State>, i: nat)
    requires Sane(sys) && Run(sys, r) && i < |r|
    ensures AllLogged(r[i])
  {
    if i == 0 {
      assert Init(sys, r[0]);
    } else {
      RunKeepsLogs(sys, r, i - 1);
      RunStepKeepsLogs(sys, r, i - 1);
    }
  }

  // A thread is looking for the value of a key, and has not become its builder.
  predicate Seeking(th: Thread) {
    th.phase.Asking? || th.phase.Waiting? || th.phase.Dropping? || (th.phase.Checking? && !th.phase.peek)
  }

  // The call's count began when the edits and the spoiled builds were as its log says.
  ghost predicate Began(s: State, tid: nat, log: Log) {
    && tid in s.threads && s.sh.clock == log.edits0 && s.sh.spoiled == log.spoiled0
    && (s.threads[tid].phase.Idle? || s.threads[tid].phase.Running?)
  }

  lemma BuildNeverSeeks(sys: System, sh: Shared, th: Thread, sh': Shared, th': Thread)
    requires BuildStep(sys, sh, th, sh', th') && Seeking(th')
    ensures th.phase.Running? && sh' == sh && th'.log == NewLog(sh)
  {
    if TierStep(sys, sh, th, sh', th') {
      TierNeverAsks(sys, sh, th, sh', th');
    }
  }

  lemma CallSeeks(sys: System, tid: nat, sh: Shared, th: Thread, sh': Shared, th': Thread)
    requires CallStep(sys, tid, sh, th, sh', th') && Seeking(th')
    ensures || (Seeking(th) && th.log.edits0 == th'.log.edits0 && th.log.spoiled0 == th'.log.spoiled0)
            || (th.phase.Idle? && sh' == sh && th'.log == NewLog(sh))
  {
  }

  lemma SeekingGoesOn(sys: System, tid: nat, sh: Shared, th: Thread, sh': Shared, th': Thread)
    requires Act(sys, tid, sh, th, sh', th') && Seeking(th')
    ensures || (Seeking(th) && th.log.edits0 == th'.log.edits0 && th.log.spoiled0 == th'.log.spoiled0)
            || ((th.phase.Idle? || th.phase.Running?) && sh' == sh && th'.log == NewLog(sh))
  {
    if BuildStep(sys, sh, th, sh', th') {
      BuildNeverSeeks(sys, sh, th, sh', th');
    } else {
      CallSeeks(sys, tid, sh, th, sh', th');
    }
  }

  lemma StepSeeks(sys: System, s: State, s': State, tid: nat)
    requires Next(sys, s, s') && tid in s'.threads && Seeking(s'.threads[tid])
    ensures tid in s.threads
    ensures var log, log' := s.threads[tid].log, s'.threads[tid].log;
            || (Seeking(s.threads[tid]) && log.edits0 == log'.edits0 && log.spoiled0 == log'.spoiled0)
            || (!Seeking(s.threads[tid]) && Began(s, tid, log'))
  {
    if t :| ThreadStep(sys, s, s', t) {
      if t == tid {
        SeekingGoesOn(sys, tid, s.sh, s.threads[tid], s'.sh, s'.threads[tid]);
      }
    }
  }

  lemma RunSeeks(sys: System, r: seq<State>, i: nat, tid: nat)
    requires Run(sys, r) && i < |r| && tid in r[i].threads && Seeking(r[i].threads[tid])
    ensures i > 0 && tid in r[i - 1].threads
    ensures var log, log' := r[i - 1].threads[tid].log, r[i].threads[tid].log;
            || (Seeking(r[i - 1].threads[tid]) && log.edits0 == log'.edits0 && log.spoiled0 == log'.spoiled0)
            || (!Seeking(r[i - 1].threads[tid]) && Began(r[i - 1], tid, log'))
  {
    assert i > 0;
    assert Steps(sys, r, i - 1);
    StepSeeks(sys, r[i - 1], r[i], tid);
  }

  lemma {:induction false} CallBegan(sys: System, r: seq<State>, i: nat, tid: nat) returns (j: nat)
    requires Run(sys, r) && i < |r| && tid in r[i].threads && Seeking(r[i].threads[tid])
    ensures j < i && Began(r[j], tid, r[i].threads[tid].log)
    ensures forall m | j < m <= i :: tid in r[m].threads && Seeking(r[m].threads[tid])
  {
    RunSeeks(sys, r, i, tid);
    if Seeking(r[i - 1].threads[tid]) {
      j := CallBegan(sys, r, i - 1, tid);
    } else {
      j := i - 1;
    }
  }

  // Since its call began at step j, a thread has retried at most once, plus twice for each file edit and once for each
  // build that was cancelled or noted no file.
  lemma RetriesAreCharged(sys: System, r: seq<State>, i: nat, tid: nat) returns (j: nat)
    requires Sane(sys) && Run(sys, r) && i < |r| && tid in r[i].threads && Seeking(r[i].threads[tid])
    ensures j < i && Began(r[j], tid, r[i].threads[tid].log)
    ensures forall m | j < m <= i :: tid in r[m].threads && Seeking(r[m].threads[tid])
    ensures r[i].threads[tid].log.retries
            <= 1 + 2 * (r[i].sh.clock - r[j].sh.clock) + (r[i].sh.spoiled - r[j].sh.spoiled)
  {
    j := CallBegan(sys, r, i, tid);
    RunKeepsLogs(sys, r, i);
    assert LogInv(r[i].sh, r[i].threads[tid]);
  }

  /* ---- no deadlock ---- */

  ghost predicate CanMove(sys: System, tid: nat, sh: Shared, th: Thread) {
    exists sh', th' :: Act(sys, tid, sh, th, sh', th')
  }

  // Waiting for an entry that is still being built.
  ghost predicate Blocked(sh: Shared, th: Thread) {
    th.phase.Waiting? && th.phase.id in sh.table.cells && !sh.table.cells[th.phase.id].ready
  }

  lemma CallCanMove(sys: System, tid: nat, sh: Shared, th: Thread)
    requires PhaseInv(sys, sh, th) && !Blocked(sh, th)
    requires th.phase.Asking? || th.phase.Waiting? || th.phase.Dropping? || th.phase.Peeking? || th.phase.Peeked?
    ensures CanMove(sys, tid, sh, th)
  {
    match th.phase
    case Asking(key) =>
      if key in sh.table.entries {
        var sh' := sh.(table := Bump(sh.table, key));
        var th' := th.(phase := Waiting(key, sh.table.entries[key]), log := Looked(sh, th.log));
        assert Join(sh, th, sh', th');
        assert Act(sys, tid, sh, th, sh', th');
      } else {
        var sh' := sh.(table := Insert(sh.table, key, tid, sh.clock, sys.max));
        var th' := th.(stack := th.stack + [Frame(key, sh.table.next, [], map[])], phase := Restoring);
        assert Begin(sys, tid, sh, th, sh', th');
        assert Act(sys, tid, sh, th, sh', th');
      }
    case Waiting(key, id) =>
      if Servable(sh.table.cells[id]) {
        var th' := th.(phase := CheckOf(sh, key, id, false));
        assert Wake(sh, th, sh, th');
        assert Act(sys, tid, sh, th, sh, th');
      } else {
        var th' := th.(phase := Dropping(key, id));
        assert WakeToNothing(sh, th, sh, th');
        assert Act(sys, tid, sh, th, sh, th');
      }
    case Dropping(key, id) =>
      var sh' := sh.(table := Drop(sh.table, key, id));
      if Retriable(sh.table.cells[id].res, th.live) {
        var th' := th.(phase := Asking(key), log := Retried(th.log));
        assert Retry(sh, th, sh', th');
        assert Act(sys, tid, sh, th, sh', th');
      } else {
        var th' := th.(phase := Leaving(key, sh.table.cells[id].res, Elsewhere));
        assert TakeFailure(sh, th, sh', th');
        assert Act(sys, tid, sh, th, sh', th');
      }
    case Peeking(key) =>
      if key in sh.table.entries {
        var sh' := sh.(table := Bump(sh.table, key));
        var th' := th.(phase := Peeked(key, sh.table.entries[key]));
        assert PeekLook(sh, th, sh', th');
        assert Act(sys, tid, sh, th, sh', th');
      } else {
        var th' := th.(phase := Leaving(key, Err(NotKept), Elsewhere));
        assert PeekLook(sh, th, sh, th');
        assert Act(sys, tid, sh, th, sh, th');
      }
    case Peeked(key, id) =>
      if Servable(sh.table.cells[id]) {
        var th' := th.(phase := CheckOf(sh, key, id, true));
        assert Glance(sh, th, sh, th');
        assert Act(sys, tid, sh, th, sh, th');
      } else {
        var th' := th.(phase := Leaving(key, Err(NotKept), Elsewhere));
        assert Overlook(sh, th, sh, th');
        assert Act(sys, tid, sh, th, sh, th');
      }
    case _ =>
  }

  lemma CheckCanMove(sys: System, tid: nat, sh: Shared, th: Thread)
    requires CheckingInv(sys, sh, th)
    ensures CanMove(sys, tid, sh, th)
  {
    var p, cell := th.phase, sh.table.cells[th.phase.id];
    if p.left == {} {
      var th' := th.(stack := Merged(th.stack, cell.touched), phase := Leaving(p.key, cell.res, Memory(p.since)));
      assert Serve(sh, th, sh, th');
      assert Act(sys, tid, sh, th, sh, th');
    } else {
      var n :| n in p.left;
      var th' := th.(phase :=
        if At(sh.files, n) == cell.touched[n] then p.(left := p.left - {n})
        else if p.peek then Leaving(p.key, Err(NotKept), Elsewhere)
        else Dropping(p.key, p.id));
      assert CheckName(sh, th, sh, th', n);
      assert Act(sys, tid, sh, th, sh, th');
    }
  }

  lemma BuildCanMove(sys: System, tid: nat, sh: Shared, th: Thread)
    requires th.stack != [] && Top(th).id in sh.table.cells
    requires th.phase.Restoring? || th.phase.Matching? || th.phase.Matched? || th.phase.Running? || th.phase.Reading?
             || th.phase.Ending? || th.phase.Printing? || th.phase.Printed? || th.phase.Settling? || th.phase.Closing?
    ensures CanMove(sys, tid, sh, th)
  {
    var f := Top(th);
    match th.phase
    case Restoring =>
      assert Miss(sh, th, sh, th.(phase := Running));
      assert Act(sys, tid, sh, th, sh, th.(phase := Running));
    case Matching(_, _, _) =>
      assert Miss(sh, th, sh, th.(phase := Running));
      assert Act(sys, tid, sh, th, sh, th.(phase := Running));
    case Matched(rec, todo, t, n) =>
      var th' := th.(phase := Matching(rec, todo - {n}, t[n := At(sh.files, n)]));
      assert MatchStamp(sh, th, sh, th');
      assert Act(sys, tid, sh, th, sh, th');
    case Running => RunCanMove(sys, tid, sh, th);
    case Reading(n) =>
      var th' := WithTop(th, f.(answers := f.answers + [sys.content(n, At(sh.files, n))])).(phase := Running);
      assert Read(sys, sh, th, sh, th');
      assert Act(sys, tid, sh, th, sh, th');
    case Ending(res) =>
      assert SkipSave(sh, th, sh, th.(phase := Settling(res)));
      assert Act(sys, tid, sh, th, sh, th.(phase := Settling(res)));
    case Printing(res, _, _, _) =>
      assert SkipSave(sh, th, sh, th.(phase := Settling(res)));
      assert Act(sys, tid, sh, th, sh, th.(phase := Settling(res)));
    case Printed(res, _, _, _, _) =>
      assert SkipSave(sh, th, sh, th.(phase := Settling(res)));
      assert Act(sys, tid, sh, th, sh, th.(phase := Settling(res)));
    case Settling(res) =>
      var th' := th.(phase := Closing(res));
      if Unkeepable(res, f) {
        var sh' := sh.(table := Drop(sh.table, f.key, f.id));
        assert Unmap(sh, th, sh', th');
        assert Act(sys, tid, sh, th, sh', th');
      } else {
        assert StayMapped(sh, th, sh, th');
        assert Act(sys, tid, sh, th, sh, th');
      }
    case Closing(res) =>
      var sh' := sh.(table := Shut(sh.table, f.id, res, f.touched),
                     spoiled := sh.spoiled + if Spoilt(res, f.touched) then 1 else 0);
      var th' := th.(stack := Merged(Below(th), f.touched), phase := Leaving(f.key, res, Elsewhere));
      assert Close(sh, th, sh', th');
      assert Act(sys, tid, sh, th, sh', th');
    case _ =>
  }

  lemma RunCanMove(sys: System, tid: nat, sh: Shared, th: Thread)
    requires th.stack != [] && th.phase.Running?
    ensures CanMove(sys, tid, sh, th)
  {
    var f := Top(th);
    if |f.answers| >= sys.limit(f.key) {
      assert Finish(sys, sh, th, sh, th.(phase := Ending(GaveUp)));
      assert Act(sys, tid, sh, th, sh, th.(phase := Ending(GaveUp)));
    } else {
      match sys.ask(f.key, f.answers)
      case Done(v) =>
        assert Finish(sys, sh, th, sh, th.(phase := Ending(Ok(v))));
        assert Act(sys, tid, sh, th, sh, th.(phase := Ending(Ok(v))));
      case Fail(why) =>
        assert Finish(sys, sh, th, sh, th.(phase := Ending(Err(Broken(why)))));
        assert Act(sys, tid, sh, th, sh, th.(phase := Ending(Err(Broken(why)))));
      case Open(n) =>
        var th' := WithTop(th, f.(touched := Note(f.touched, sh.files, n))).(phase := Reading(n));
        assert Noted(sys, sh, th, sh, th', n);
        assert Act(sys, tid, sh, th, sh, th');
      case Use(key) =>
        var th' := th.(phase := Asking(key), log := NewLog(sh));
        assert Nest(sys, sh, th, sh, th', key);
        assert Act(sys, tid, sh, th, sh, th');
    }
  }

  lemma LeaveCanMove(sys: System, tid: nat, sh: Shared, th: Thread)
    requires th.phase.Leaving?
    ensures CanMove(sys, tid, sh, th)
  {
    if th.stack == [] {
      assert Return(sh, th, sh, th.(phase := Idle));
      assert Act(sys, tid, sh, th, sh, th.(phase := Idle));
    } else if th.phase.res.Ok? {
      var th' := WithTop(th, Top(th).(answers := Top(th).answers + [th.phase.res.v])).(phase := Running);
      assert Answer(sh, th, sh, th');
      assert Act(sys, tid, sh, th, sh, th');
    } else {
      assert Propagate(sh, th, sh, th.(phase := Ending(th.phase.res)));
      assert Act(sys, tid, sh, th, sh, th.(phase := Ending(th.phase.res)));
    }
  }

  lemma UnblockedCanMove(sys: System, tid: nat, sh: Shared, th: Thread)
    requires ThreadInv(sys, sh, tid, th) && !th.phase.Idle? && !Blocked(sh, th)
    ensures CanMove(sys, tid, sh, th)
  {
    if th.phase.Checking? {
      CheckCanMove(sys, tid, sh, th);
    } else if th.phase.Leaving? {
      LeaveCanMove(sys, tid, sh, th);
    } else if th.phase.Asking? || th.phase.Waiting? || th.phase.Dropping? || th.phase.Peeking? || th.phase.Peeked? {
      CallCanMove(sys, tid, sh, th);
    } else {
      assert FrameInv(sys, sh, tid, Top(th));
      BuildCanMove(sys, tid, sh, th);
    }
  }

  // A blocked thread waits for a build of its key. If that builder is blocked in turn, it waits for a key of a lower
  // level, so following the waits ends at a thread that can move.
  lemma WaitersBuilder(sys: System, s: State, tid: nat) returns (u: nat)
    requires Sane(sys) && Inv(sys, s) && tid in s.threads && Blocked(s.sh, s.threads[tid])
    ensures u in s.threads && !s.threads[u].phase.Idle?
    ensures Blocked(s.sh, s.threads[u]) ==>
              sys.level(s.threads[u].phase.key) < sys.level(s.threads[tid].phase.key)
  {
    var th := s.threads[tid];
    assert ThreadInv(sys, s.sh, tid, th);
    assert Attended(s, th.phase.id);
    u := s.sh.table.cells[th.phase.id].builder;
    BuilderWaitsLower(sys, s.sh, u, s.threads[u], th.phase.key, th.phase.id);
  }

  lemma BuilderWaitsLower(sys: System, sh: Shared, u: nat, th: Thread, key: Key, id: EntryId)
    requires Sane(sys) && ThreadInv(sys, sh, u, th) && Seen(sh, key, id) && OnStack(th.stack, id)
    ensures !th.phase.Idle?
    ensures Blocked(sh, th) ==> sys.level(th.phase.key) < sys.level(key)
  {
    var p :| 0 <= p < |th.stack| && th.stack[p].id == id;
    assert FrameInv(sys, sh, u, th.stack[p]);
    if Blocked(sh, th) {
      var top := th.stack[|th.stack| - 1];
      assert Calls(sys, top, th.phase.key);
      assert sys.ask(top.key, top.answers).Use?;
      assert p < |th.stack| - 1 ==> sys.level(top.key) < sys.level(th.stack[p].key);
    }
  }

  lemma {:induction false} SomeoneCanMove(sys: System, s: State, tid: nat) returns (u: nat)
    requires Sane(sys) && Inv(sys, s) && tid in s.threads && !s.threads[tid].phase.Idle?
    ensures u in s.threads && !s.threads[u].phase.Idle? && CanMove(sys, u, s.sh, s.threads[u])
    decreases if Blocked(s.sh, s.threads[tid]) then sys.level(s.threads[tid].phase.key) + 1 else 0
  {
    if Blocked(s.sh, s.threads[tid]) {
      var v := WaitersBuilder(sys, s, tid);
      u := SomeoneCanMove(sys, s, v);
    } else {
      u := tid;
      assert ThreadInv(sys, s.sh, tid, s.threads[tid]);
      UnblockedCanMove(sys, tid, s.sh, s.threads[tid]);
    }
  }

  // While any call is in progress, some such call can take a step, without any new call, edit or cancellation.
  lemma NoDeadlock(sys: System, r: seq<State>, i: nat, tid: nat) returns (u: nat, s': State)
    requires Sane(sys) && Run(sys, r) && i < |r| && tid in r[i].threads && !r[i].threads[tid].phase.Idle?
    ensures ThreadStep(sys, r[i], s', u) && !r[i].threads[u].phase.Idle?
  {
    RunKeepsInv(sys, r, i);
    var s := r[i];
    u := SomeoneCanMove(sys, s, tid);
    var sh', th' :| Act(sys, u, s.sh, s.threads[u], sh', th');
    s' := State(sh', s.threads[u := th']);
  }
}
