// Each thread step keeps the invariant.
module CacheSteps {
  import opened Recency
  import opened Recorders
  import opened DesignCache
  import opened CacheProtocol
  import opened CacheSafety

  // What one thread's step owes: the shared invariant, its own, and what others rely on.
  ghost predicate Keeps(sys: System, tid: nat, sh: Shared, th: Thread, sh': Shared, th': Thread) {
    match th'
    case Thread(stack, _, _, _) =>
      && SharedInv(sys, sh') && Moves(sh, sh', tid)
      && ThreadInv(sys, sh', tid, th') && MineOnStack(sh', tid, stack)
  }

  ghost predicate OnStack(stack: seq<Frame>, id: EntryId) {
    exists i :: 0 <= i < |stack| && stack[i].id == id
  }

  ghost predicate MineOnStack(sh: Shared, tid: nat, stack: seq<Frame>) {
    forall id | id in sh.table.cells && !sh.table.cells[id].ready && sh.table.cells[id].builder == tid ::
      OnStack(stack, id)
  }

  ghost predicate Ready(sys: System, tid: nat, sh: Shared, th: Thread) {
    match th
    case Thread(stack, _, _, _) =>
      Sane(sys) && SharedInv(sys, sh) && ThreadInv(sys, sh, tid, th) && MineOnStack(sh, tid, stack)
  }

  /* ---- stacks ---- */

  lemma StackPopped(sys: System, sh: Shared, tid: nat, stack: seq<Frame>)
    requires StackInv(sys, sh, tid, stack) && stack != []
    ensures StackInv(sys, sh, tid, stack[..|stack| - 1])
    ensures Asked(sys, stack[..|stack| - 1], stack[|stack| - 1].key)
  {
    assert FrameInv(sys, sh, tid, stack[|stack| - 1]);
  }

  lemma LevelsPushed(sys: System, sh: Shared, tid: nat, stack: seq<Frame>, f: Frame)
    requires Sane(sys) && StackInv(sys, sh, tid, stack) && Asked(sys, stack, f.key)
    ensures forall i, j | 0 <= i < j < |stack + [f]| ::
              sys.level((stack + [f])[j].key) < sys.level((stack + [f])[i].key)
  {
    var more := stack + [f];
    forall i, j | 0 <= i < j < |more| ensures sys.level(more[j].key) < sys.level(more[i].key) {
      if j == |stack| {
        var top := stack[|stack| - 1];
        assert sys.ask(top.key, top.answers).Use?;
        assert i < |stack| - 1 ==> sys.level(top.key) < sys.level(stack[i].key);
      }
    }
  }

  lemma StackPushed(sys: System, sh: Shared, tid: nat, stack: seq<Frame>, f: Frame)
    requires Sane(sys) && StackInv(sys, sh, tid, stack) && FrameInv(sys, sh, tid, f) && Asked(sys, stack, f.key)
    requires stack != [] ==>
               && Before(stack[|stack| - 1].touched, sh.table.cells[f.id].born)
               && sh.table.cells[stack[|stack| - 1].id].born <= sh.table.cells[f.id].born
    ensures StackInv(sys, sh, tid, stack + [f])
  {
    var more := stack + [f];
    LevelsPushed(sys, sh, tid, stack, f);
    assert forall i | 0 <= i < |more| :: FrameInv(sys, sh, tid, more[i]);
    forall i | 0 < i < |more|
      ensures Calls(sys, more[i - 1], more[i].key) && Before(more[i - 1].touched, sh.table.cells[more[i].id].born)
      ensures sh.table.cells[more[i - 1].id].born <= sh.table.cells[more[i].id].born
    {
      assert more[i - 1] == stack[i - 1];
    }
  }

  lemma StackRetopped(sys: System, sh: Shared, tid: nat, stack: seq<Frame>, f: Frame)
    requires Sane(sys) && StackInv(sys, sh, tid, stack) && stack != [] && FrameInv(sys, sh, tid, f)
    requires f.key == stack[|stack| - 1].key && f.id == stack[|stack| - 1].id
    ensures StackInv(sys, sh, tid, stack[..|stack| - 1] + [f])
  {
    var below := stack[..|stack| - 1];
    StackPopped(sys, sh, tid, stack);
    if below != [] {
      assert below[|below| - 1] == stack[|stack| - 2];
    }
    StackPushed(sys, sh, tid, below, f);
  }

  lemma RetoppedOnStack(sh: Shared, tid: nat, stack: seq<Frame>, f: Frame)
    requires MineOnStack(sh, tid, stack) && stack != [] && f.id == stack[|stack| - 1].id
    ensures MineOnStack(sh, tid, stack[..|stack| - 1] + [f])
  {
    var more := stack[..|stack| - 1] + [f];
    forall id | id in sh.table.cells && !sh.table.cells[id].ready && sh.table.cells[id].builder == tid
      ensures OnStack(more, id)
    {
      assert OnStack(stack, id);
      var i :| 0 <= i < |stack| && stack[i].id == id;
      assert more[i].id == id;
    }
  }

  /* ---- steps that change neither the cache nor the stack ---- */

  lemma StartKeeps(sys: System, tid: nat, sh: Shared, th: Thread, sh': Shared, th': Thread, key: Key)
    requires Ready(sys, tid, sh, th)
    requires Start(sh, th, sh', th', key) || StartPeek(sh, th, sh', th', key)
    ensures Keeps(sys, tid, sh, th, sh', th')
  {
    PhaseOnly(sys, tid, sh, th, sh', th');
  }

  lemma SameCells(sys: System, tid: nat, sh: Shared, sh': Shared, stack: seq<Frame>)
    requires StackInv(sys, sh, tid, stack) && MineOnStack(sh, tid, stack)
    requires sh'.files == sh.files && sh'.table.cells == sh.table.cells
    ensures StackInv(sys, sh', tid, stack) && MineOnStack(sh', tid, stack)
  {
    forall i | 0 <= i < |stack| ensures FrameInv(sys, sh', tid, stack[i]) {
      assert FrameInv(sys, sh, tid, stack[i]);
    }
  }

  // A step that fills no cell and leaves the stack alone owes only the new phase's invariant.
  lemma PhaseOnly(sys: System, tid: nat, sh: Shared, th: Thread, sh': Shared, th': Thread)
    requires Ready(sys, tid, sh, th) && th'.stack == th.stack && PhaseInv(sys, sh', th')
    requires SharedInv(sys, sh') && Moves(sh, sh', tid) && sh'.table.cells == sh.table.cells
    ensures Keeps(sys, tid, sh, th, sh', th')
  {
    SameCells(sys, tid, sh, sh', th.stack);
  }

  // A build that has a result keeps it through the steps that record it.
  lemma EndingSettles(sys: System, sh: Shared, th: Thread, th': Thread)
    requires PhaseInv(sys, sh, th) && (th.phase.Ending? || th.phase.Printing? || th.phase.Printed?)
    requires th' == th.(phase := Settling(th.phase.res))
    ensures PhaseInv(sys, sh, th')
  {
    assert Top(th') == Top(th);
  }

  lemma SettlingCloses(sys: System, sh: Shared, th: Thread, t: Table, th': Thread)
    requires PhaseInv(sys, sh, th) && th.phase.Settling? && th' == th.(phase := Closing(th.phase.res))
    requires Unkeepable(th.phase.res, Top(th)) ==>
               Top(th).key !in t.entries || t.entries[Top(th).key] != Top(th).id
    ensures PhaseInv(sys, sh.(table := t), th')
  {
    assert Top(th') == Top(th);
    assert BuiltInv(sys, sh.(table := t), th', th.phase.res);
  }

  lemma LeavesEmpty(sys: System, sh: Shared, th: Thread, key: Key, e: Failure)
    requires Asked(sys, th.stack, key)
    ensures PhaseInv(sys, sh, th.(phase := Leaving(key, Err(e), Elsewhere)))
  {
  }

  // A check starts from the files as they are.
  lemma CheckStarts(sys: System, tid: nat, sh: Shared, th: Thread, key: Key, id: EntryId, peek: bool)
    requires Ready(sys, tid, sh, th) && Asked(sys, th.stack, key) && Seen(sh, key, id) && (peek ==> th.stack == [])
    requires sh.table.cells[id].ready && sh.table.cells[id].res.Ok? && sh.table.cells[id].touched != map[]
    ensures CheckingInv(sys, sh, th.(phase := Checking(key, id, sh.table.cells[id].touched.Keys, sh.files, peek)))
  {
    var cell := sh.table.cells[id];
    assert CellInv(sys, sh.files, sh.clock, cell);
    assert Stamped(sh.files, cell.touched, 0);
    assert Later(sh.files, sh.files, 0);
    if th.stack != [] {
      assert FrameInv(sys, sh, tid, Top(th));
      assert NotAfter(Top(th).touched, sh.files);
      assert Later(sh.files, sh.files, sh.table.cells[Top(th).id].born);
    }
  }

  lemma CheckStartKeeps(sys: System, tid: nat, sh: Shared, th: Thread, th': Thread, key: Key, id: EntryId, peek: bool)
    requires Ready(sys, tid, sh, th) && Asked(sys, th.stack, key) && Seen(sh, key, id) && (peek ==> th.stack == [])
    requires sh.table.cells[id].ready && sh.table.cells[id].res.Ok? && sh.table.cells[id].touched != map[]
    requires th' == th.(phase := Checking(key, id, sh.table.cells[id].touched.Keys, sh.files, peek))
    ensures Keeps(sys, tid, sh, th, sh, th')
  {
    CheckStarts(sys, tid, sh, th, key, id, peek);
    PhaseOnly(sys, tid, sh, th, sh, th');
  }

  lemma LeaveKeeps(sys: System, tid: nat, sh: Shared, th: Thread, th': Thread, key: Key, e: Failure)
    requires Ready(sys, tid, sh, th) && Asked(sys, th.stack, key)
    requires th' == th.(phase := Leaving(key, Err(e), Elsewhere))
    ensures Keeps(sys, tid, sh, th, sh, th')
  {
    LeavesEmpty(sys, sh, th, key, e);
    PhaseOnly(sys, tid, sh, th, sh, th');
  }

  lemma SeesItsEntry(sys: System, sh: Shared, th: Thread)
    requires PhaseInv(sys, sh, th) && (th.phase.Waiting? || th.phase.Peeked?)
    ensures Asked(sys, th.stack, th.phase.key) && Seen(sh, th.phase.key, th.phase.id)
    ensures th.phase.Peeked? ==> th.stack == []
  {
  }

  lemma WakeKeeps(sys: System, tid: nat, sh: Shared, th: Thread, sh': Shared, th': Thread)
    requires Ready(sys, tid, sh, th)
    requires Wake(sh, th, sh', th') || Glance(sh, th, sh', th')
    ensures Keeps(sys, tid, sh, th, sh', th')
  {
    SeesItsEntry(sys, sh, th);
    CheckStartKeeps(sys, tid, sh, th, th', th.phase.key, th.phase.id, th.phase.Peeked?);
  }

  lemma WakeToNothingKeeps(sys: System, tid: nat, sh: Shared, th: Thread, sh': Shared, th': Thread)
    requires Ready(sys, tid, sh, th) && WakeToNothing(sh, th, sh', th')
    ensures Keeps(sys, tid, sh, th, sh', th')
  {
    PhaseOnly(sys, tid, sh, th, sh', th');
  }

  lemma OverlookKeeps(sys: System, tid: nat, sh: Shared, th: Thread, sh': Shared, th': Thread)
    requires Ready(sys, tid, sh, th) && Overlook(sh, th, sh', th')
    ensures Keeps(sys, tid, sh, th, sh', th')
  {
    LeaveKeeps(sys, tid, sh, th, th', th.phase.key, NotKept);
  }

  lemma GiveUpKeeps(sys: System, tid: nat, sh: Shared, th: Thread, sh': Shared, th': Thread)
    requires Ready(sys, tid, sh, th) && GiveUp(sh, th, sh', th')
    ensures Keeps(sys, tid, sh, th, sh', th')
  {
    PhaseOnly(sys, tid, sh, th, sh', th');
  }

  lemma NameChecked(sys: System, sh: Shared, th: Thread, n: Name)
    requires CheckingInv(sys, sh, th) && n in th.phase.left
    requires At(sh.files, n) == sh.table.cells[th.phase.id].touched[n]
    ensures CheckingInv(sys, sh, th.(phase := th.phase.(left := th.phase.left - {n})))
  {
    var cell := sh.table.cells[th.phase.id];
    assert cell.touched[n] <= At(th.phase.since, n) <= At(sh.files, n);
  }

  lemma CheckNameKeeps(sys: System, tid: nat, sh: Shared, th: Thread, sh': Shared, th': Thread, n: Name)
    requires Ready(sys, tid, sh, th) && CheckName(sh, th, sh', th', n)
    ensures Keeps(sys, tid, sh, th, sh', th')
  {
    if At(sh.files, n) == sh.table.cells[th.phase.id].touched[n] {
      NameChecked(sys, sh, th, n);
    }
    PhaseOnly(sys, tid, sh, th, sh', th');
  }

  lemma NestAsks(sys: System, sh: Shared, th: Thread, sh': Shared, th': Thread, key: Key)
    requires Sane(sys) && Nest(sys, sh, th, sh', th', key)
    ensures PhaseInv(sys, sh', th')
  {
    assert sys.ask(Top(th).key, Top(th).answers).Use?;
  }

  lemma NestKeeps(sys: System, tid: nat, sh: Shared, th: Thread, sh': Shared, th': Thread, key: Key)
    requires Ready(sys, tid, sh, th) && Nest(sys, sh, th, sh', th', key)
    ensures Keeps(sys, tid, sh, th, sh', th')
  {
    NestAsks(sys, sh, th, sh', th', key);
    PhaseOnly(sys, tid, sh, th, sh', th');
  }

  lemma FinishedBuild(sys: System, tid: nat, sh: Shared, th: Thread, sh': Shared, th': Thread)
    requires Finish(sys, sh, th, sh', th') && FrameInv(sys, sh, tid, Top(th))
    ensures PhaseInv(sys, sh, th')
  {
    var f := Top(th);
    assert Top(th') == f;
    if th'.phase.res.Ok? && Intact(sh.files, f.touched) {
      SettlesAtDone(sys, f.key, f.answers, f.touched, th'.phase.res.v);
    }
  }

  lemma FinishKeeps(sys: System, tid: nat, sh: Shared, th: Thread, sh': Shared, th': Thread)
    requires Ready(sys, tid, sh, th) && Finish(sys, sh, th, sh', th')
    ensures Keeps(sys, tid, sh, th, sh', th')
  {
    assert FrameInv(sys, sh, tid, Top(th));
    FinishedBuild(sys, tid, sh, th, sh', th');
    PhaseOnly(sys, tid, sh, th, sh', th');
  }

  lemma AbortKeeps(sys: System, tid: nat, sh: Shared, th: Thread, sh': Shared, th': Thread, e: Failure)
    requires Ready(sys, tid, sh, th) && Abort(sh, th, sh', th', e)
    ensures Keeps(sys, tid, sh, th, sh', th')
  {
    PhaseOnly(sys, tid, sh, th, sh', th');
  }

  lemma MissKeeps(sys: System, tid: nat, sh: Shared, th: Thread, sh': Shared, th': Thread)
    requires Ready(sys, tid, sh, th) && Miss(sh, th, sh', th')
    ensures Keeps(sys, tid, sh, th, sh', th')
  {
    PhaseOnly(sys, tid, sh, th, sh', th');
  }

  /* ---- steps under the lock ---- */

  lemma BumpMovesNothing(sys: System, tid: nat, sh: Shared, key: Key)
    requires SharedInv(sys, sh) && key in sh.table.entries
    ensures SharedInv(sys, sh.(table := Bump(sh.table, key)))
    ensures Moves(sh, sh.(table := Bump(sh.table, key)), tid)
  {
    BumpHolds(sh.table, key);
  }

  lemma BumpKeeps(sys: System, tid: nat, sh: Shared, th: Thread, sh': Shared, th': Thread, key: Key)
    requires Ready(sys, tid, sh, th) && key in sh.table.entries && sh' == sh.(table := Bump(sh.table, key))
    requires th'.stack == th.stack && PhaseInv(sys, sh', th')
    ensures Keeps(sys, tid, sh, th, sh', th')
  {
    BumpMovesNothing(sys, tid, sh, key);
    PhaseOnly(sys, tid, sh, th, sh', th');
  }

  lemma JoinKeeps(sys: System, tid: nat, sh: Shared, th: Thread, sh': Shared, th': Thread)
    requires Ready(sys, tid, sh, th) && Join(sh, th, sh', th')
    ensures Keeps(sys, tid, sh, th, sh', th')
  {
    BumpKeeps(sys, tid, sh, th, sh', th', th.phase.key);
  }

  lemma PeekLookKeeps(sys: System, tid: nat, sh: Shared, th: Thread, sh': Shared, th': Thread)
    requires Ready(sys, tid, sh, th) && PeekLook(sh, th, sh', th')
    ensures Keeps(sys, tid, sh, th, sh', th')
  {
    if th.phase.key in sh.table.entries {
      BumpKeeps(sys, tid, sh, th, sh', th', th.phase.key);
    } else {
      LeaveKeeps(sys, tid, sh, th, th', th.phase.key, NotKept);
    }
  }

  lemma DropMovesNothing(sys: System, tid: nat, sh: Shared, key: Key, id: EntryId)
    requires SharedInv(sys, sh)
    ensures SharedInv(sys, sh.(table := Drop(sh.table, key, id)))
    ensures Moves(sh, sh.(table := Drop(sh.table, key, id)), tid)
  {
    DropHolds(sh.table, key, id);
  }

  lemma DropKeeps(sys: System, tid: nat, sh: Shared, th: Thread, sh': Shared, th': Thread, key: Key, id: EntryId)
    requires Ready(sys, tid, sh, th) && sh' == sh.(table := Drop(sh.table, key, id))
    requires th'.stack == th.stack && PhaseInv(sys, sh', th')
    ensures Keeps(sys, tid, sh, th, sh', th')
  {
    DropMovesNothing(sys, tid, sh, key, id);
    PhaseOnly(sys, tid, sh, th, sh', th');
  }

  lemma RetryKeeps(sys: System, tid: nat, sh: Shared, th: Thread, sh': Shared, th': Thread)
    requires Ready(sys, tid, sh, th) && Retry(sh, th, sh', th')
    ensures Keeps(sys, tid, sh, th, sh', th')
  {
    DropKeeps(sys, tid, sh, th, sh', th', th.phase.key, th.phase.id);
  }

  lemma TakeFailureKeeps(sys: System, tid: nat, sh: Shared, th: Thread, sh': Shared, th': Thread)
    requires Ready(sys, tid, sh, th) && TakeFailure(sh, th, sh', th')
    ensures Keeps(sys, tid, sh, th, sh', th')
  {
    LeavesEmpty(sys, sh', th, th.phase.key, sh.table.cells[th.phase.id].res.e);
    DropKeeps(sys, tid, sh, th, sh', th', th.phase.key, th.phase.id);
  }

  lemma UnmapKeeps(sys: System, tid: nat, sh: Shared, th: Thread, sh': Shared, th': Thread)
    requires Ready(sys, tid, sh, th) && Unmap(sh, th, sh', th')
    ensures Keeps(sys, tid, sh, th, sh', th')
  {
    SettlingCloses(sys, sh, th, sh'.table, th');
    DropKeeps(sys, tid, sh, th, sh', th', Top(th).key, Top(th).id);
  }

  lemma StayMappedKeeps(sys: System, tid: nat, sh: Shared, th: Thread, sh': Shared, th': Thread)
    requires Ready(sys, tid, sh, th) && StayMapped(sh, th, sh', th')
    ensures Keeps(sys, tid, sh, th, sh', th')
  {
    SettlingCloses(sys, sh, th, sh.table, th');
    PhaseOnly(sys, tid, sh, th, sh', th');
  }

  /* ---- steps that save or fill an entry ---- */

  // A finished fingerprint vouches for the value: every name stamped as noted when the fingerprint began, so the build is
  // from those contents, and every name was read as that stamp has it.
  lemma SavedRecord(sys: System, sh: Shared, th: Thread)
    requires th.phase.Printing? && th.phase.todo == {} && PhaseInv(sys, sh, th)
    ensures RecordInv(sys, Top(th).key, Record(th.phase.got, th.phase.res.v))
  {
    var p, touched := th.phase, Top(th).touched;
    assert Intact(p.since, touched);
    forall c: Name -> Content | sys.spared && Holds(c, p.got) ensures Eval(sys, Top(th).key, [], c) == Ok(p.res.v) {
      forall n | n in touched ensures c(n) == sys.content(n, touched[n]) {
        assert n in p.got;
      }
      assert Agrees(sys, c, touched);
    }
  }

  // The stamps were the noted ones when the fingerprint began, or they will not be found so.
  lemma PrintStarts(sys: System, tid: nat, sh: Shared, th: Thread)
    requires th.phase.Ending? && th.stack != [] && th.phase.res.Ok? && sys.kept(Top(th).key)
    requires FrameInv(sys, sh, tid, Top(th)) && BuiltInv(sys, sh, th, th.phase.res) && Top(th).touched != map[]
    ensures PrintingInv(sys, sh, th, th.phase.res, Top(th).touched.Keys, map[], sh.files)
  {
  }

  lemma PrintingIgnoresPhase(sys: System, sh: Shared, th: Thread, th': Thread, res: Outcome, left: set<Name>,
                             got: map<Name, Content>, since: Files)
    requires PrintingInv(sys, sh, th, res, left, got, since) && th'.stack == th.stack
    ensures PrintingInv(sys, sh, th', res, left, got, since)
  {
    assert Top(th') == Top(th);
  }

  lemma PrintPhase(sys: System, tid: nat, sh: Shared, th: Thread, th': Thread)
    requires th.stack != [] && FrameInv(sys, sh, tid, Top(th)) && PhaseInv(sys, sh, th)
    requires th.phase.Ending? && th.phase.res.Ok? && sys.kept(Top(th).key) && Top(th).touched != map[]
    requires th' == th.(phase := Printing(th.phase.res, Top(th).touched.Keys, map[], sh.files))
    ensures PhaseInv(sys, sh, th')
  {
    PrintStarts(sys, tid, sh, th);
    PrintingIgnoresPhase(sys, sh, th, th', th.phase.res, Top(th).touched.Keys, map[], sh.files);
  }

  lemma PrintKeeps(sys: System, tid: nat, sh: Shared, th: Thread, sh': Shared, th': Thread)
    requires Ready(sys, tid, sh, th) && Print(sys, sh, th, sh', th')
    ensures Keeps(sys, tid, sh, th, sh', th')
  {
    TopHolds(sys, tid, sh, th);
    PrintPhase(sys, tid, sh, th, th');
    PhaseOnly(sys, tid, sh, th, sh', th');
  }

  lemma PrintStampHolds(sys: System, sh: Shared, th: Thread, sh': Shared, th': Thread, n: Name)
    requires PhaseInv(sys, sh, th) && PrintStamp(sh, th, sh', th', n)
    ensures PhaseInv(sys, sh, th')
  {
    var p := th.phase;
    PrintingIgnoresPhase(sys, sh, th, th', p.res, p.todo, p.got, p.since);
    assert Top(th') == Top(th) && Top(th).touched[n] <= At(p.since, n) <= At(sh.files, n);
  }

  lemma PrintStampKeeps(sys: System, tid: nat, sh: Shared, th: Thread, sh': Shared, th': Thread, n: Name)
    requires Ready(sys, tid, sh, th) && PrintStamp(sh, th, sh', th', n)
    ensures Keeps(sys, tid, sh, th, sh', th')
  {
    PrintStampHolds(sys, sh, th, sh', th', n);
    PhaseOnly(sys, tid, sh, th, sh', th');
  }

  lemma PrintContentHolds(sys: System, sh: Shared, th: Thread, sh': Shared, th': Thread)
    requires PhaseInv(sys, sh, th) && PrintContent(sys, sh, th, sh', th')
    ensures PhaseInv(sys, sh, th')
  {
    var p := th.phase;
    assert Top(th') == Top(th);
    var got := p.got[p.n := sys.content(p.n, At(sh.files, p.n))];
    assert got.Keys == Top(th).touched.Keys - (p.todo - {p.n});
  }

  lemma PrintContentKeeps(sys: System, tid: nat, sh: Shared, th: Thread, sh': Shared, th': Thread)
    requires Ready(sys, tid, sh, th) && PrintContent(sys, sh, th, sh', th')
    ensures Keeps(sys, tid, sh, th, sh', th')
  {
    PrintContentHolds(sys, sh, th, sh', th');
    PhaseOnly(sys, tid, sh, th, sh', th');
  }

  lemma SkipSaveKeeps(sys: System, tid: nat, sh: Shared, th: Thread, sh': Shared, th': Thread)
    requires Ready(sys, tid, sh, th) && SkipSave(sh, th, sh', th')
    ensures Keeps(sys, tid, sh, th, sh', th')
  {
    EndingSettles(sys, sh, th, th');
    PhaseOnly(sys, tid, sh, th, sh', th');
  }

  lemma StoreGrows(sys: System, tid: nat, sh: Shared, k: Key, r: Record)
    requires SharedInv(sys, sh) && RecordInv(sys, k, r)
    ensures SharedInv(sys, sh.(store := sh.store[k := r])) && Moves(sh, sh.(store := sh.store[k := r]), tid)
  {
  }

  lemma SaveKeeps(sys: System, tid: nat, sh: Shared, th: Thread, sh': Shared, th': Thread)
    requires Ready(sys, tid, sh, th) && Save(sh, th, sh', th')
    ensures Keeps(sys, tid, sh, th, sh', th')
  {
    EndingSettles(sys, sh, th, th');
    SavedRecord(sys, sh, th);
    StoreGrows(sys, tid, sh, Top(th).key, Record(th.phase.got, th.phase.res.v));
    PhaseOnly(sys, tid, sh, th, sh', th');
  }

  /* ---- steps that move the build on top ---- */

  // A step that changes the build on top owes its invariant and the new phase's.
  lemma TopOnly(sys: System, tid: nat, sh: Shared, th: Thread, th': Thread, f: Frame)
    requires Ready(sys, tid, sh, th) && th.stack != [] && th'.stack == Below(th) + [f]
    requires f.key == Top(th).key && f.id == Top(th).id
    requires FrameInv(sys, sh, tid, f) && PhaseInv(sys, sh, th')
    ensures Keeps(sys, tid, sh, th, sh, th')
  {
    StackRetopped(sys, sh, tid, th.stack, f);
    RetoppedOnStack(sh, tid, th.stack, f);
  }

  lemma RestoredRecord(sys: System, k: Key, r: Record, t: Touched)
    requires RecordInv(sys, k, r) && t.Keys == r.seen.Keys
    requires sys.spared ==> forall n | n in t :: sys.content(n, t[n]) == r.seen[n]
    ensures Settles(sys, k, r.v, t)
  {
    forall c: Name -> Content | sys.spared && Agrees(sys, c, t) ensures Eval(sys, k, [], c) == Ok(r.v) {
      forall n | n in r.seen ensures c(n) == r.seen[n] { assert n in t; }
      assert Holds(c, r.seen);
    }
  }

  lemma FetchHolds(sys: System, tid: nat, sh: Shared, th: Thread, sh': Shared, th': Thread)
    requires PhaseInv(sys, sh, th) && Fetch(sys, sh, th, sh', th') && FrameInv(sys, sh, tid, Top(th))
    requires RecordInv(sys, Top(th).key, sh.store[Top(th).key])
    ensures PhaseInv(sys, sh, th')
  {
    assert Top(th') == Top(th);
  }

  lemma FetchKeeps(sys: System, tid: nat, sh: Shared, th: Thread, sh': Shared, th': Thread)
    requires Ready(sys, tid, sh, th) && Fetch(sys, sh, th, sh', th')
    ensures Keeps(sys, tid, sh, th, sh', th')
  {
    TopHolds(sys, tid, sh, th);
    assert RecordInv(sys, Top(th).key, sh.store[Top(th).key]);
    FetchHolds(sys, tid, sh, th, sh', th');
    PhaseOnly(sys, tid, sh, th, sh', th');
  }

  lemma MatchContentHolds(sys: System, sh: Shared, th: Thread, sh': Shared, th': Thread, n: Name)
    requires PhaseInv(sys, sh, th) && MatchContent(sys, sh, th, sh', th', n)
    ensures PhaseInv(sys, sh, th')
  {
    assert Top(th') == Top(th);
  }

  lemma MatchContentKeeps(sys: System, tid: nat, sh: Shared, th: Thread, sh': Shared, th': Thread, n: Name)
    requires Ready(sys, tid, sh, th) && MatchContent(sys, sh, th, sh', th', n)
    ensures Keeps(sys, tid, sh, th, sh', th')
  {
    MatchContentHolds(sys, sh, th, sh', th', n);
    PhaseOnly(sys, tid, sh, th, sh', th');
  }

  lemma MatchStampHolds(sys: System, sh: Shared, th: Thread, sh': Shared, th': Thread)
    requires PhaseInv(sys, sh, th) && MatchStamp(sh, th, sh', th')
    ensures PhaseInv(sys, sh, th')
  {
    var p := th.phase;
    assert Top(th') == Top(th);
    assert p.t[p.n := At(sh.files, p.n)].Keys == p.rec.seen.Keys - (p.todo - {p.n});
  }

  lemma MatchStampKeeps(sys: System, tid: nat, sh: Shared, th: Thread, sh': Shared, th': Thread)
    requires Ready(sys, tid, sh, th) && MatchStamp(sh, th, sh', th')
    ensures Keeps(sys, tid, sh, th, sh', th')
  {
    MatchStampHolds(sys, sh, th, sh', th');
    PhaseOnly(sys, tid, sh, th, sh', th');
  }

  lemma RestoredFrame(sys: System, tid: nat, sh: Shared, th: Thread)
    requires PhaseInv(sys, sh, th) && th.phase.Matching? && th.phase.todo == {} && FrameInv(sys, sh, tid, Top(th))
    ensures FrameInv(sys, sh, tid, Top(th).(touched := th.phase.t))
    ensures Settles(sys, Top(th).key, th.phase.rec.v, th.phase.t)
  {
    var p := th.phase;
    RestoredRecord(sys, Top(th).key, p.rec, p.t);
    SoundWhenCovered(sys, Top(th).key, [], p.t, map[]);
  }

  lemma RestoredSettles(sys: System, sh: Shared, th: Thread, th': Thread)
    requires PhaseInv(sys, sh, th) && Restore(sh, th, sh, th')
    requires Settles(sys, Top(th).key, th.phase.rec.v, th.phase.t)
    ensures PhaseInv(sys, sh, th')
  {
    assert Top(th') == Top(th).(touched := th.phase.t);
  }

  lemma RestoreKeeps(sys: System, tid: nat, sh: Shared, th: Thread, sh': Shared, th': Thread)
    requires Ready(sys, tid, sh, th) && Restore(sh, th, sh', th')
    ensures Keeps(sys, tid, sh, th, sh', th')
  {
    TopHolds(sys, tid, sh, th);
    RestoredFrame(sys, tid, sh, th);
    RestoredSettles(sys, sh, th, th');
    TopOnly(sys, tid, sh, th, th', Top(th).(touched := th.phase.t));
  }

  lemma NoteKeepsStamps(files: Files, t: Touched, n: Name, born: nat)
    requires Stamped(files, t, born)
    ensures Stamped(files, Note(t, files, n), born) && Covers(Note(t, files, n), t) && n in Note(t, files, n)
    ensures Intact(files, Note(t, files, n)) ==> Intact(files, t)
  {
    assert forall m | m in t :: Note(t, files, n)[m] == t[m];
  }

  lemma NotedKeeps(sys: System, tid: nat, sh: Shared, th: Thread, sh': Shared, th': Thread, n: Name)
    requires Ready(sys, tid, sh, th) && Noted(sys, sh, th, sh', th', n)
    ensures Keeps(sys, tid, sh, th, sh', th')
  {
    var f := Top(th);
    var f' := f.(touched := Note(f.touched, sh.files, n));
    assert Top(th') == f' && FrameInv(sys, sh, tid, f);
    NoteKeepsStamps(sh.files, f.touched, n, sh.table.cells[f.id].born);
    if Intact(sh.files, f'.touched) {
      SoundWhenCovered(sys, f.key, f.answers, f'.touched, f.touched);
    }
    TopOnly(sys, tid, sh, th, th', f');
  }

  lemma ReadingKnows(sys: System, sh: Shared, th: Thread)
    requires PhaseInv(sys, sh, th) && th.phase.Reading?
    ensures th.stack != [] && |Top(th).answers| < sys.limit(Top(th).key) && th.phase.n in Top(th).touched
    ensures sys.ask(Top(th).key, Top(th).answers) == Open(th.phase.n)
  {
  }

  lemma LeavingKnows(sys: System, sh: Shared, th: Thread)
    requires PhaseInv(sys, sh, th) && th.phase.Leaving? && th.stack != [] && th.phase.res.Ok?
    ensures Intact(sh.files, Top(th).touched) ==>
              Sound(sys, Top(th).key, Top(th).answers + [th.phase.res.v], Top(th).touched)
  {
  }

  lemma TopHolds(sys: System, tid: nat, sh: Shared, th: Thread)
    requires Ready(sys, tid, sh, th) && th.stack != []
    ensures FrameInv(sys, sh, tid, Top(th))
  {
  }

  // The build on top had an answer to its question.
  lemma AnsweredKeeps(sys: System, tid: nat, sh: Shared, th: Thread, sh': Shared, th': Thread, v: string)
    requires Ready(sys, tid, sh, th) && th.stack != [] && sh' == sh
    requires FrameInv(sys, sh, tid, Top(th).(answers := Top(th).answers + [v]))
    requires th' == WithTop(th, Top(th).(answers := Top(th).answers + [v])).(phase := Running)
    ensures Keeps(sys, tid, sh, th, sh', th')
  {
    TopOnly(sys, tid, sh, th, th', Top(th).(answers := Top(th).answers + [v]));
  }

  lemma ReadFrame(sys: System, tid: nat, sh: Shared, f: Frame, n: Name)
    requires FrameInv(sys, sh, tid, f) && n in f.touched
    requires |f.answers| < sys.limit(f.key) && sys.ask(f.key, f.answers) == Open(n)
    ensures FrameInv(sys, sh, tid, f.(answers := f.answers + [sys.content(n, At(sh.files, n))]))
  {
    if Intact(sh.files, f.touched) {
      SoundAfterOpen(sys, f.key, f.answers, f.touched, n);
    }
  }

  lemma ReadKeeps(sys: System, tid: nat, sh: Shared, th: Thread, sh': Shared, th': Thread)
    requires Ready(sys, tid, sh, th) && Read(sys, sh, th, sh', th')
    ensures Keeps(sys, tid, sh, th, sh', th')
  {
    ReadingKnows(sys, sh, th);
    TopHolds(sys, tid, sh, th);
    ReadFrame(sys, tid, sh, Top(th), th.phase.n);
    AnsweredKeeps(sys, tid, sh, th, sh', th', sys.content(th.phase.n, At(sh.files, th.phase.n)));
  }

  lemma AnsweredFrame(sys: System, tid: nat, sh: Shared, f: Frame, v: Value)
    requires FrameInv(sys, sh, tid, f)
    requires Intact(sh.files, f.touched) ==> Sound(sys, f.key, f.answers + [v], f.touched)
    ensures FrameInv(sys, sh, tid, f.(answers := f.answers + [v]))
  {
  }

  lemma AnswerKeeps(sys: System, tid: nat, sh: Shared, th: Thread, sh': Shared, th': Thread)
    requires Ready(sys, tid, sh, th) && Answer(sh, th, sh', th')
    ensures Keeps(sys, tid, sh, th, sh', th')
  {
    LeavingKnows(sys, sh, th);
    TopHolds(sys, tid, sh, th);
    AnsweredFrame(sys, tid, sh, Top(th), th.phase.res.v);
    AnsweredKeeps(sys, tid, sh, th, sh', th', th.phase.res.v);
  }

  lemma PropagateKeeps(sys: System, tid: nat, sh: Shared, th: Thread, sh': Shared, th': Thread)
    requires Ready(sys, tid, sh, th)
    requires Propagate(sh, th, sh', th') || Return(sh, th, sh', th')
    ensures Keeps(sys, tid, sh, th, sh', th')
  {
    PhaseOnly(sys, tid, sh, th, sh', th');
  }

  /* ---- serving a value from memory ---- */

  lemma MergedStamped(files: Files, since: Files, t: Touched, t': Touched, born: nat)
    requires Stamped(files, t, born) && Intact(since, t') && Later(since, files, born)
    ensures Stamped(files, Merge(t, t'), born)
  {
    forall n | n in Merge(t, t') ensures var s := Merge(t, t')[n];
      s <= At(files, n) && (At(files, n) == s || At(files, n) > born)
    {
      if n !in t { assert At(since, n) == t'[n]; }
    }
  }

  // The build beneath takes in everything the value served depended on.
  lemma ServedFrame(sys: System, sh: Shared, tid: nat, f: Frame, since: Files, key: Key, v: Value, t: Touched)
    requires Sane(sys) && FrameInv(sys, sh, tid, f) && Calls(sys, f, key)
    requires NotAfter(f.touched, since) && Intact(since, t) && Settles(sys, key, v, t)
    requires Later(since, sh.files, sh.table.cells[f.id].born)
    ensures FrameInv(sys, sh, tid, f.(touched := Merge(f.touched, t)))
    ensures Intact(sh.files, Merge(f.touched, t)) ==> Sound(sys, f.key, f.answers + [v], Merge(f.touched, t))
  {
    var big, born := Merge(f.touched, t), sh.table.cells[f.id].born;
    MergedStamped(sh.files, since, f.touched, t, born);
    if Intact(sh.files, big) {
      CheckedMergeCovers(sh.files, since, f.touched, t, born);
      SoundWhenCovered(sys, f.key, f.answers, big, f.touched);
      SoundAfterUse(sys, f.key, f.answers, f.touched, key, v, t, big);
    }
  }

  lemma ServedLeaves(sys: System, sh: Shared, th: Thread, th': Thread, since: Files, v: Value)
    requires th'.phase.Leaving? && th'.phase.res == Ok(v) && th'.phase.from == Memory(since)
    requires Asked(sys, th'.stack, th'.phase.key) && (sys.spared ==> Fresh(sys, th'.phase.key, since) == Ok(v))
    requires th'.stack != [] && Intact(sh.files, Top(th').touched) ==>
               Sound(sys, Top(th').key, Top(th').answers + [v], Top(th').touched)
    ensures PhaseInv(sys, sh, th')
  {
  }

  lemma ServedToClient(sys: System, tid: nat, sh: Shared, th: Thread, th': Thread)
    requires Ready(sys, tid, sh, th) && Serve(sh, th, sh, th') && th.stack == []
    requires sys.spared ==> Fresh(sys, th.phase.key, th.phase.since) == sh.table.cells[th.phase.id].res
    ensures Keeps(sys, tid, sh, th, sh, th')
  {
    ServedLeaves(sys, sh, th, th', th.phase.since, sh.table.cells[th.phase.id].res.v);
    PhaseOnly(sys, tid, sh, th, sh, th');
  }

  lemma ServedToBuild(sys: System, tid: nat, sh: Shared, th: Thread, th': Thread)
    requires Ready(sys, tid, sh, th) && Serve(sh, th, sh, th') && th.stack != []
    requires sys.spared ==> Fresh(sys, th.phase.key, th.phase.since) == sh.table.cells[th.phase.id].res
    requires Intact(th.phase.since, sh.table.cells[th.phase.id].touched)
    ensures Keeps(sys, tid, sh, th, sh, th')
  {
    var p, cell, f := th.phase, sh.table.cells[th.phase.id], Top(th);
    ServedFrame(sys, sh, tid, f, p.since, p.key, cell.res.v, cell.touched);
    var f' := f.(touched := Merge(f.touched, cell.touched));
    assert th'.stack == Below(th) + [f'] && Top(th') == f';
    ServedLeaves(sys, sh, th, th', p.since, cell.res.v);
    TopOnly(sys, tid, sh, th, th', f');
  }

  lemma ServeKeeps(sys: System, tid: nat, sh: Shared, th: Thread, sh': Shared, th': Thread)
    requires Ready(sys, tid, sh, th) && Serve(sh, th, sh', th')
    ensures Keeps(sys, tid, sh, th, sh', th')
  {
    var p, cell := th.phase, sh.table.cells[th.phase.id];
    SettledIsFresh(sys, p.key, cell.res.v, p.since, cell.touched);
    if th.stack == [] {
      ServedToClient(sys, tid, sh, th, th');
    } else {
      ServedToBuild(sys, tid, sh, th, th');
    }
  }

  /* ---- a miss ---- */

  lemma InsertTable(sys: System, tid: nat, t: Table, key: Key, clock: nat)
    requires Sane(sys) && TableInv(sys, t) && key !in t.entries && key != ""
    ensures var t' := Insert(t, key, tid, clock, sys.max);
            && TableInv(sys, t') && TableMoves(t, t', tid) && t.next !in t.cells
            && t'.cells == t.cells[t.next := Cell(key, tid, clock, false, Err(NotKept), map[])]
  {
    InsertHolds(t, key, tid, clock, sys.max);
  }

  lemma NewCellShared(sys: System, tid: nat, sh: Shared, t: Table, key: Key)
    requires SharedInv(sys, sh) && TableInv(sys, t) && TableMoves(sh.table, t, tid) && sh.table.next !in sh.table.cells
    requires t.cells == sh.table.cells[sh.table.next := Cell(key, tid, sh.clock, false, Err(NotKept), map[])]
    ensures SharedInv(sys, sh.(table := t)) && Moves(sh, sh.(table := t), tid)
  {
    forall id | id in t.cells ensures CellInv(sys, sh.files, sh.clock, t.cells[id]) {
      if id != sh.table.next {
        assert CellInv(sys, sh.files, sh.clock, sh.table.cells[id]);
      }
    }
  }

  lemma InsertShared(sys: System, tid: nat, sh: Shared, key: Key)
    requires Sane(sys) && SharedInv(sys, sh) && key !in sh.table.entries && key != ""
    ensures var sh' := sh.(table := Insert(sh.table, key, tid, sh.clock, sys.max));
            SharedInv(sys, sh') && Moves(sh, sh', tid)
  {
    InsertTable(sys, tid, sh.table, key, sh.clock);
    NewCellShared(sys, tid, sh, Insert(sh.table, key, tid, sh.clock, sys.max), key);
  }

  lemma InsertedFrame(sys: System, tid: nat, sh: Shared, key: Key)
    requires Held(sh.table) && key != ""
    ensures var sh' := sh.(table := Insert(sh.table, key, tid, sh.clock, sys.max));
            FrameInv(sys, sh', tid, Frame(key, sh.table.next, [], map[]))
  {
  }

  lemma InsertKeepsFrame(sys: System, tid: nat, sh: Shared, key: Key, f: Frame)
    requires Held(sh.table) && FrameInv(sys, sh, tid, f)
    ensures var sh' := sh.(table := Insert(sh.table, key, tid, sh.clock, sys.max));
            FrameInv(sys, sh', tid, f) && sh'.table.cells[f.id] == sh.table.cells[f.id]
  {
  }

  lemma InsertKeepsStack(sys: System, tid: nat, sh: Shared, key: Key, stack: seq<Frame>)
    requires Held(sh.table) && StackInv(sys, sh, tid, stack)
    ensures StackInv(sys, sh.(table := Insert(sh.table, key, tid, sh.clock, sys.max)), tid, stack)
  {
    var sh' := sh.(table := Insert(sh.table, key, tid, sh.clock, sys.max));
    forall i | 0 <= i < |stack|
      ensures FrameInv(sys, sh', tid, stack[i]) && sh'.table.cells[stack[i].id] == sh.table.cells[stack[i].id]
    {
      InsertKeepsFrame(sys, tid, sh, key, stack[i]);
    }
  }

  lemma InsertPushes(sys: System, tid: nat, sh: Shared, key: Key, stack: seq<Frame>)
    requires Sane(sys) && SharedInv(sys, sh) && StackInv(sys, sh, tid, stack) && Asked(sys, stack, key)
    ensures StackInv(sys, sh.(table := Insert(sh.table, key, tid, sh.clock, sys.max)), tid,
                     stack + [Frame(key, sh.table.next, [], map[])])
  {
    var sh' := sh.(table := Insert(sh.table, key, tid, sh.clock, sys.max));
    InsertKeepsStack(sys, tid, sh, key, stack);
    InsertedFrame(sys, tid, sh, key);
    if stack != [] {
      var top := stack[|stack| - 1];
      InsertKeepsFrame(sys, tid, sh, key, top);
      assert CellInv(sys, sh.files, sh.clock, sh.table.cells[top.id]);
      assert forall n | n in top.touched :: top.touched[n] <= At(sh.files, n) <= sh.clock;
    }
    StackPushed(sys, sh', tid, stack, Frame(key, sh.table.next, [], map[]));
  }

  lemma InsertOnStack(sys: System, tid: nat, sh: Shared, key: Key, stack: seq<Frame>)
    requires MineOnStack(sh, tid, stack)
    ensures MineOnStack(sh.(table := Insert(sh.table, key, tid, sh.clock, sys.max)), tid,
                        stack + [Frame(key, sh.table.next, [], map[])])
  {
    var sh' := sh.(table := Insert(sh.table, key, tid, sh.clock, sys.max));
    var more := stack + [Frame(key, sh.table.next, [], map[])];
    forall id | id in sh'.table.cells && !sh'.table.cells[id].ready && sh'.table.cells[id].builder == tid
      ensures OnStack(more, id)
    {
      if id == sh.table.next {
        assert more[|stack|].id == id;
      } else {
        assert OnStack(stack, id);
        var i :| 0 <= i < |stack| && stack[i].id == id;
        assert more[i].id == id;
      }
    }
  }

  lemma BeginKeeps(sys: System, tid: nat, sh: Shared, th: Thread, sh': Shared, th': Thread)
    requires Ready(sys, tid, sh, th) && Begin(sys, tid, sh, th, sh', th')
    ensures Keeps(sys, tid, sh, th, sh', th')
  {
    InsertShared(sys, tid, sh, th.phase.key);
    InsertPushes(sys, tid, sh, th.phase.key, th.stack);
    InsertOnStack(sys, tid, sh, th.phase.key, th.stack);
    assert PhaseInv(sys, sh', th');
  }

  /* ---- closing an entry ---- */

  // What the finished build settles, if its files still stand.
  ghost predicate Proves(sys: System, sh: Shared, f: Frame, res: Outcome) {
    res.Ok? && Intact(sh.files, f.touched) ==> Settles(sys, f.key, res.v, f.touched)
  }

  lemma ClosedCell(sys: System, tid: nat, sh: Shared, f: Frame, res: Outcome)
    requires SharedInv(sys, sh) && FrameInv(sys, sh, tid, f) && Proves(sys, sh, f, res)
    ensures CellInv(sys, sh.files, sh.clock,
                    sh.table.cells[f.id].(ready := true, res := res, touched := f.touched))
  {
    assert CellInv(sys, sh.files, sh.clock, sh.table.cells[f.id]);
  }

  lemma ClosedShared(sys: System, tid: nat, sh: Shared, f: Frame, res: Outcome, spoiled: nat)
    requires SharedInv(sys, sh) && FrameInv(sys, sh, tid, f) && sh.spoiled <= spoiled
    requires Proves(sys, sh, f, res)
    requires Unkeepable(res, f) ==> f.key !in sh.table.entries || sh.table.entries[f.key] != f.id
    ensures var sh' := sh.(table := Shut(sh.table, f.id, res, f.touched), spoiled := spoiled);
            SharedInv(sys, sh') && Moves(sh, sh', tid)
  {
    ClosedCell(sys, tid, sh, f, res);
    ShutHolds(sh.table, f.id, res, f.touched);
    var t' := Shut(sh.table, f.id, res, f.touched);
    forall k | k in t'.entries ensures Usable(t'.cells[t'.entries[k]]) {
      if t'.entries[k] == f.id {
        assert sh.table.cells[f.id].key == k;
      }
    }
  }

  lemma OthersDiffer(sys: System, tid: nat, sh: Shared, stack: seq<Frame>, i: nat, j: nat)
    requires StackInv(sys, sh, tid, stack) && i < j < |stack|
    ensures stack[i].id != stack[j].id
  {
    assert FrameInv(sys, sh, tid, stack[i]) && FrameInv(sys, sh, tid, stack[j]);
  }

  lemma ClosedBelow(sys: System, tid: nat, sh: Shared, stack: seq<Frame>, res: Outcome, spoiled: nat)
    requires StackInv(sys, sh, tid, stack) && stack != []
    ensures var f := stack[|stack| - 1];
            && f.id in sh.table.cells
            && var sh' := sh.(table := Shut(sh.table, f.id, res, f.touched), spoiled := spoiled);
            StackInv(sys, sh', tid, stack[..|stack| - 1])
  {
    var f, below := stack[|stack| - 1], stack[..|stack| - 1];
    assert FrameInv(sys, sh, tid, f);
    var sh' := sh.(table := Shut(sh.table, f.id, res, f.touched), spoiled := spoiled);
    forall i | 0 <= i < |below|
      ensures FrameInv(sys, sh', tid, below[i]) && sh'.table.cells[below[i].id] == sh.table.cells[below[i].id]
    {
      assert FrameInv(sys, sh, tid, stack[i]);
      OthersDiffer(sys, tid, sh, stack, i, |stack| - 1);
    }
  }

  lemma ClosedOnStack(sh: Shared, tid: nat, stack: seq<Frame>, res: Outcome, spoiled: nat)
    requires MineOnStack(sh, tid, stack) && stack != [] && stack[|stack| - 1].id in sh.table.cells
    ensures var f := stack[|stack| - 1];
            MineOnStack(sh.(table := Shut(sh.table, f.id, res, f.touched), spoiled := spoiled), tid,
                        stack[..|stack| - 1])
  {
    var f, below := stack[|stack| - 1], stack[..|stack| - 1];
    var sh' := sh.(table := Shut(sh.table, f.id, res, f.touched), spoiled := spoiled);
    forall id | id in sh'.table.cells && !sh'.table.cells[id].ready && sh'.table.cells[id].builder == tid
      ensures OnStack(below, id)
    {
      assert id != f.id && OnStack(stack, id);
      var i :| 0 <= i < |stack| && stack[i].id == id;
      assert below[i].id == id;
    }
  }

  lemma BuiltStamped(files: Files, t: Touched, t': Touched, born: nat, born': nat)
    requires Stamped(files, t, born) && Stamped(files, t', born') && born <= born'
    ensures Stamped(files, Merge(t, t'), born)
  {
    forall n | n in Merge(t, t') ensures var s := Merge(t, t')[n];
      s <= At(files, n) && (At(files, n) == s || At(files, n) > born)
    {
      if n !in t { assert Merge(t, t')[n] == t'[n]; }
    }
  }

  // The build beneath takes in everything the build above it depended on, whatever became of that build.
  lemma BuiltFrame(sys: System, sh: Shared, tid: nat, g: Frame, key: Key, res: Outcome, t: Touched, born: nat)
    requires Sane(sys) && FrameInv(sys, sh, tid, g) && Calls(sys, g, key)
    requires Before(g.touched, born) && Stamped(sh.files, t, born) && sh.table.cells[g.id].born <= born
    requires res.Ok? && Intact(sh.files, t) ==> Settles(sys, key, res.v, t)
    ensures FrameInv(sys, sh, tid, g.(touched := Merge(g.touched, t)))
    ensures res.Ok? && Intact(sh.files, Merge(g.touched, t)) ==>
              Sound(sys, g.key, g.answers + [res.v], Merge(g.touched, t))
  {
    var big := Merge(g.touched, t);
    BuiltStamped(sh.files, g.touched, t, sh.table.cells[g.id].born, born);
    if Intact(sh.files, big) {
      MergeCovers(sh.files, g.touched, t, born);
      SoundWhenCovered(sys, g.key, g.answers, big, g.touched);
      if res.Ok? {
        SoundAfterUse(sys, g.key, g.answers, g.touched, key, res.v, t, big);
      }
    }
  }

  lemma ClosedLeaves(sys: System, sh: Shared, th': Thread, key: Key, res: Outcome)
    requires th'.phase == Leaving(key, res, Elsewhere) && Asked(sys, th'.stack, key)
    requires th'.stack != [] && res.Ok? && Intact(sh.files, Top(th').touched) ==>
               Sound(sys, Top(th').key, Top(th').answers + [res.v], Top(th').touched)
    ensures PhaseInv(sys, sh, th')
  {
  }

  // What the finished build hands to the build beneath it.
  ghost predicate Handover(sys: System, sh: Shared, below: seq<Frame>, f: Frame, res: Outcome, born: nat) {
    && Stamped(sh.files, f.touched, born)
    && (res.Ok? && Intact(sh.files, f.touched) ==> Settles(sys, f.key, res.v, f.touched))
    && (below != [] ==>
          && below[|below| - 1].id in sh.table.cells
          && Before(below[|below| - 1].touched, born)
          && sh.table.cells[below[|below| - 1].id].born <= born)
  }

  lemma CloseMerges(sys: System, tid: nat, sh: Shared, below: seq<Frame>, th': Thread, f: Frame, res: Outcome, born: nat)
    requires Sane(sys) && StackInv(sys, sh, tid, below) && MineOnStack(sh, tid, below) && Asked(sys, below, f.key)
    requires Handover(sys, sh, below, f, res, born)
    requires th'.stack == Merged(below, f.touched) && th'.phase == Leaving(f.key, res, Elsewhere)
    ensures ThreadInv(sys, sh, tid, th') && MineOnStack(sh, tid, th'.stack)
  {
    if below != [] {
      var g := below[|below| - 1];
      var g' := g.(touched := Merge(g.touched, f.touched));
      BuiltFrame(sys, sh, tid, g, f.key, res, f.touched, born);
      StackRetopped(sys, sh, tid, below, g');
      RetoppedOnStack(sh, tid, below, g');
      assert Top(th') == g';
    }
    ClosedLeaves(sys, sh, th', f.key, res);
  }

  lemma ClosingProves(sys: System, tid: nat, sh: Shared, th: Thread)
    requires StackInv(sys, sh, tid, th.stack) && PhaseInv(sys, sh, th) && th.phase.Closing?
    ensures th.stack != [] && FrameInv(sys, sh, tid, Top(th)) && Proves(sys, sh, Top(th), th.phase.res)
    ensures Unkeepable(th.phase.res, Top(th)) ==>
              Top(th).key !in sh.table.entries || sh.table.entries[Top(th).key] != Top(th).id
  {
  }

  lemma CloseShared(sys: System, tid: nat, sh: Shared, th: Thread, sh': Shared, th': Thread)
    requires Ready(sys, tid, sh, th) && Close(sh, th, sh', th')
    ensures SharedInv(sys, sh') && Moves(sh, sh', tid)
  {
    ClosingProves(sys, tid, sh, th);
    ClosedShared(sys, tid, sh, Top(th), th.phase.res, sh'.spoiled);
  }

  lemma CloseStack(sys: System, tid: nat, sh: Shared, th: Thread, sh': Shared, th': Thread)
    requires Ready(sys, tid, sh, th) && Close(sh, th, sh', th')
    ensures StackInv(sys, sh', tid, Below(th)) && MineOnStack(sh', tid, Below(th)) && Asked(sys, Below(th), Top(th).key)
  {
    ClosedBelow(sys, tid, sh, th.stack, th.phase.res, sh'.spoiled);
    ClosedOnStack(sh, tid, th.stack, th.phase.res, sh'.spoiled);
    StackPopped(sys, sh, tid, th.stack);
  }

  lemma HandsOver(sys: System, tid: nat, sh: Shared, th: Thread, res: Outcome, t: Table, spoiled: nat)
    requires StackInv(sys, sh, tid, th.stack) && PhaseInv(sys, sh, th) && th.phase == Closing(res)
    requires Top(th).id in sh.table.cells && t == Shut(sh.table, Top(th).id, res, Top(th).touched)
    ensures Handover(sys, sh.(table := t, spoiled := spoiled), Below(th), Top(th), res, sh.table.cells[Top(th).id].born)
  {
    assert FrameInv(sys, sh, tid, Top(th));
    if |th.stack| > 1 {
      assert FrameInv(sys, sh, tid, th.stack[|th.stack| - 2]);
    }
  }

  lemma CloseThread(sys: System, tid: nat, sh: Shared, th: Thread, sh': Shared, th': Thread)
    requires Ready(sys, tid, sh, th) && Close(sh, th, sh', th')
    ensures ThreadInv(sys, sh', tid, th') && MineOnStack(sh', tid, th'.stack)
  {
    CloseStack(sys, tid, sh, th, sh', th');
    HandsOver(sys, tid, sh, th, th.phase.res, sh'.table, sh'.spoiled);
    CloseMerges(sys, tid, sh', Below(th), th', Top(th), th.phase.res, sh.table.cells[Top(th).id].born);
  }

  lemma CloseKeeps(sys: System, tid: nat, sh: Shared, th: Thread, sh': Shared, th': Thread)
    requires Ready(sys, tid, sh, th) && Close(sh, th, sh', th')
    ensures Keeps(sys, tid, sh, th, sh', th')
  {
    CloseShared(sys, tid, sh, th, sh', th');
    CloseThread(sys, tid, sh, th, sh', th');
  }
}
