// What every step of the cache protocol keeps.
module CacheSafety {
  import opened Recency
  import opened Recorders
  import opened DesignCache
  import opened CacheProtocol

  /* ---- what a recorder proves about a value ---- */

  // The contents c hold, for every name noted, what the file held under the stamp noted.
  ghost predicate Agrees(sys: System, c: Name -> Content, t: Touched) {
    forall n | n in t :: c(n) == sys.content(n, t[n])
  }

  // Whatever the rest of the files hold, a build that had these answers is a build from those contents.
  ghost predicate Sound(sys: System, k: Key, answers: seq<string>, t: Touched) {
    sys.spared ==>
      forall c: Name -> Content {:trigger Agrees(sys, c, t)} | Agrees(sys, c, t) ::
        Eval(sys, k, [], c) == Eval(sys, k, answers, c)
  }

  ghost predicate Settles(sys: System, k: Key, v: Value, t: Touched) {
    sys.spared ==>
      forall c: Name -> Content {:trigger Agrees(sys, c, t)} | Agrees(sys, c, t) :: Eval(sys, k, [], c) == Ok(v)
  }

  ghost predicate Covers(big: Touched, small: Touched) {
    forall n | n in small :: n in big && big[n] == small[n]
  }

  lemma CoveredAgrees(sys: System, c: Name -> Content, big: Touched, small: Touched)
    requires Covers(big, small) && Agrees(sys, c, big)
    ensures Agrees(sys, c, small)
  {
  }

  lemma SoundWhenCovered(sys: System, k: Key, answers: seq<string>, big: Touched, small: Touched)
    requires Sound(sys, k, answers, small) && Covers(big, small)
    ensures Sound(sys, k, answers, big)
  {
    forall c: Name -> Content | sys.spared && Agrees(sys, c, big)
      ensures Eval(sys, k, [], c) == Eval(sys, k, answers, c)
    {
      CoveredAgrees(sys, c, big, small);
    }
  }

  lemma SoundAfterOpen(sys: System, k: Key, answers: seq<string>, t: Touched, n: Name)
    requires Sound(sys, k, answers, t) && n in t
    requires |answers| < sys.limit(k) && sys.ask(k, answers) == Open(n)
    ensures Sound(sys, k, answers + [sys.content(n, t[n])], t)
  {
    var more := answers + [sys.content(n, t[n])];
    forall c: Name -> Content | sys.spared && Agrees(sys, c, t) ensures Eval(sys, k, [], c) == Eval(sys, k, more, c) {
      assert c(n) == sys.content(n, t[n]);
    }
  }

  // An outer build inherits what the value it used depended on.
  lemma SoundAfterUse(sys: System, k: Key, answers: seq<string>, t: Touched, k': Key, v: Value, t': Touched, big: Touched)
    requires Sane(sys) && Sound(sys, k, answers, t) && Settles(sys, k', v, t')
    requires Covers(big, t) && Covers(big, t')
    requires |answers| < sys.limit(k) && sys.ask(k, answers) == Use(k')
    ensures Sound(sys, k, answers + [v], big)
  {
    forall c: Name -> Content | sys.spared && Agrees(sys, c, big)
      ensures Eval(sys, k, [], c) == Eval(sys, k, answers + [v], c)
    {
      CoveredAgrees(sys, c, big, t);
      CoveredAgrees(sys, c, big, t');
      assert sys.ask(k, answers).Use?;
    }
  }

  lemma SettlesAtDone(sys: System, k: Key, answers: seq<string>, t: Touched, v: Value)
    requires Sound(sys, k, answers, t) && |answers| < sys.limit(k) && sys.ask(k, answers) == Done(v)
    ensures Settles(sys, k, v, t)
  {
    forall c: Name -> Content | sys.spared && Agrees(sys, c, t) ensures Eval(sys, k, [], c) == Ok(v) {
    }
  }

  lemma IntactAgrees(sys: System, files: Files, t: Touched)
    requires Intact(files, t)
    ensures Agrees(sys, View(sys, files), t)
  {
  }

  lemma SettledIsFresh(sys: System, k: Key, v: Value, files: Files, t: Touched)
    requires Settles(sys, k, v, t) && Intact(files, t)
    ensures sys.spared ==> Fresh(sys, k, files) == Ok(v)
  {
    IntactAgrees(sys, files, t);
  }

  /* ---- stamps ---- */

  // Each stamp was true at some moment since the entry was born, so a name that stamps otherwise now was edited since.
  ghost predicate Stamped(files: Files, t: Touched, born: nat) {
    forall n | n in t :: t[n] <= At(files, n) && (At(files, n) == t[n] || At(files, n) > born)
  }

  // Every stamp is from before the moment born.
  ghost predicate Before(t: Touched, born: nat) {
    forall n | n in t :: t[n] <= born
  }

  lemma MergeCovers(files: Files, t: Touched, t': Touched, born: nat)
    requires Before(t, born) && Stamped(files, t, 0) && Stamped(files, t', born)
    requires Intact(files, Merge(t, t'))
    ensures Covers(Merge(t, t'), t) && Covers(Merge(t, t'), t') && Intact(files, t) && Intact(files, t')
  {
    forall n | n in t' ensures Merge(t, t')[n] == t'[n] {
      if n in t { assert Merge(t, t')[n] == t[n]; }
    }
    assert forall n | n in t :: Merge(t, t')[n] == t[n];
    assert forall n | n in t' :: n in Merge(t, t') && At(files, n) == Merge(t, t')[n];
  }

  // The files moved on from since, and any that moved did so after the moment born.
  ghost predicate Later(since: Files, files: Files, born: nat) {
    forall n :: At(since, n) <= At(files, n) && (At(files, n) == At(since, n) || At(files, n) > born)
  }

  ghost predicate NotAfter(t: Touched, since: Files) {
    forall n | n in t :: t[n] <= At(since, n)
  }

  lemma CheckedMergeCovers(files: Files, since: Files, t: Touched, t': Touched, born: nat)
    requires NotAfter(t, since) && Intact(since, t') && Later(since, files, born)
    requires Intact(files, Merge(t, t'))
    ensures Covers(Merge(t, t'), t) && Covers(Merge(t, t'), t') && Intact(files, t)
  {
    assert forall n | n in t :: n in Merge(t, t') && Merge(t, t')[n] == t[n];
    assert forall n | n in t' && n !in t :: n in Merge(t, t') && Merge(t, t')[n] == t'[n];
    forall n | n in t && n in t' ensures t[n] == t'[n] {
      assert At(files, n) == t[n] <= At(since, n) == t'[n] <= At(files, n);
    }
  }

  /* ---- the invariant ---- */

  ghost predicate Clocked(files: Files, clock: nat) {
    forall n | n in files :: files[n] <= clock
  }

  ghost predicate CellInv(sys: System, files: Files, clock: nat, cell: Cell) {
    match cell
    case Cell(key, _, born, ready, res, touched) =>
      && born <= clock
      && (ready ==> Stamped(files, touched, born))
      && (ready && res.Ok? && Intact(files, touched) ==> Settles(sys, key, res.v, touched))
  }

  // An entry found ready in the map is one a caller may use.
  ghost predicate Usable(cell: Cell) {
    cell.ready ==> cell.res.Ok? && cell.touched != map[]
  }

  ghost predicate TableInv(sys: System, t: Table) {
    && Held(t) && |t.entries| <= sys.max
    && forall k | k in t.entries :: Usable(t.cells[t.entries[k]])
  }

  ghost predicate SharedInv(sys: System, sh: Shared) {
    && TableInv(sys, sh.table)
    && Clocked(sh.files, sh.clock)
    && (forall id {:trigger CellInv(sys, sh.files, sh.clock, sh.table.cells[id])} | id in sh.table.cells ::
          CellInv(sys, sh.files, sh.clock, sh.table.cells[id]))
    && (forall k {:trigger RecordInv(sys, k, sh.store[k])} | k in sh.store :: RecordInv(sys, k, sh.store[k]))
  }

  ghost predicate FrameInv(sys: System, sh: Shared, tid: nat, f: Frame) {
    match f
    case Frame(key, id, answers, touched) =>
      && id in sh.table.cells
      && var cell := sh.table.cells[id];
         && !cell.ready && cell.builder == tid && cell.key == key && key != ""
         && Stamped(sh.files, touched, cell.born)
         && (Intact(sh.files, touched) ==> Sound(sys, key, answers, touched))
  }

  // The build is at a question that asks for key.
  ghost predicate Calls(sys: System, f: Frame, key: Key) {
    |f.answers| < sys.limit(f.key) && sys.ask(f.key, f.answers) == Use(key)
  }

  ghost predicate StackInv(sys: System, sh: Shared, tid: nat, stack: seq<Frame>) {
    && (forall i | 0 <= i < |stack| :: FrameInv(sys, sh, tid, stack[i]))
    && (forall i | 0 < i < |stack| ::
          && Calls(sys, stack[i - 1], stack[i].key)
          && Before(stack[i - 1].touched, sh.table.cells[stack[i].id].born)
          && sh.table.cells[stack[i - 1].id].born <= sh.table.cells[stack[i].id].born)
    && (forall i, j | 0 <= i < j < |stack| :: sys.level(stack[j].key) < sys.level(stack[i].key))
  }

  ghost predicate Asked(sys: System, stack: seq<Frame>, key: Key) {
    key != "" && (stack != [] ==> Calls(sys, stack[|stack| - 1], key))
  }

  ghost predicate Seen(sh: Shared, key: Key, id: EntryId) {
    id in sh.table.cells && sh.table.cells[id].key == key
  }

  ghost predicate CheckingInv(sys: System, sh: Shared, th: Thread) {
    var p := th.phase;
    && p.Checking? && Asked(sys, th.stack, p.key) && Seen(sh, p.key, p.id) && (p.peek ==> th.stack == [])
    && var cell := sh.table.cells[p.id];
       && cell.ready && cell.res.Ok? && cell.touched != map[] && p.left <= cell.touched.Keys
       && (forall n | n in cell.touched && n !in p.left :: At(p.since, n) == cell.touched[n])
       && (Intact(p.since, cell.touched) ==> Settles(sys, p.key, cell.res.v, cell.touched))
       && Stamped(p.since, cell.touched, 0)
       && Later(p.since, sh.files, 0)
       && (th.stack != [] ==>
             && Top(th).id in sh.table.cells && NotAfter(Top(th).touched, p.since)
             && Later(p.since, sh.files, sh.table.cells[Top(th).id].born))
  }

  ghost predicate BuiltInv(sys: System, sh: Shared, th: Thread, res: Outcome) {
    match res
    case Err(_) => th.stack != []
    case Ok(v) =>
      && th.stack != []
      && (Intact(sh.files, Top(th).touched) ==> Settles(sys, Top(th).key, v, Top(th).touched))
  }

  ghost predicate LeavingInv(sys: System, sh: Shared, th: Thread) {
    var p := th.phase;
    && p.Leaving? && Asked(sys, th.stack, p.key)
    && (th.stack != [] && p.res.Ok? && Intact(sh.files, Top(th).touched) ==>
          Sound(sys, Top(th).key, Top(th).answers + [p.res.v], Top(th).touched))
    && (p.from.Memory? ==> p.res.Ok? && (sys.spared ==> Fresh(sys, p.key, p.from.since) == p.res))
  }

  // A fingerprint being compared: every name done holds, under the stamp taken, what the record says.
  ghost predicate MatchingInv(sys: System, sh: Shared, th: Thread, rec: Record, left: set<Name>, t: Touched) {
    && th.stack != [] && Top(th).answers == [] && Top(th).touched == map[] && Top(th).id in sh.table.cells
    && sys.kept(Top(th).key) && RecordInv(sys, Top(th).key, rec) && rec.seen != map[]
    && left <= rec.seen.Keys && t.Keys == rec.seen.Keys - left
    && Stamped(sh.files, t, sh.table.cells[Top(th).id].born)
    && (sys.spared ==> forall n | n in t :: sys.content(n, t[n]) == rec.seen[n])
  }

  // A fingerprint being taken: every name done still stamped as noted when the fingerprint began, and was read as that
  // stamp has it.
  ghost predicate PrintingInv(sys: System, sh: Shared, th: Thread, res: Outcome, left: set<Name>,
                              got: map<Name, Content>, since: Files)
  {
    && res.Ok? && BuiltInv(sys, sh, th, res) && sys.kept(Top(th).key)
    && var touched := Top(th).touched;
       && touched != map[] && left <= touched.Keys && got.Keys == touched.Keys - left
       && (Intact(since, touched) ==> Settles(sys, Top(th).key, res.v, touched))
       && (forall n | n in touched :: touched[n] <= At(since, n) <= At(sh.files, n))
       && (forall n | n in got :: At(since, n) == touched[n])
       && (sys.spared ==> forall n | n in got :: got[n] == sys.content(n, touched[n]))
  }

  ghost predicate PhaseInv(sys: System, sh: Shared, th: Thread) {
    match th.phase
    case Idle => th.stack == []
    case Asking(key) => Asked(sys, th.stack, key)
    case Waiting(key, id) => Asked(sys, th.stack, key) && Seen(sh, key, id)
    case Checking(_, _, _, _, _) => CheckingInv(sys, sh, th)
    case Dropping(key, id) => Asked(sys, th.stack, key) && Seen(sh, key, id) && sh.table.cells[id].ready
    case Restoring => th.stack != [] && Top(th).answers == [] && Top(th).touched == map[]
    case Matching(rec, left, t) => MatchingInv(sys, sh, th, rec, left, t)
    case Matched(rec, left, t, n) =>
      && MatchingInv(sys, sh, th, rec, left, t) && n in left
      && (sys.spared ==> sys.content(n, At(sh.files, n)) == rec.seen[n])
    case Running => th.stack != []
    case Reading(n) =>
      && th.stack != [] && |Top(th).answers| < sys.limit(Top(th).key)
      && sys.ask(Top(th).key, Top(th).answers) == Open(n) && n in Top(th).touched
    case Ending(res) => BuiltInv(sys, sh, th, res)
    case Printing(res, left, got, since) => PrintingInv(sys, sh, th, res, left, got, since)
    case Printed(res, left, got, since, n) =>
      && PrintingInv(sys, sh, th, res, left, got, since) && n in left && At(since, n) == Top(th).touched[n]
      && (sys.spared ==> sys.content(n, At(sh.files, n)) == sys.content(n, Top(th).touched[n]))
    case Settling(res) => BuiltInv(sys, sh, th, res)
    case Closing(res) =>
      && BuiltInv(sys, sh, th, res)
      && (Unkeepable(res, Top(th)) ==>
            Top(th).key !in sh.table.entries || sh.table.entries[Top(th).key] != Top(th).id)
    case Leaving(_, _, _) => LeavingInv(sys, sh, th)
    case Peeking(key) => th.stack == [] && key != ""
    case Peeked(key, id) => th.stack == [] && key != "" && Seen(sh, key, id)
  }

  ghost predicate ThreadInv(sys: System, sh: Shared, tid: nat, th: Thread) {
    StackInv(sys, sh, tid, th.stack) && PhaseInv(sys, sh, th)
  }

  // Every entry still being built has its builder, with the build on its stack.
  ghost predicate Attended(s: State, id: EntryId)
    requires id in s.sh.table.cells
  {
    var tid := s.sh.table.cells[id].builder;
    tid in s.threads && exists i :: 0 <= i < |s.threads[tid].stack| && s.threads[tid].stack[i].id == id
  }

  ghost predicate Inv(sys: System, s: State) {
    && SharedInv(sys, s.sh)
    && AllThreadsInv(sys, s)
    && AllAttended(s)
  }

  ghost predicate AllThreadsInv(sys: System, s: State) {
    forall tid | tid in s.threads :: ThreadInv(sys, s.sh, tid, s.threads[tid])
  }

  ghost predicate AllAttended(s: State) {
    forall id | id in s.sh.table.cells && !s.sh.table.cells[id].ready :: Attended(s, id)
  }

  /* ---- what a thread's step may do to what others rely on ---- */

  ghost predicate CellMoves(a: Cell, b: Cell, tid: nat) {
    && a.key == b.key && a.builder == b.builder && a.born == b.born
    && (a.ready ==> b == a) && (a.builder != tid ==> b.ready == a.ready)
  }

  ghost predicate TableMoves(t: Table, t': Table, tid: nat) {
    && t.next <= t'.next
    && (forall id | id in t.cells :: id in t'.cells && CellMoves(t.cells[id], t'.cells[id], tid))
    && (forall k | k in t'.entries ::
          (k in t.entries && t'.entries[k] == t.entries[k]) || t'.entries[k] >= t.next)
  }

  ghost predicate Moves(sh: Shared, sh': Shared, tid: nat) {
    && sh'.files == sh.files && sh'.clock == sh.clock && sh.spoiled <= sh'.spoiled
    && TableMoves(sh.table, sh'.table, tid)
    && (forall id | id in sh'.table.cells && id !in sh.table.cells ::
          id >= sh.table.next && sh'.table.cells[id].builder == tid && sh'.table.cells[id].born == sh.clock)
  }

  lemma OtherFrameKept(sys: System, sh: Shared, sh': Shared, tid: nat, other: nat, f: Frame)
    requires Moves(sh, sh', tid) && other != tid && FrameInv(sys, sh, other, f)
    ensures FrameInv(sys, sh', other, f) && sh'.table.cells[f.id].born == sh.table.cells[f.id].born
  {
    assert CellMoves(sh.table.cells[f.id], sh'.table.cells[f.id], tid);
  }

  lemma OtherStackKept(sys: System, sh: Shared, sh': Shared, tid: nat, other: nat, stack: seq<Frame>)
    requires Moves(sh, sh', tid) && other != tid && StackInv(sys, sh, other, stack)
    ensures StackInv(sys, sh', other, stack)
  {
    forall i | 0 <= i < |stack|
      ensures FrameInv(sys, sh', other, stack[i]) && sh'.table.cells[stack[i].id].born == sh.table.cells[stack[i].id].born
    {
      OtherFrameKept(sys, sh, sh', tid, other, stack[i]);
    }
  }

  lemma OtherPhaseKept(sys: System, sh: Shared, sh': Shared, tid: nat, other: nat, th: Thread)
    requires Moves(sh, sh', tid) && other != tid && Held(sh.table) && ThreadInv(sys, sh, other, th)
    ensures PhaseInv(sys, sh', th)
  {
    if th.stack != [] {
      var f := Top(th);
      assert FrameInv(sys, sh, other, f);
      assert CellMoves(sh.table.cells[f.id], sh'.table.cells[f.id], tid);
    }
  }

  lemma OtherThreadKept(sys: System, sh: Shared, sh': Shared, tid: nat, other: nat, th: Thread)
    requires Moves(sh, sh', tid) && other != tid && Held(sh.table) && ThreadInv(sys, sh, other, th)
    ensures ThreadInv(sys, sh', other, th)
  {
    OtherStackKept(sys, sh, sh', tid, other, th.stack);
    OtherPhaseKept(sys, sh, sh', tid, other, th);
  }

  /* ---- an edit ---- */

  ghost predicate Edited(sh: Shared, sh': Shared, n: Name) {
    && Clocked(sh.files, sh.clock)
    && sh' == sh.(files := sh.files[n := sh.clock + 1], clock := sh.clock + 1)
  }

  lemma EditKeepsStamps(sh: Shared, sh': Shared, n: Name, t: Touched, born: nat)
    requires Edited(sh, sh', n) && Stamped(sh.files, t, born) && born <= sh.clock
    ensures Stamped(sh'.files, t, born)
    ensures Intact(sh'.files, t) ==> Intact(sh.files, t)
  {
    forall m | m in t ensures At(sh'.files, m) == t[m] ==> At(sh.files, m) == t[m] {
      assert t[m] <= At(sh.files, m) <= sh.clock;
    }
  }

  lemma EditIsLater(sh: Shared, sh': Shared, n: Name, since: Files, born: nat)
    requires Edited(sh, sh', n) && Later(since, sh.files, born) && born <= sh.clock
    ensures Later(since, sh'.files, born)
  {
  }

  lemma EditKeepsCell(sys: System, sh: Shared, sh': Shared, n: Name, cell: Cell)
    requires Edited(sh, sh', n) && CellInv(sys, sh.files, sh.clock, cell)
    ensures CellInv(sys, sh'.files, sh'.clock, cell)
  {
    if cell.ready {
      EditKeepsStamps(sh, sh', n, cell.touched, cell.born);
    }
  }

  lemma EditKeepsFrame(sys: System, sh: Shared, sh': Shared, n: Name, tid: nat, f: Frame)
    requires Edited(sh, sh', n) && FrameInv(sys, sh, tid, f) && sh.table.cells[f.id].born <= sh.clock
    ensures FrameInv(sys, sh', tid, f)
    ensures Intact(sh'.files, f.touched) ==> Intact(sh.files, f.touched)
  {
    EditKeepsStamps(sh, sh', n, f.touched, sh.table.cells[f.id].born);
  }

  // A fingerprint between its two looks at a name sees the same through an edit that spares it.
  ghost predicate SparesWindow(sys: System, sh: Shared, th: Thread, n: Name) {
    sys.spared && InWindow(th, n) ==> sys.content(n, sh.clock + 1) == sys.content(n, At(sh.files, n))
  }

  lemma EditKeepsMatching(sys: System, sh: Shared, sh': Shared, n: Name, th: Thread)
    requires Edited(sh, sh', n) && SparesWindow(sys, sh, th, n) && PhaseInv(sys, sh, th)
    requires th.phase.Matching? || th.phase.Matched?
    requires th.stack != [] && Top(th).id in sh.table.cells && sh.table.cells[Top(th).id].born <= sh.clock
    ensures PhaseInv(sys, sh', th)
  {
    EditKeepsStamps(sh, sh', n, th.phase.t, sh.table.cells[Top(th).id].born);
  }

  lemma EditKeepsPrinting(sys: System, sh: Shared, sh': Shared, n: Name, th: Thread)
    requires Edited(sh, sh', n) && SparesWindow(sys, sh, th, n) && PhaseInv(sys, sh, th)
    requires th.phase.Printing? || th.phase.Printed?
    requires th.stack != [] && (Intact(sh'.files, Top(th).touched) ==> Intact(sh.files, Top(th).touched))
    ensures PhaseInv(sys, sh', th)
  {
    forall m | m in Top(th).touched ensures At(sh.files, m) <= At(sh'.files, m) {
      assert At(sh.files, m) <= sh.clock;
    }
  }

  lemma EditKeepsThread(sys: System, sh: Shared, sh': Shared, n: Name, tid: nat, th: Thread)
    requires Edited(sh, sh', n) && ThreadInv(sys, sh, tid, th) && SharedInv(sys, sh) && SparesWindow(sys, sh, th, n)
    ensures ThreadInv(sys, sh', tid, th)
  {
    forall i | 0 <= i < |th.stack|
      ensures FrameInv(sys, sh', tid, th.stack[i])
      ensures Intact(sh'.files, th.stack[i].touched) ==> Intact(sh.files, th.stack[i].touched)
    {
      assert FrameInv(sys, sh, tid, th.stack[i]);
      assert CellInv(sys, sh.files, sh.clock, sh.table.cells[th.stack[i].id]);
      EditKeepsFrame(sys, sh, sh', n, tid, th.stack[i]);
    }
    assert StackInv(sys, sh', tid, th.stack);
    if th.phase.Matching? || th.phase.Matched? {
      assert CellInv(sys, sh.files, sh.clock, sh.table.cells[Top(th).id]);
      EditKeepsMatching(sys, sh, sh', n, th);
    } else if th.phase.Printing? || th.phase.Printed? {
      EditKeepsPrinting(sys, sh, sh', n, th);
    } else if th.phase.Checking? {
      EditIsLater(sh, sh', n, th.phase.since, 0);
      if th.stack != [] {
        var top := Top(th);
        assert CellInv(sys, sh.files, sh.clock, sh.table.cells[top.id]);
        EditIsLater(sh, sh', n, th.phase.since, sh.table.cells[top.id].born);
      }
    }
  }

  lemma EditKeepsShared(sys: System, sh: Shared, sh': Shared, n: Name)
    requires SharedInv(sys, sh) && Edited(sh, sh', n)
    ensures SharedInv(sys, sh')
  {
    forall id | id in sh.table.cells ensures CellInv(sys, sh'.files, sh'.clock, sh.table.cells[id]) {
      EditKeepsCell(sys, sh, sh', n, sh.table.cells[id]);
    }
  }

  lemma SameStacksAttend(s: State, s': State)
    requires AllAttended(s) && s'.sh.table == s.sh.table
    requires forall t | t in s.threads :: t in s'.threads && s'.threads[t].stack == s.threads[t].stack
    ensures AllAttended(s')
  {
    forall id | id in s'.sh.table.cells && !s'.sh.table.cells[id].ready ensures Attended(s', id) {
      assert Attended(s, id);
    }
  }

  lemma EditKeepsOne(sys: System, s: State, sh': Shared, n: Name, tid: nat)
    requires SharedInv(sys, s.sh) && AllThreadsInv(sys, s) && tid in s.threads && Edited(s.sh, sh', n)
    requires sys.spared ==> Spares(sys, s, n)
    ensures ThreadInv(sys, sh', tid, s.threads[tid])
  {
    EditKeepsThread(sys, s.sh, sh', n, tid, s.threads[tid]);
  }

  lemma EditKeepsThreads(sys: System, s: State, s': State, n: Name)
    requires SharedInv(sys, s.sh) && AllThreadsInv(sys, s) && Edit(sys, s, s', n)
    ensures AllThreadsInv(sys, s')
  {
    forall tid | tid in s'.threads ensures ThreadInv(sys, s'.sh, tid, s'.threads[tid]) {
      EditKeepsOne(sys, s, s'.sh, n, tid);
    }
  }

  lemma EditKeepsInv(sys: System, s: State, s': State, n: Name)
    requires Inv(sys, s) && Edit(sys, s, s', n)
    ensures Inv(sys, s')
  {
    EditKeepsShared(sys, s.sh, s'.sh, n);
    EditKeepsThreads(sys, s, s', n);
    SameStacksAttend(s, s');
  }

  lemma LivenessFree(sys: System, sh: Shared, tid: nat, th: Thread, live: bool)
    requires ThreadInv(sys, sh, tid, th)
    ensures ThreadInv(sys, sh, tid, th.(live := live))
  {
    if th.stack != [] {
      assert Top(th.(live := live)) == Top(th);
    }
  }

  lemma CancelKeepsInv(sys: System, s: State, s': State, tid: nat)
    requires Inv(sys, s) && Cancel(s, s', tid)
    ensures Inv(sys, s')
  {
    LivenessFree(sys, s.sh, tid, s.threads[tid], false);
    SameStacksAttend(s, s');
  }
}
