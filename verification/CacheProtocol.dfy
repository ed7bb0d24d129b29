// Callers of the design cache as threads. A thread's call moves through the phases of getPersisted or peek, one
// critical section, channel operation, file operation or store operation at a time, and any thread may move next. A
// build runs under its builder's call and may itself call the cache, so a thread carries a stack of builds.
module CacheProtocol {
  import opened Recency
  import opened Recorders
  import opened DesignCache

  // What the persistent tier keeps for a key: the contents the read depended on, and the value.
  datatype Record = Record(seen: map<Name, Content>, v: Value)

  // clock numbers the edits made so far. spoiled counts the builds that closed with nothing to keep: cancelled by their
  // caller, or having noted no file.
  datatype Shared = Shared(files: Files, clock: nat, table: Table, store: map<Key, Record>, spoiled: nat)

  // A build in progress: the entry it fills, the answers its questions had, and its recorder.
  datatype Frame = Frame(key: Key, id: EntryId, answers: seq<string>, touched: Touched)

  // Where a value came from. A value served from memory was checked from the moment the files stamped as since.
  datatype Source = Memory(since: Files) | Elsewhere

  datatype Phase =
    | Idle
    | Asking(key: Key)
    | Waiting(key: Key, id: EntryId)
    | Checking(key: Key, id: EntryId, left: set<Name>, since: Files, peek: bool)
    | Dropping(key: Key, id: EntryId)
    | Restoring
    | Matching(rec: Record, todo: set<Name>, t: Touched)
    | Matched(rec: Record, todo: set<Name>, t: Touched, n: Name)
    | Running
    | Reading(n: Name)
    | Ending(res: Outcome)
    | Printing(res: Outcome, todo: set<Name>, got: map<Name, Content>, since: Files)
    | Printed(res: Outcome, todo: set<Name>, got: map<Name, Content>, since: Files, n: Name)
    | Settling(res: Outcome)
    | Closing(res: Outcome)
    | Leaving(key: Key, res: Outcome, from: Source)
    | Peeking(key: Key)
    | Peeked(key: Key, id: EntryId)

  // The current call's retries, and the counts of edits, spoiled builds and entries when it last took the lock.
  datatype Log = Log(
    retries: nat, edits0: nat, spoiled0: nat, prev: nat, cur: nat, curSpoiled: nat, nextAt: EntryId)

  datatype Thread = Thread(stack: seq<Frame>, phase: Phase, live: bool, log: Log)

  datatype State = State(sh: Shared, threads: map<nat, Thread>)

  function Top(th: Thread): Frame
    requires th.stack != []
  {
    th.stack[|th.stack| - 1]
  }

  function Below(th: Thread): seq<Frame>
    requires th.stack != []
  {
    th.stack[..|th.stack| - 1]
  }

  // A recorder handed back to the caller: the build beneath the call, if there is one, takes it in.
  function Merged(stack: seq<Frame>, t: Touched): seq<Frame> {
    if stack == [] then []
    else
      var top := stack[|stack| - 1];
      stack[..|stack| - 1] + [top.(touched := Merge(top.touched, t))]
  }

  function WithTop(th: Thread, f: Frame): Thread
    requires th.stack != []
  {
    th.(stack := Below(th) + [f])
  }

  // Canceled, or tracked no file.
  predicate Spoilt(res: Outcome, touched: Touched) {
    if res.Ok? then touched == map[] else res.e.Canceled?
  }

  function NewLog(sh: Shared): Log {
    Log(0, sh.clock, sh.spoiled, sh.clock, sh.clock, sh.spoiled, sh.table.next)
  }

  function Looked(sh: Shared, log: Log): Log {
    log.(prev := log.cur, cur := sh.clock, curSpoiled := sh.spoiled, nextAt := sh.table.next)
  }

  function Retried(log: Log): Log {
    log.(retries := log.retries + 1)
  }

  /* ---- what a thread may do next ---- */

  ghost predicate Start(sh: Shared, th: Thread, sh': Shared, th': Thread, key: Key) {
    && th.phase.Idle? && key != "" && sh' == sh
    && th' == Thread([], Asking(key), true, NewLog(sh))
  }

  ghost predicate StartPeek(sh: Shared, th: Thread, sh': Shared, th': Thread, key: Key) {
    && th.phase.Idle? && key != "" && sh' == sh
    && th' == Thread([], Peeking(key), true, NewLog(sh))
  }

  // The lock, with someone's entry under the key.
  ghost predicate Join(sh: Shared, th: Thread, sh': Shared, th': Thread) {
    && th.phase.Asking? && th.phase.key in sh.table.entries
    && sh' == sh.(table := Bump(sh.table, th.phase.key))
    && th' == th.(phase := Waiting(th.phase.key, sh.table.entries[th.phase.key]), log := Looked(sh, th.log))
  }

  // The lock, with no entry under the key.
  ghost predicate Begin(sys: System, tid: nat, sh: Shared, th: Thread, sh': Shared, th': Thread) {
    && th.phase.Asking? && th.phase.key !in sh.table.entries
    && sh' == sh.(table := Insert(sh.table, th.phase.key, tid, sh.clock, sys.max))
    && th' == th.(stack := th.stack + [Frame(th.phase.key, sh.table.next, [], map[])], phase := Restoring)
  }

  predicate Servable(cell: Cell) {
    cell.ready && cell.res.Ok? && cell.touched != map[]
  }

  function CheckOf(sh: Shared, key: Key, id: EntryId, peek: bool): Phase
    requires id in sh.table.cells
  {
    Checking(key, id, sh.table.cells[id].touched.Keys, sh.files, peek)
  }

  // The entry is ready. A recorder with nothing in it never reads as unchanged.
  ghost predicate Wake(sh: Shared, th: Thread, sh': Shared, th': Thread) {
    && th.phase.Waiting? && th.phase.id in sh.table.cells && Servable(sh.table.cells[th.phase.id]) && sh' == sh
    && th' == th.(phase := CheckOf(sh, th.phase.key, th.phase.id, false))
  }

  ghost predicate WakeToNothing(sh: Shared, th: Thread, sh': Shared, th': Thread) {
    && th.phase.Waiting? && th.phase.id in sh.table.cells && sh.table.cells[th.phase.id].ready
    && !Servable(sh.table.cells[th.phase.id]) && sh' == sh
    && th' == th.(phase := Dropping(th.phase.key, th.phase.id))
  }

  ghost predicate GiveUp(sh: Shared, th: Thread, sh': Shared, th': Thread) {
    && th.phase.Waiting? && !th.live && sh' == sh
    && th' == th.(phase := Leaving(th.phase.key, Err(Canceled), Elsewhere))
  }

  // One name of Unchanged's walk, which takes the names in any order.
  ghost predicate CheckName(sh: Shared, th: Thread, sh': Shared, th': Thread, n: Name) {
    && th.phase.Checking? && n in th.phase.left && sh' == sh
    && th.phase.id in sh.table.cells && n in sh.table.cells[th.phase.id].touched
    && th' == th.(phase :=
         if At(sh.files, n) == sh.table.cells[th.phase.id].touched[n]
         then th.phase.(left := th.phase.left - {n})
         else if th.phase.peek then Leaving(th.phase.key, Err(NotKept), Elsewhere)
         else Dropping(th.phase.key, th.phase.id))
  }

  ghost predicate Serve(sh: Shared, th: Thread, sh': Shared, th': Thread) {
    && th.phase.Checking? && th.phase.left == {} && sh' == sh && th.phase.id in sh.table.cells
    && var cell := sh.table.cells[th.phase.id];
       th' == th.(stack := Merged(th.stack, cell.touched),
                  phase := Leaving(th.phase.key, cell.res, Memory(th.phase.since)))
  }

  // Drop what was found stale or failed, unless it was replaced. A cancelled build is asked for again by a caller still
  // there.
  ghost predicate Retry(sh: Shared, th: Thread, sh': Shared, th': Thread) {
    && th.phase.Dropping? && th.phase.id in sh.table.cells
    && Retriable(sh.table.cells[th.phase.id].res, th.live)
    && sh' == sh.(table := Drop(sh.table, th.phase.key, th.phase.id))
    && th' == th.(phase := Asking(th.phase.key), log := Retried(th.log))
  }

  // Any other failure is the caller's answer, so one bad read is not run twice for one request.
  ghost predicate TakeFailure(sh: Shared, th: Thread, sh': Shared, th': Thread) {
    && th.phase.Dropping? && th.phase.id in sh.table.cells
    && !Retriable(sh.table.cells[th.phase.id].res, th.live)
    && sh' == sh.(table := Drop(sh.table, th.phase.key, th.phase.id))
    && th' == th.(phase := Leaving(th.phase.key, sh.table.cells[th.phase.id].res, Elsewhere))
  }

  predicate Retriable(res: Outcome, live: bool) {
    res.Ok? || (res.e.Canceled? && live)
  }

  // The files hold now what a record says they held.
  ghost predicate Matches(sys: System, sh: Shared, r: Record) {
    r.seen != map[] && forall n | n in r.seen :: sys.content(n, At(sh.files, n)) == r.seen[n]
  }

  // The persistent tier has a record of something.
  ghost predicate Fetch(sys: System, sh: Shared, th: Thread, sh': Shared, th': Thread) {
    && th.phase.Restoring? && th.stack != [] && sh' == sh
    && sys.kept(Top(th).key) && Top(th).key in sh.store
    && var rec := sh.store[Top(th).key];
       rec.seen != map[] && th' == th.(phase := Matching(rec, rec.seen.Keys, map[]))
  }

  // The fingerprint check takes the names in any order. What a name holds is compared first, and its stamp is taken
  // after.
  ghost predicate MatchContent(sys: System, sh: Shared, th: Thread, sh': Shared, th': Thread, n: Name) {
    && th.phase.Matching? && th.stack != [] && sh' == sh && n in th.phase.todo && n in th.phase.rec.seen
    && sys.content(n, At(sh.files, n)) == th.phase.rec.seen[n]
    && th' == th.(phase := Matched(th.phase.rec, th.phase.todo, th.phase.t, n))
  }

  ghost predicate MatchStamp(sh: Shared, th: Thread, sh': Shared, th': Thread) {
    && th.phase.Matched? && th.stack != [] && sh' == sh
    && var p := th.phase;
       th' == th.(phase := Matching(p.rec, p.todo - {p.n}, p.t[p.n := At(sh.files, p.n)]))
  }

  ghost predicate Restore(sh: Shared, th: Thread, sh': Shared, th': Thread) {
    && th.phase.Matching? && th.stack != [] && th.phase.todo == {} && sh' == sh
    && th' == WithTop(th, Top(th).(touched := th.phase.t)).(phase := Settling(Ok(th.phase.rec.v)))
  }

  // Nothing to restore, a file that reads differently, or the store or the codec refused.
  ghost predicate Miss(sh: Shared, th: Thread, sh': Shared, th': Thread) {
    && (th.phase.Restoring? || th.phase.Matching?) && th.stack != [] && sh' == sh
    && th' == th.(phase := Running)
  }

  ghost predicate Noted(sys: System, sh: Shared, th: Thread, sh': Shared, th': Thread, n: Name) {
    && th.phase.Running? && th.stack != [] && |Top(th).answers| < sys.limit(Top(th).key) && sh' == sh
    && sys.ask(Top(th).key, Top(th).answers) == Open(n)
    && th' == WithTop(th, Top(th).(touched := Note(Top(th).touched, sh.files, n))).(phase := Reading(n))
  }

  ghost predicate Read(sys: System, sh: Shared, th: Thread, sh': Shared, th': Thread) {
    && th.phase.Reading? && th.stack != [] && sh' == sh
    && th' == WithTop(th, Top(th).(answers := Top(th).answers + [sys.content(th.phase.n, At(sh.files, th.phase.n))]))
              .(phase := Running)
  }

  ghost predicate Nest(sys: System, sh: Shared, th: Thread, sh': Shared, th': Thread, key: Key) {
    && th.phase.Running? && th.stack != [] && |Top(th).answers| < sys.limit(Top(th).key) && sh' == sh
    && sys.ask(Top(th).key, Top(th).answers) == Use(key)
    && th' == th.(phase := Asking(key), log := NewLog(sh))
  }

  ghost predicate Finish(sys: System, sh: Shared, th: Thread, sh': Shared, th': Thread) {
    && th.phase.Running? && th.stack != [] && sh' == sh
    && var f := Top(th);
       if |f.answers| >= sys.limit(f.key) then th' == th.(phase := Ending(GaveUp))
       else
         match sys.ask(f.key, f.answers)
         case Done(v) => th' == th.(phase := Ending(Ok(v)))
         case Fail(why) => th' == th.(phase := Ending(Err(Broken(why))))
         case _ => false
  }

  // A build may stop at any point: a read fails, or its caller has gone.
  ghost predicate Abort(sh: Shared, th: Thread, sh': Shared, th': Thread, e: Failure) {
    && (th.phase.Running? || th.phase.Reading?) && th.stack != [] && sh' == sh
    && (e.Canceled? ==> !th.live) && th' == th.(phase := Ending(Err(e)))
  }

  // The persistent tier may not keep this key, or the read cannot be fingerprinted, or the store refused.
  ghost predicate SkipSave(sh: Shared, th: Thread, sh': Shared, th': Thread) {
    && (th.phase.Ending? || th.phase.Printing? || th.phase.Printed?) && th.stack != [] && sh' == sh
    && th' == th.(phase := Settling(th.phase.res))
  }

  ghost predicate Print(sys: System, sh: Shared, th: Thread, sh': Shared, th': Thread) {
    && th.phase.Ending? && th.stack != [] && sh' == sh
    && th.phase.res.Ok? && sys.kept(Top(th).key) && Top(th).touched != map[]
    && th' == th.(phase := Printing(th.phase.res, Top(th).touched.Keys, map[], sh.files))
  }

  // The fingerprint takes the names in any order. A name's stamp is compared first, and what it holds is read after.
  ghost predicate PrintStamp(sh: Shared, th: Thread, sh': Shared, th': Thread, n: Name) {
    && th.phase.Printing? && th.stack != [] && sh' == sh && n in th.phase.todo && n in Top(th).touched
    && At(sh.files, n) == Top(th).touched[n]
    && th' == th.(phase := Printed(th.phase.res, th.phase.todo, th.phase.got, th.phase.since, n))
  }

  ghost predicate PrintContent(sys: System, sh: Shared, th: Thread, sh': Shared, th': Thread) {
    && th.phase.Printed? && th.stack != [] && sh' == sh
    && var p := th.phase;
       th' == th.(phase := Printing(p.res, p.todo - {p.n}, p.got[p.n := sys.content(p.n, At(sh.files, p.n))], p.since))
  }

  ghost predicate Save(sh: Shared, th: Thread, sh': Shared, th': Thread) {
    && th.phase.Printing? && th.stack != [] && th.phase.todo == {} && th.phase.res.Ok?
    && th' == th.(phase := Settling(th.phase.res))
    && sh' == sh.(store := sh.store[Top(th).key := Record(th.phase.got, th.phase.res.v)])
  }

  predicate Unkeepable(res: Outcome, f: Frame) {
    res.Err? || f.touched == map[]
  }

  // A failed build, or one that noted no file, leaves the map before anyone waiting is told.
  ghost predicate Unmap(sh: Shared, th: Thread, sh': Shared, th': Thread) {
    && th.phase.Settling? && th.stack != [] && Unkeepable(th.phase.res, Top(th))
    && sh' == sh.(table := Drop(sh.table, Top(th).key, Top(th).id))
    && th' == th.(phase := Closing(th.phase.res))
  }

  ghost predicate StayMapped(sh: Shared, th: Thread, sh': Shared, th': Thread) {
    && th.phase.Settling? && th.stack != [] && !Unkeepable(th.phase.res, Top(th))
    && sh' == sh && th' == th.(phase := Closing(th.phase.res))
  }

  ghost predicate Close(sh: Shared, th: Thread, sh': Shared, th': Thread) {
    && th.phase.Closing? && th.stack != [] && Top(th).id in sh.table.cells
    && var f := Top(th);
       && sh' == sh.(table := Shut(sh.table, f.id, th.phase.res, f.touched),
                     spoiled := sh.spoiled + if Spoilt(th.phase.res, f.touched) then 1 else 0)
       && th' == th.(stack := Merged(Below(th), f.touched), phase := Leaving(f.key, th.phase.res, Elsewhere))
  }

  // The call is over: the client has its answer.
  ghost predicate Return(sh: Shared, th: Thread, sh': Shared, th': Thread) {
    th.phase.Leaving? && th.stack == [] && sh' == sh && th' == th.(phase := Idle)
  }

  // The call was a build's question. A failure is the build's failure.
  ghost predicate Answer(sh: Shared, th: Thread, sh': Shared, th': Thread) {
    && th.phase.Leaving? && th.stack != [] && th.phase.res.Ok? && sh' == sh
    && th' == WithTop(th, Top(th).(answers := Top(th).answers + [th.phase.res.v])).(phase := Running)
  }

  ghost predicate Propagate(sh: Shared, th: Thread, sh': Shared, th': Thread) {
    && th.phase.Leaving? && th.stack != [] && th.phase.res.Err? && sh' == sh
    && th' == th.(phase := Ending(th.phase.res))
  }

  ghost predicate PeekLook(sh: Shared, th: Thread, sh': Shared, th': Thread) {
    && th.phase.Peeking?
    && if th.phase.key in sh.table.entries
       then && sh' == sh.(table := Bump(sh.table, th.phase.key))
            && th' == th.(phase := Peeked(th.phase.key, sh.table.entries[th.phase.key]))
       else sh' == sh && th' == th.(phase := Leaving(th.phase.key, Err(NotKept), Elsewhere))
  }

  // peek does not wait: an entry still being built is no answer.
  ghost predicate Glance(sh: Shared, th: Thread, sh': Shared, th': Thread) {
    && th.phase.Peeked? && th.phase.id in sh.table.cells && Servable(sh.table.cells[th.phase.id]) && sh' == sh
    && th' == th.(phase := CheckOf(sh, th.phase.key, th.phase.id, true))
  }

  ghost predicate Overlook(sh: Shared, th: Thread, sh': Shared, th': Thread) {
    && th.phase.Peeked? && th.phase.id in sh.table.cells && !Servable(sh.table.cells[th.phase.id]) && sh' == sh
    && th' == th.(phase := Leaving(th.phase.key, Err(NotKept), Elsewhere))
  }

  ghost predicate CallStep(sys: System, tid: nat, sh: Shared, th: Thread, sh': Shared, th': Thread) {
    || (exists key :: Start(sh, th, sh', th', key))
    || (exists key :: StartPeek(sh, th, sh', th', key))
    || Join(sh, th, sh', th') || Begin(sys, tid, sh, th, sh', th')
    || Wake(sh, th, sh', th') || WakeToNothing(sh, th, sh', th') || GiveUp(sh, th, sh', th')
    || (exists n :: CheckName(sh, th, sh', th', n))
    || Serve(sh, th, sh', th') || Retry(sh, th, sh', th') || TakeFailure(sh, th, sh', th')
    || Return(sh, th, sh', th') || PeekLook(sh, th, sh', th')
    || Glance(sh, th, sh', th') || Overlook(sh, th, sh', th')
  }

  // The persistent tier's part of a build.
  ghost predicate TierStep(sys: System, sh: Shared, th: Thread, sh': Shared, th': Thread) {
    || Fetch(sys, sh, th, sh', th')
    || (exists n :: MatchContent(sys, sh, th, sh', th', n))
    || MatchStamp(sh, th, sh', th')
    || Restore(sh, th, sh', th') || Miss(sh, th, sh', th')
    || SkipSave(sh, th, sh', th') || Print(sys, sh, th, sh', th')
    || (exists n :: PrintStamp(sh, th, sh', th', n))
    || PrintContent(sys, sh, th, sh', th') || Save(sh, th, sh', th')
  }

  ghost predicate WorkStep(sys: System, sh: Shared, th: Thread, sh': Shared, th': Thread) {
    || (exists n :: Noted(sys, sh, th, sh', th', n))
    || Read(sys, sh, th, sh', th')
    || (exists key :: Nest(sys, sh, th, sh', th', key))
    || Finish(sys, sh, th, sh', th')
    || (exists e :: Abort(sh, th, sh', th', e))
    || Unmap(sh, th, sh', th') || StayMapped(sh, th, sh', th') || Close(sh, th, sh', th')
    || Answer(sh, th, sh', th') || Propagate(sh, th, sh', th')
  }

  ghost predicate BuildStep(sys: System, sh: Shared, th: Thread, sh': Shared, th': Thread) {
    TierStep(sys, sh, th, sh', th') || WorkStep(sys, sh, th, sh', th')
  }

  ghost predicate Act(sys: System, tid: nat, sh: Shared, th: Thread, sh': Shared, th': Thread) {
    CallStep(sys, tid, sh, th, sh', th') || BuildStep(sys, sh, th, sh', th')
  }

  ghost predicate ThreadStep(sys: System, s: State, s': State, tid: nat) {
    && tid in s.threads && tid in s'.threads && s'.threads == s.threads[tid := s'.threads[tid]]
    && Act(sys, tid, s.sh, s.threads[tid], s'.sh, s'.threads[tid])
  }

  // Between the two looks a fingerprint takes at a name.
  predicate InWindow(th: Thread, n: Name) {
    (th.phase.Matched? || th.phase.Printed?) && th.phase.n == n
  }

  // The next edit of n leaves what it holds as it is, wherever a fingerprint is between its two looks at it.
  ghost predicate Spares(sys: System, s: State, n: Name) {
    forall tid | tid in s.threads && InWindow(s.threads[tid], n) ::
      sys.content(n, s.sh.clock + 1) == sys.content(n, At(s.sh.files, n))
  }

  // Someone edits, creates or removes a file.
  ghost predicate Edit(sys: System, s: State, s': State, n: Name) {
    && (sys.spared ==> Spares(sys, s, n))
    && s'.threads == s.threads
    && s'.sh == s.sh.(files := s.sh.files[n := s.sh.clock + 1], clock := s.sh.clock + 1)
  }

  // A caller goes away.
  ghost predicate Cancel(s: State, s': State, tid: nat) {
    && s'.sh == s.sh && tid in s.threads && s'.threads == s.threads[tid := s.threads[tid].(live := false)]
  }

  ghost predicate Next(sys: System, s: State, s': State) {
    || (exists tid :: ThreadStep(sys, s, s', tid))
    || (exists n :: Edit(sys, s, s', n))
    || (exists tid :: Cancel(s, s', tid))
  }

  // A record is sound when a build over any contents it matches gives its value.
  ghost predicate Holds(c: Name -> Content, seen: map<Name, Content>) {
    forall n | n in seen :: c(n) == seen[n]
  }

  ghost predicate RecordInv(sys: System, k: Key, r: Record) {
    sys.spared ==>
      forall c: Name -> Content {:trigger Holds(c, r.seen)} | Holds(c, r.seen) :: Eval(sys, k, [], c) == Ok(r.v)
  }

  // A fresh process: nothing in memory, and a store that may hold sound records of earlier processes.
  ghost predicate Init(sys: System, s: State) {
    && s.sh.table == Table(map[], map[], map[], 0, 0) && s.sh.spoiled == 0
    && (forall k | k in s.sh.store :: RecordInv(sys, k, s.sh.store[k]))
    && (forall n | n in s.sh.files :: s.sh.files[n] <= s.sh.clock)
    && (forall tid | tid in s.threads :: s.threads[tid].phase.Idle? && s.threads[tid].stack == [])
  }

  ghost predicate Steps(sys: System, r: seq<State>, i: nat)
    requires i + 1 < |r|
  {
    Next(sys, r[i], r[i + 1])
  }

  // A run from a fresh process, of any length, in any interleaving.
  ghost predicate Run(sys: System, r: seq<State>) {
    r != [] && Init(sys, r[0]) && forall i: nat | i + 1 < |r| :: Steps(sys, r, i)
  }
}
