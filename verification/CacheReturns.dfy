// Every call returns. What is left to do is measured level by level: a call weighs more than the build it may start, and a
// question a build asks of the cache weighs nothing at the build's own level. Below the levels come the retries still
// possible with the entries there are, and below those the small steps of each phase.
module CacheReturns {
  import opened Recency
  import opened Recorders
  import opened DesignCache
  import opened CacheProtocol
  import opened CacheSafety
  import opened CacheTheorems
  import opened CacheProgress

  /* ---- what a thread still has to do ---- */

  function Left(sys: System, f: Frame): nat {
    if |f.answers| < sys.limit(f.key) then sys.limit(f.key) - |f.answers| else 0
  }

  // A build waiting for an answer to a question.
  function Mid(sys: System, f: Frame): nat {
    if |f.answers| < sys.limit(f.key) then Left(sys, f) + 2 else 3
  }

  function MidSum(sys: System, stack: seq<Frame>, l: nat): nat {
    if stack == [] then 0
    else
      var f := stack[|stack| - 1];
      MidSum(sys, stack[..|stack| - 1], l) + if sys.level(f.key) == l then Mid(sys, f) else 0
  }

  // The phases of the build on top.
  predicate Building(p: Phase) {
    || p.Restoring? || p.Matching? || p.Matched? || p.Running? || p.Reading? || p.Ending? || p.Printing? || p.Printed?
    || p.Settling? || p.Closing?
  }

  function TopWeight(sys: System, p: Phase, f: Frame): nat {
    if p.Settling? || p.Closing? then 1
    else if p.Ending? || p.Printing? || p.Printed? then 2
    else Left(sys, f) + 3
  }

  // The key a call is for, until it has its answer.
  function Calling(p: Phase): set<Key> {
    match p
    case Asking(k) => {k}
    case Waiting(k, _) => {k}
    case Checking(k, _, _, _, _) => {k}
    case Dropping(k, _) => {k}
    case Peeking(k) => {k}
    case Peeked(k, _) => {k}
    case _ => {}
  }

  function CallWeight(sys: System, p: Phase, l: nat): nat {
    match p
    case Asking(k) => Weigh(sys, k, l)
    case Waiting(k, _) => Weigh(sys, k, l)
    case Checking(k, _, _, _, _) => Weigh(sys, k, l)
    case Dropping(k, _) => Weigh(sys, k, l)
    case Peeking(k) => Weigh(sys, k, l)
    case Peeked(k, _) => Weigh(sys, k, l)
    case _ => 0
  }

  function Weigh(sys: System, k: Key, l: nat): nat {
    if sys.level(k) == l then sys.limit(k) + 4 else 0
  }

  function Tokens(sys: System, th: Thread, l: nat): nat {
    if Building(th.phase) && th.stack != [] then
      MidSum(sys, Below(th), l) + if sys.level(Top(th).key) == l then TopWeight(sys, th.phase, Top(th)) else 0
    else MidSum(sys, th.stack, l) + CallWeight(sys, th.phase, l)
  }

  // The retries a call may still make with the entries the map holds.
  function Retries(sh: Shared, th: Thread): nat {
    match th.phase
    case Asking(k) => if k in sh.table.entries then 1 else 0
    case Waiting(k, id) => RetriesFrom(sh, k, id)
    case Checking(k, id, _, _, peek) => if peek then 0 else RetriesFrom(sh, k, id)
    case Dropping(k, id) => RetriesFrom(sh, k, id)
    case _ => 0
  }

  function RetriesFrom(sh: Shared, k: Key, id: EntryId): nat {
    if k in sh.table.entries && sh.table.entries[k] != id then 2 else 1
  }

  function Names(sh: Shared, id: EntryId): nat {
    if id in sh.table.cells then |sh.table.cells[id].touched.Keys| else 0
  }

  function NamesAt(sh: Shared, k: Key): nat {
    if k in sh.table.entries then Names(sh, sh.table.entries[k]) + 5 else 0
  }

  // The small steps before a phase is over.
  function Small(sh: Shared, th: Thread): nat {
    match th.phase
    case Idle => 0
    case Asking(k) => NamesAt(sh, k)
    case Waiting(_, id) => Names(sh, id) + 4
    case Checking(_, _, left, _, _) => |left| + 3
    case Dropping(_, _) => 2
    case Restoring =>
      if th.stack != [] && Top(th).key in sh.store then 2 * |sh.store[Top(th).key].seen.Keys| + 4 else 4
    case Matching(_, todo, _) => 2 * |todo| + 3
    case Matched(_, todo, _, _) => 2 * |todo| + 2
    case Running => 1
    case Reading(_) => 0
    case Ending(_) => if th.stack != [] then 2 * |Top(th).touched.Keys| + 4 else 4
    case Printing(_, todo, _, _) => 2 * |todo| + 3
    case Printed(_, todo, _, _, _) => 2 * |todo| + 2
    case Settling(_) => 1
    case Closing(_) => 0
    case Leaving(_, _, _) => 2
    case Peeking(k) => NamesAt(sh, k)
    case Peeked(_, id) => Names(sh, id) + 4
  }

  /* ---- every step of a call has less left to do ---- */

  // Less at level l, and the same above it.
  ghost predicate FallsAt(sys: System, th: Thread, th': Thread, l: nat) {
    && Tokens(sys, th', l) < Tokens(sys, th, l)
    && forall m: nat | m > l :: Tokens(sys, th', m) == Tokens(sys, th, m)
  }

  // Nothing is added to the cache but stamps.
  ghost predicate Shrinks(sh: Shared, sh': Shared) {
    && sh'.table.cells == sh.table.cells && sh'.store == sh.store
    && forall k | k in sh'.table.entries :: k in sh.table.entries && sh'.table.entries[k] == sh.table.entries[k]
  }

  ghost predicate Settled(sys: System, sh: Shared, th: Thread, sh': Shared, th': Thread) {
    && (forall l: nat :: Tokens(sys, th', l) == Tokens(sys, th, l)) && Shrinks(sh, sh')
    && Retries(sh', th') <= Retries(sh, th)
    && (Retries(sh', th') < Retries(sh, th) || Small(sh', th') < Small(sh, th))
  }

  ghost predicate Advances(sys: System, sh: Shared, th: Thread, sh': Shared, th': Thread) {
    (exists l: nat :: FallsAt(sys, th, th', l)) || Settled(sys, sh, th, sh', th')
  }

  lemma MergedWeighsTheSame(sys: System, stack: seq<Frame>, t: Touched, l: nat)
    ensures MidSum(sys, Merged(stack, t), l) == MidSum(sys, stack, l)
  {
    if stack != [] {
      var below, top := stack[..|stack| - 1], stack[|stack| - 1];
      assert Merged(stack, t)[..|stack| - 1] == below;
    }
  }

  lemma PushedWeighs(sys: System, below: seq<Frame>, f: Frame, l: nat)
    ensures MidSum(sys, below + [f], l) == MidSum(sys, below, l) + if sys.level(f.key) == l then Mid(sys, f) else 0
  {
    assert (below + [f])[..|below|] == below;
  }

  lemma TopIsPushed(sys: System, th: Thread, l: nat)
    requires th.stack != []
    ensures MidSum(sys, th.stack, l)
            == MidSum(sys, Below(th), l) + if sys.level(Top(th).key) == l then Mid(sys, Top(th)) else 0
  {
  }

  // A call that has its answer.
  lemma CallEnds(sys: System, th: Thread, th': Thread, k: Key, t: Touched)
    requires Calling(th.phase) == {k} && th'.phase.Leaving?
    requires th'.stack == th.stack || th'.stack == Merged(th.stack, t)
    ensures FallsAt(sys, th, th', sys.level(k))
  {
    forall l: nat ensures MidSum(sys, th'.stack, l) == MidSum(sys, th.stack, l) {
      MergedWeighsTheSame(sys, th.stack, t, l);
    }
    assert k in Calling(th.phase);
  }

  // A step within one call, or within one build, that weighs the same.
  lemma SameWeight(sys: System, th: Thread, th': Thread)
    requires th'.stack == th.stack
    requires || (exists k :: Calling(th.phase) == {k} && Calling(th'.phase) == {k})
             || (th.stack != [] && Building(th.phase) && Building(th'.phase)
                 && TopWeight(sys, th'.phase, Top(th)) == TopWeight(sys, th.phase, Top(th)))
    ensures forall l: nat :: Tokens(sys, th', l) == Tokens(sys, th, l)
  {
    if k :| Calling(th.phase) == {k} && Calling(th'.phase) == {k} {
      assert k in Calling(th.phase) && k in Calling(th'.phase);
    }
  }

  // A build that comes nearer its end.
  lemma TopFalls(sys: System, th: Thread, th': Thread)
    requires th.stack != [] && th'.stack != [] && Below(th') == Below(th) && Building(th.phase) && Building(th'.phase)
    requires Top(th').key == Top(th).key
    requires TopWeight(sys, th'.phase, Top(th')) < TopWeight(sys, th.phase, Top(th))
    ensures FallsAt(sys, th, th', sys.level(Top(th).key))
  {
  }

  lemma StackAfterTop(th: Thread, f: Frame, p: Phase)
    requires th.stack != []
    ensures WithTop(th, f).(phase := p).stack != [] && Below(WithTop(th, f).(phase := p)) == Below(th)
    ensures Top(WithTop(th, f).(phase := p)) == f
  {
  }

  lemma JoinAdvances(sys: System, sh: Shared, th: Thread, sh': Shared, th': Thread)
    requires Join(sh, th, sh', th')
    ensures Advances(sys, sh, th, sh', th')
  {
    assert Calling(th.phase) == {th.phase.key} && Calling(th'.phase) == {th.phase.key};
    SameWeight(sys, th, th');
  }

  lemma BeginAdvances(sys: System, tid: nat, sh: Shared, th: Thread, sh': Shared, th': Thread)
    requires Begin(sys, tid, sh, th, sh', th')
    ensures Advances(sys, sh, th, sh', th')
  {
    assert Below(th') == th.stack;
    assert FallsAt(sys, th, th', sys.level(th.phase.key));
  }

  lemma WakeAdvances(sys: System, sh: Shared, th: Thread, sh': Shared, th': Thread)
    requires Wake(sh, th, sh', th') || WakeToNothing(sh, th, sh', th') || Glance(sh, th, sh', th')
    ensures Advances(sys, sh, th, sh', th')
  {
    assert Calling(th.phase) == {th.phase.key} && Calling(th'.phase) == {th.phase.key};
    SameWeight(sys, th, th');
  }

  lemma CheckNameAdvances(sys: System, sh: Shared, th: Thread, sh': Shared, th': Thread, n: Name)
    requires CheckName(sh, th, sh', th', n)
    ensures Advances(sys, sh, th, sh', th')
  {
    if th'.phase.Leaving? {
      CallEnds(sys, th, th', th.phase.key, map[]);
    } else {
      assert Calling(th.phase) == {th.phase.key} && Calling(th'.phase) == {th.phase.key};
      SameWeight(sys, th, th');
    }
  }

  // A retry: the entry dropped is never found again.
  lemma RetryAdvances(sys: System, sh: Shared, th: Thread, sh': Shared, th': Thread)
    requires Retry(sh, th, sh', th')
    ensures Advances(sys, sh, th, sh', th')
  {
    assert Calling(th.phase) == {th.phase.key} && Calling(th'.phase) == {th.phase.key};
    SameWeight(sys, th, th');
  }

  lemma CallEndsAdvances(sys: System, sh: Shared, th: Thread, sh': Shared, th': Thread)
    requires || GiveUp(sh, th, sh', th') || Serve(sh, th, sh', th') || TakeFailure(sh, th, sh', th')
             || Overlook(sh, th, sh', th')
    ensures Advances(sys, sh, th, sh', th')
  {
    assert Calling(th.phase) == {th.phase.key};
    if Serve(sh, th, sh', th') {
      CallEnds(sys, th, th', th.phase.key, sh.table.cells[th.phase.id].touched);
    } else {
      CallEnds(sys, th, th', th.phase.key, map[]);
    }
  }

  lemma PeekLookAdvances(sys: System, sh: Shared, th: Thread, sh': Shared, th': Thread)
    requires PeekLook(sh, th, sh', th')
    ensures Advances(sys, sh, th, sh', th')
  {
    assert Calling(th.phase) == {th.phase.key};
    if th.phase.key in sh.table.entries {
      assert Calling(th'.phase) == {th.phase.key};
      SameWeight(sys, th, th');
    } else {
      CallEnds(sys, th, th', th.phase.key, map[]);
    }
  }

  lemma ReturnAdvances(sys: System, sh: Shared, th: Thread, sh': Shared, th': Thread)
    requires Return(sh, th, sh', th')
    ensures Advances(sys, sh, th, sh', th')
  {
  }

  lemma CallAdvances(sys: System, tid: nat, sh: Shared, th: Thread, sh': Shared, th': Thread)
    requires CallStep(sys, tid, sh, th, sh', th') && !th.phase.Idle?
    ensures Advances(sys, sh, th, sh', th')
  {
    if Join(sh, th, sh', th') { JoinAdvances(sys, sh, th, sh', th'); }
    else if Begin(sys, tid, sh, th, sh', th') { BeginAdvances(sys, tid, sh, th, sh', th'); }
    else if Wake(sh, th, sh', th') || WakeToNothing(sh, th, sh', th') || Glance(sh, th, sh', th') {
      WakeAdvances(sys, sh, th, sh', th');
    } else if n :| CheckName(sh, th, sh', th', n) { CheckNameAdvances(sys, sh, th, sh', th', n); }
    else if Retry(sh, th, sh', th') { RetryAdvances(sys, sh, th, sh', th'); }
    else if PeekLook(sh, th, sh', th') { PeekLookAdvances(sys, sh, th, sh', th'); }
    else if Return(sh, th, sh', th') { ReturnAdvances(sys, sh, th, sh', th'); }
    else { CallEndsAdvances(sys, sh, th, sh', th'); }
  }

  lemma FewerTodo(todo: set<Name>, n: Name)
    requires n in todo
    ensures |todo - {n}| + 1 == |todo|
  {
    assert todo == (todo - {n}) + {n};
  }

  lemma FetchAdvances(sys: System, sh: Shared, th: Thread, sh': Shared, th': Thread)
    requires Fetch(sys, sh, th, sh', th') || Miss(sh, th, sh', th') || Print(sys, sh, th, sh', th')
    ensures Advances(sys, sh, th, sh', th')
  {
    SameWeight(sys, th, th');
  }

  lemma MatchContentAdvances(sys: System, sh: Shared, th: Thread, sh': Shared, th': Thread, n: Name)
    requires MatchContent(sys, sh, th, sh', th', n)
    ensures Advances(sys, sh, th, sh', th')
  {
    SameWeight(sys, th, th');
  }

  lemma PrintStampAdvances(sys: System, sh: Shared, th: Thread, sh': Shared, th': Thread, n: Name)
    requires PrintStamp(sh, th, sh', th', n)
    ensures Advances(sys, sh, th, sh', th')
  {
    SameWeight(sys, th, th');
  }

  lemma MatchStampAdvances(sys: System, sh: Shared, th: Thread, sh': Shared, th': Thread)
    requires th.phase.Matched? && th.phase.n in th.phase.todo && MatchStamp(sh, th, sh', th')
    ensures Advances(sys, sh, th, sh', th')
  {
    SameWeight(sys, th, th');
    FewerTodo(th.phase.todo, th.phase.n);
  }

  lemma PrintContentAdvances(sys: System, sh: Shared, th: Thread, sh': Shared, th': Thread)
    requires th.phase.Printed? && th.phase.n in th.phase.todo && PrintContent(sys, sh, th, sh', th')
    ensures Advances(sys, sh, th, sh', th')
  {
    SameWeight(sys, th, th');
    FewerTodo(th.phase.todo, th.phase.n);
  }

  lemma TierAdvances(sys: System, sh: Shared, th: Thread, sh': Shared, th': Thread)
    requires PhaseInv(sys, sh, th) && TierStep(sys, sh, th, sh', th')
    ensures Advances(sys, sh, th, sh', th')
  {
    if Restore(sh, th, sh', th') {
      StackAfterTop(th, Top(th).(touched := th.phase.t), th'.phase);
      TopFalls(sys, th, th');
    } else if SkipSave(sh, th, sh', th') || Save(sh, th, sh', th') {
      TopFalls(sys, th, th');
    } else if n :| MatchContent(sys, sh, th, sh', th', n) {
      MatchContentAdvances(sys, sh, th, sh', th', n);
    } else if n :| PrintStamp(sh, th, sh', th', n) {
      PrintStampAdvances(sys, sh, th, sh', th', n);
    } else if MatchStamp(sh, th, sh', th') {
      MatchStampAdvances(sys, sh, th, sh', th');
    } else if PrintContent(sys, sh, th, sh', th') {
      PrintContentAdvances(sys, sh, th, sh', th');
    } else {
      FetchAdvances(sys, sh, th, sh', th');
    }
  }

  lemma NotedAdvances(sys: System, sh: Shared, th: Thread, sh': Shared, th': Thread, n: Name)
    requires Noted(sys, sh, th, sh', th', n)
    ensures Advances(sys, sh, th, sh', th')
  {
    StackAfterTop(th, Top(th).(touched := Note(Top(th).touched, sh.files, n)), th'.phase);
    assert forall l: nat :: Tokens(sys, th', l) == Tokens(sys, th, l);
  }

  lemma ReadAdvances(sys: System, sh: Shared, th: Thread, sh': Shared, th': Thread)
    requires Read(sys, sh, th, sh', th') && |Top(th).answers| < sys.limit(Top(th).key)
    ensures Advances(sys, sh, th, sh', th')
  {
    StackAfterTop(th, Top(th).(answers := Top(th).answers + [sys.content(th.phase.n, At(sh.files, th.phase.n))]), th'.phase);
    TopFalls(sys, th, th');
  }

  lemma NestAdvances(sys: System, sh: Shared, th: Thread, sh': Shared, th': Thread, key: Key)
    requires Sane(sys) && Nest(sys, sh, th, sh', th', key)
    ensures Advances(sys, sh, th, sh', th') && sys.level(key) < sys.level(Top(th).key)
  {
    var top := Top(th);
    assert sys.ask(top.key, top.answers).Use?;
    forall l: nat | l >= sys.level(top.key)
      ensures MidSum(sys, th'.stack, l) == MidSum(sys, Below(th), l) + if sys.level(top.key) == l then Mid(sys, top) else 0
    {
      TopIsPushed(sys, th, l);
    }
    assert FallsAt(sys, th, th', sys.level(top.key));
  }

  lemma EndsAdvances(sys: System, sh: Shared, th: Thread, sh': Shared, th': Thread)
    requires Finish(sys, sh, th, sh', th') || (exists e :: Abort(sh, th, sh', th', e))
    ensures Advances(sys, sh, th, sh', th')
  {
    TopFalls(sys, th, th');
  }

  lemma UnmapAdvances(sys: System, sh: Shared, th: Thread, sh': Shared, th': Thread)
    requires Unmap(sh, th, sh', th') || StayMapped(sh, th, sh', th')
    ensures Advances(sys, sh, th, sh', th')
  {
    SameWeight(sys, th, th');
  }

  lemma CloseAdvances(sys: System, sh: Shared, th: Thread, sh': Shared, th': Thread)
    requires Close(sh, th, sh', th')
    ensures Advances(sys, sh, th, sh', th')
  {
    forall l: nat ensures MidSum(sys, th'.stack, l) == MidSum(sys, Below(th), l) {
      MergedWeighsTheSame(sys, Below(th), Top(th).touched, l);
    }
    assert FallsAt(sys, th, th', sys.level(Top(th).key));
  }

  lemma AnswerAdvances(sys: System, sh: Shared, th: Thread, sh': Shared, th': Thread)
    requires Answer(sh, th, sh', th') && |Top(th).answers| < sys.limit(Top(th).key)
    ensures Advances(sys, sh, th, sh', th')
  {
    StackAfterTop(th, Top(th).(answers := Top(th).answers + [th.phase.res.v]), th'.phase);
    forall l: nat ensures Tokens(sys, th', l) == Tokens(sys, th, l) {
      TopIsPushed(sys, th, l);
    }
  }

  lemma PropagateAdvances(sys: System, sh: Shared, th: Thread, sh': Shared, th': Thread)
    requires Propagate(sh, th, sh', th')
    ensures Advances(sys, sh, th, sh', th')
  {
    forall l: nat ensures MidSum(sys, th.stack, l)
                          == MidSum(sys, Below(th), l) + if sys.level(Top(th).key) == l then Mid(sys, Top(th)) else 0
    {
      TopIsPushed(sys, th, l);
    }
    assert FallsAt(sys, th, th', sys.level(Top(th).key));
  }

  lemma WorkAdvances(sys: System, sh: Shared, th: Thread, sh': Shared, th': Thread)
    requires Sane(sys) && PhaseInv(sys, sh, th) && WorkStep(sys, sh, th, sh', th')
    ensures Advances(sys, sh, th, sh', th')
  {
    if n :| Noted(sys, sh, th, sh', th', n) { NotedAdvances(sys, sh, th, sh', th', n); }
    else if Read(sys, sh, th, sh', th') { ReadAdvances(sys, sh, th, sh', th'); }
    else if key :| Nest(sys, sh, th, sh', th', key) { NestAdvances(sys, sh, th, sh', th', key); }
    else if Unmap(sh, th, sh', th') || StayMapped(sh, th, sh', th') { UnmapAdvances(sys, sh, th, sh', th'); }
    else if Close(sh, th, sh', th') { CloseAdvances(sys, sh, th, sh', th'); }
    else if Answer(sh, th, sh', th') { AnswerAdvances(sys, sh, th, sh', th'); }
    else if Propagate(sh, th, sh', th') { PropagateAdvances(sys, sh, th, sh', th'); }
    else { EndsAdvances(sys, sh, th, sh', th'); }
  }

  // Every step of a call in progress advances it.
  lemma ActAdvances(sys: System, tid: nat, sh: Shared, th: Thread, sh': Shared, th': Thread)
    requires Sane(sys) && PhaseInv(sys, sh, th) && !th.phase.Idle? && Act(sys, tid, sh, th, sh', th')
    ensures Advances(sys, sh, th, sh', th')
  {
    if CallStep(sys, tid, sh, th, sh', th') {
      CallAdvances(sys, tid, sh, th, sh', th');
    } else if TierStep(sys, sh, th, sh', th') {
      TierAdvances(sys, sh, th, sh', th');
    } else {
      WorkAdvances(sys, sh, th, sh', th');
    }
  }

  /* ---- all threads together ---- */

  ghost function SumOf(f: Thread -> nat, threads: map<nat, Thread>): nat
    decreases |threads|
  {
    if threads == map[] then 0
    else
      var tid :| tid in threads;
      assert (threads - {tid}).Keys == threads.Keys - {tid};
      f(threads[tid]) + SumOf(f, threads - {tid})
  }

  lemma {:induction false} SumSplits(f: Thread -> nat, threads: map<nat, Thread>, tid: nat)
    requires tid in threads
    ensures SumOf(f, threads) == f(threads[tid]) + SumOf(f, threads - {tid})
    decreases |threads|
  {
    var u :| u in threads && SumOf(f, threads) == f(threads[u]) + SumOf(f, threads - {u});
    if u != tid {
      assert (threads - {u}).Keys == threads.Keys - {u};
      SumSplits(f, threads - {u}, tid);
      assert threads - {u} - {tid} == threads - {tid} - {u};
      assert (threads - {tid}).Keys == threads.Keys - {tid};
      SumSplits(f, threads - {tid}, u);
    }
  }

  lemma {:induction false} SumGrows(f: Thread -> nat, g: Thread -> nat, a: map<nat, Thread>, b: map<nat, Thread>)
    requires a.Keys == b.Keys && forall tid | tid in a :: f(a[tid]) <= g(b[tid])
    ensures SumOf(f, a) <= SumOf(g, b)
    decreases |a|
  {
    if a == map[] {
      assert b.Keys == {};
    } else {
      var tid :| tid in a;
      SumSplits(f, a, tid);
      SumSplits(g, b, tid);
      assert (a - {tid}).Keys == a.Keys - {tid} == (b - {tid}).Keys;
      SumGrows(f, g, a - {tid}, b - {tid});
    }
  }

  lemma SumIsSame(f: Thread -> nat, g: Thread -> nat, a: map<nat, Thread>, b: map<nat, Thread>)
    requires a.Keys == b.Keys && forall tid | tid in a :: f(a[tid]) == g(b[tid])
    ensures SumOf(f, a) == SumOf(g, b)
  {
    SumGrows(f, g, a, b);
    SumGrows(g, f, b, a);
  }

  // One thread has less, and no other more.
  lemma SumFalls(f: Thread -> nat, g: Thread -> nat, a: map<nat, Thread>, b: map<nat, Thread>, tid: nat)
    requires a.Keys == b.Keys && tid in a && forall u | u in a :: f(a[u]) <= g(b[u])
    requires f(a[tid]) < g(b[tid])
    ensures SumOf(f, a) < SumOf(g, b)
  {
    SumSplits(f, a, tid);
    SumSplits(g, b, tid);
    assert (a - {tid}).Keys == a.Keys - {tid} == (b - {tid}).Keys;
    SumGrows(f, g, a - {tid}, b - {tid});
  }

  function TokensOf(sys: System, l: nat): Thread -> nat {
    th => Tokens(sys, th, l)
  }

  function RetriesOf(sh: Shared): Thread -> nat {
    th => Retries(sh, th)
  }

  function SmallOf(sh: Shared): Thread -> nat {
    th => Small(sh, th)
  }

  ghost function LevelTotal(sys: System, s: State, l: nat): nat {
    SumOf(TokensOf(sys, l), s.threads)
  }

  // What is left in a state whose levels are all below top: by level from the highest, and then retries and small steps.
  ghost function Measure(sys: System, s: State, top: nat): (m: seq<nat>)
    ensures |m| == top + 2
    ensures m[top] == SumOf(RetriesOf(s.sh), s.threads) && m[top + 1] == SumOf(SmallOf(s.sh), s.threads)
    ensures forall i | 0 <= i < top :: m[i] == LevelTotal(sys, s, top - 1 - i)
  {
    LevelsLeft(sys, s, top) + [SumOf(RetriesOf(s.sh), s.threads), SumOf(SmallOf(s.sh), s.threads)]
  }

  ghost function LevelsLeft(sys: System, s: State, top: nat): (m: seq<nat>)
    ensures |m| == top && forall i | 0 <= i < top :: m[i] == LevelTotal(sys, s, top - 1 - i)
  {
    if top == 0 then [] else [LevelTotal(sys, s, top - 1)] + LevelsLeft(sys, s, top - 1)
  }

  // Less at the first place where they differ.
  ghost predicate LessAt(a: seq<nat>, b: seq<nat>, i: nat) {
    |a| == |b| && i < |a| && a[i] < b[i] && forall j | 0 <= j < i :: a[j] == b[j]
  }

  ghost predicate Less(a: seq<nat>, b: seq<nat>) {
    exists i: nat :: LessAt(a, b, i)
  }

  ghost predicate NoneAt(sys: System, th: Thread, top: nat) {
    forall l: nat | l >= top :: Tokens(sys, th, l) == 0
  }

  ghost predicate Topped(sys: System, s: State, top: nat) {
    forall tid | tid in s.threads :: NoneAt(sys, s.threads[tid], top)
  }

  // A step of one thread's call.
  ghost predicate BusyStep(sys: System, s: State, s': State) {
    exists tid :: ThreadStep(sys, s, s', tid) && !s.threads[tid].phase.Idle?
  }

  // Nothing of the others changes.
  ghost predicate OneMoves(s: State, s': State, tid: nat) {
    tid in s.threads && tid in s'.threads && s'.threads == s.threads[tid := s'.threads[tid]]
  }

  lemma LevelIsSame(sys: System, s: State, s': State, tid: nat, l: nat)
    requires OneMoves(s, s', tid) && Tokens(sys, s'.threads[tid], l) == Tokens(sys, s.threads[tid], l)
    ensures LevelTotal(sys, s', l) == LevelTotal(sys, s, l)
  {
    SumIsSame(TokensOf(sys, l), TokensOf(sys, l), s'.threads, s.threads);
  }

  lemma LevelFalls(sys: System, s: State, s': State, tid: nat, l: nat)
    requires OneMoves(s, s', tid) && Tokens(sys, s'.threads[tid], l) < Tokens(sys, s.threads[tid], l)
    ensures LevelTotal(sys, s', l) < LevelTotal(sys, s, l)
  {
    SumFalls(TokensOf(sys, l), TokensOf(sys, l), s'.threads, s.threads, tid);
  }

  lemma FallsStaysTopped(sys: System, th: Thread, th': Thread, l: nat, top: nat)
    requires NoneAt(sys, th, top) && FallsAt(sys, th, th', l)
    ensures l < top && NoneAt(sys, th', top)
  {
    assert Tokens(sys, th, l) > 0;
  }

  lemma FallsBelowTop(sys: System, s: State, s': State, tid: nat, l: nat, top: nat)
    requires Topped(sys, s, top) && OneMoves(s, s', tid) && FallsAt(sys, s.threads[tid], s'.threads[tid], l)
    ensures Topped(sys, s', top) && Less(Measure(sys, s', top), Measure(sys, s, top))
  {
    FallsStaysTopped(sys, s.threads[tid], s'.threads[tid], l, top);
    var a, b, i := Measure(sys, s', top), Measure(sys, s, top), top - 1 - l;
    LevelFalls(sys, s, s', tid, l);
    forall j | 0 <= j < i ensures a[j] == b[j] {
      LevelIsSame(sys, s, s', tid, top - 1 - j);
    }
    assert LessAt(a, b, i);
  }

  lemma OthersHaveNoMore(sh: Shared, sh': Shared, th: Thread)
    requires Shrinks(sh, sh')
    ensures Retries(sh', th) <= Retries(sh, th) && Small(sh', th) <= Small(sh, th)
  {
  }

  lemma RetriesFall(s: State, s': State, tid: nat)
    requires OneMoves(s, s', tid) && Shrinks(s.sh, s'.sh)
    requires Retries(s'.sh, s'.threads[tid]) <= Retries(s.sh, s.threads[tid])
    ensures SumOf(RetriesOf(s'.sh), s'.threads) <= SumOf(RetriesOf(s.sh), s.threads)
    ensures Retries(s'.sh, s'.threads[tid]) < Retries(s.sh, s.threads[tid]) ==>
              SumOf(RetriesOf(s'.sh), s'.threads) < SumOf(RetriesOf(s.sh), s.threads)
  {
    forall u | u in s'.threads ensures RetriesOf(s'.sh)(s'.threads[u]) <= RetriesOf(s.sh)(s.threads[u]) {
      OthersHaveNoMore(s.sh, s'.sh, s.threads[u]);
    }
    SumGrows(RetriesOf(s'.sh), RetriesOf(s.sh), s'.threads, s.threads);
    if Retries(s'.sh, s'.threads[tid]) < Retries(s.sh, s.threads[tid]) {
      SumFalls(RetriesOf(s'.sh), RetriesOf(s.sh), s'.threads, s.threads, tid);
    }
  }

  lemma SmallFalls(s: State, s': State, tid: nat)
    requires OneMoves(s, s', tid) && Shrinks(s.sh, s'.sh)
    requires Small(s'.sh, s'.threads[tid]) < Small(s.sh, s.threads[tid])
    ensures SumOf(SmallOf(s'.sh), s'.threads) < SumOf(SmallOf(s.sh), s.threads)
  {
    forall u | u in s'.threads ensures SmallOf(s'.sh)(s'.threads[u]) <= SmallOf(s.sh)(s.threads[u]) {
      OthersHaveNoMore(s.sh, s'.sh, s.threads[u]);
    }
    SumFalls(SmallOf(s'.sh), SmallOf(s.sh), s'.threads, s.threads, tid);
  }

  lemma SettledIsLess(sys: System, s: State, s': State, tid: nat, top: nat)
    requires Topped(sys, s, top) && OneMoves(s, s', tid)
    requires Settled(sys, s.sh, s.threads[tid], s'.sh, s'.threads[tid])
    ensures Topped(sys, s', top) && Less(Measure(sys, s', top), Measure(sys, s, top))
  {
    assert NoneAt(sys, s'.threads[tid], top);
    var a, b := Measure(sys, s', top), Measure(sys, s, top);
    forall j | 0 <= j < top ensures a[j] == b[j] {
      LevelIsSame(sys, s, s', tid, top - 1 - j);
    }
    RetriesFall(s, s', tid);
    if a[top] < b[top] {
      assert LessAt(a, b, top);
    } else {
      SmallFalls(s, s', tid);
      assert LessAt(a, b, top + 1);
    }
  }

  lemma BusyStepIsLess(sys: System, s: State, s': State, top: nat)
    requires Sane(sys) && Inv(sys, s) && Topped(sys, s, top) && BusyStep(sys, s, s')
    ensures Topped(sys, s', top) && Less(Measure(sys, s', top), Measure(sys, s, top))
  {
    var tid :| ThreadStep(sys, s, s', tid) && !s.threads[tid].phase.Idle?;
    assert ThreadInv(sys, s.sh, tid, s.threads[tid]);
    ActAdvances(sys, tid, s.sh, s.threads[tid], s'.sh, s'.threads[tid]);
    if l: nat :| FallsAt(sys, s.threads[tid], s'.threads[tid], l) {
      FallsBelowTop(sys, s, s', tid, l, top);
    } else {
      SettledIsLess(sys, s, s', tid, top);
    }
  }

  /* ---- no measure falls for ever ---- */

  function From<T>(f: nat -> T, n: nat): nat -> T {
    (i: nat) => f(n + i)
  }

  function Rest(s: seq<nat>): seq<nat> {
    if s == [] then [] else s[1..]
  }

  function Rests(f: nat -> seq<nat>): nat -> seq<nat> {
    (i: nat) => Rest(f(i))
  }

  ghost predicate Falls(f: nat -> seq<nat>, size: nat, i: nat) {
    |f(i)| == size && Less(f(i + 1), f(i))
  }

  ghost predicate FallsForever(f: nat -> seq<nat>, size: nat) {
    forall i: nat :: Falls(f, size, i)
  }

  lemma LessHead(a: seq<nat>, b: seq<nat>)
    requires Less(a, b)
    ensures |a| == |b| > 0 && a[0] <= b[0]
    ensures a[0] == b[0] ==> Less(Rest(a), Rest(b))
  {
    var i: nat :| LessAt(a, b, i);
    if i > 0 {
      assert LessAt(Rest(a), Rest(b), i - 1);
    }
  }

  predicate SameHead(f: nat -> seq<nat>, i: nat) {
    |f(i)| > 0 && |f(0)| > 0 && f(i)[0] == f(0)[0]
  }

  lemma {:induction false} HeadNeverRises(f: nat -> seq<nat>, size: nat, i: nat)
    requires FallsForever(f, size)
    ensures |f(i)| == |f(0)| == size > 0 && f(i)[0] <= f(0)[0]
  {
    assert Falls(f, size, i) && Falls(f, size, 0);
    LessHead(f(1), f(0));
    if i > 0 {
      HeadNeverRises(f, size, i - 1);
      assert Falls(f, size, i - 1);
      LessHead(f(i - 1 + 1), f(i - 1));
    }
  }

  lemma SuffixFalls(f: nat -> seq<nat>, size: nat, n: nat)
    requires forall i: nat | i >= n :: Falls(f, size, i)
    ensures FallsForever(From(f, n), size) && From(f, n)(0) == f(n)
  {
    forall i: nat ensures Falls(From(f, n), size, i) {
      assert Falls(f, size, n + i);
      assert From(f, n)(i + 1) == f(n + i + 1);
    }
  }

  lemma RestsFall(f: nat -> seq<nat>, size: nat)
    requires FallsForever(f, size) && size > 0 && forall i: nat :: SameHead(f, i)
    ensures FallsForever(Rests(f), size - 1)
  {
    var less := size - 1;
    forall i: nat ensures Falls(Rests(f), less, i) {
      assert Falls(f, size, i) && SameHead(f, i) && SameHead(f, i + 1);
      LessHead(f(i + 1), f(i));
      assert Rests(f)(i) == Rest(f(i)) && Rests(f)(i + 1) == Rest(f(i + 1));
    }
  }

  ghost predicate HeadFalls(f: nat -> seq<nat>, n: nat) {
    |f(n)| == |f(0)| > 0 && f(n)[0] < f(0)[0]
  }

  // Numbers in lexicographic order do not fall for ever.
  lemma {:induction false} NothingFallsForever(f: nat -> seq<nat>, size: nat)
    requires FallsForever(f, size)
    ensures false
    decreases size, if |f(0)| > 0 then f(0)[0] else 0
  {
    HeadNeverRises(f, size, 0);
    if n: nat :| HeadFalls(f, n) {
      SuffixFalls(f, size, n);
      NothingFallsForever(From(f, n), size);
    } else {
      forall i: nat ensures SameHead(f, i) {
        HeadNeverRises(f, size, i);
        assert !HeadFalls(f, i);
      }
      RestsFall(f, size);
      NothingFallsForever(Rests(f), size - 1);
    }
  }

  /* ---- every call returns ---- */

  lemma {:induction false} StackTops(sys: System, stack: seq<Frame>) returns (top: nat)
    ensures forall l: nat | l >= top :: MidSum(sys, stack, l) == 0
  {
    if stack == [] {
      top := 0;
    } else {
      var below := StackTops(sys, stack[..|stack| - 1]);
      var mine := sys.level(stack[|stack| - 1].key) + 1;
      top := if below > mine then below else mine;
    }
  }

  lemma CallTops(sys: System, p: Phase) returns (top: nat)
    ensures forall l: nat | l >= top :: CallWeight(sys, p, l) == 0
  {
    match p
    case Asking(k) => top := sys.level(k) + 1;
    case Waiting(k, _) => top := sys.level(k) + 1;
    case Checking(k, _, _, _, _) => top := sys.level(k) + 1;
    case Dropping(k, _) => top := sys.level(k) + 1;
    case Peeking(k) => top := sys.level(k) + 1;
    case Peeked(k, _) => top := sys.level(k) + 1;
    case _ => top := 0;
  }

  lemma ThreadTops(sys: System, th: Thread) returns (top: nat)
    ensures NoneAt(sys, th, top)
  {
    if Building(th.phase) && th.stack != [] {
      var below := StackTops(sys, Below(th));
      top := below + sys.level(Top(th).key) + 1;
    } else {
      var below := StackTops(sys, th.stack);
      var call := CallTops(sys, th.phase);
      top := below + call;
    }
  }

  lemma {:induction false} StateTops(sys: System, threads: map<nat, Thread>) returns (top: nat)
    ensures forall tid | tid in threads :: NoneAt(sys, threads[tid], top)
    decreases |threads|
  {
    if threads == map[] {
      top := 0;
    } else {
      var tid :| tid in threads;
      var others := threads - {tid};
      assert others.Keys == threads.Keys - {tid};
      var rest := StateTops(sys, others);
      var mine := ThreadTops(sys, threads[tid]);
      top := rest + mine;
      forall u | u in threads ensures NoneAt(sys, threads[u], top) {
        assert u != tid ==> threads[u] == others[u] && NoneAt(sys, others[u], rest);
      }
    }
  }

  ghost predicate InvAt(sys: System, r: nat -> State, i: nat) {
    Inv(sys, r(i))
  }

  lemma BusyStepKeepsInv(sys: System, s: State, s': State)
    requires Sane(sys) && Inv(sys, s) && BusyStep(sys, s, s')
    ensures Inv(sys, s')
  {
    var tid :| ThreadStep(sys, s, s', tid) && !s.threads[tid].phase.Idle?;
    assert Next(sys, s, s');
    StepKeepsInv(sys, s, s');
  }

  ghost predicate Busy(sys: System, r: nat -> State, i: nat) {
    BusyStep(sys, r(i), r(i + 1))
  }

  ghost predicate Under(sys: System, s: State, top: nat) {
    Inv(sys, s) && Topped(sys, s, top)
  }

  lemma BusyOnce(sys: System, s: State, s': State, top: nat)
    requires Sane(sys) && Under(sys, s, top) && BusyStep(sys, s, s')
    ensures Under(sys, s', top) && Less(Measure(sys, s', top), Measure(sys, s, top))
  {
    BusyStepKeepsInv(sys, s, s');
    BusyStepIsLess(sys, s, s', top);
  }

  ghost predicate UnderAt(sys: System, r: nat -> State, top: nat, i: nat) {
    Under(sys, r(i), top)
  }

  lemma BusyGoesOn(sys: System, r: nat -> State, top: nat, i: nat)
    requires Sane(sys) && UnderAt(sys, r, top, i) && Busy(sys, r, i)
    ensures UnderAt(sys, r, top, i + 1) && Falls(Measures(sys, r, top), top + 2, i)
  {
    BusyOnce(sys, r(i), r(i + 1), top);
  }

  predicate Carries(p: nat -> bool, i: nat) {
    p(i) ==> p(i + 1)
  }

  lemma {:induction false} CarriedOn(p: nat -> bool, n: nat, i: nat)
    requires p(n) && i >= n && forall j: nat | j >= n :: Carries(p, j)
    ensures p(i)
    decreases i
  {
    if i > n {
      CarriedOn(p, n, i - 1);
      assert Carries(p, i - 1);
    }
  }

  // From step n on, every step is a thread's.
  ghost predicate BusyFrom(sys: System, r: nat -> State, n: nat) {
    forall j: nat | j >= n :: Busy(sys, r, j)
  }

  lemma BusyStays(sys: System, r: nat -> State, top: nat, n: nat, i: nat)
    requires Sane(sys) && UnderAt(sys, r, top, n) && BusyFrom(sys, r, n) && i >= n
    ensures UnderAt(sys, r, top, i)
  {
    var p := (j: nat) => UnderAt(sys, r, top, j);
    forall j: nat | j >= n ensures Carries(p, j) {
      if UnderAt(sys, r, top, j) {
        BusyGoesOn(sys, r, top, j);
      }
    }
    CarriedOn(p, n, i);
  }

  lemma BusyForeverFalls(sys: System, r: nat -> State, top: nat, n: nat, i: nat)
    requires Sane(sys) && UnderAt(sys, r, top, n) && BusyFrom(sys, r, n) && i >= n
    ensures Falls(Measures(sys, r, top), top + 2, i)
  {
    BusyStays(sys, r, top, n, i);
    BusyGoesOn(sys, r, top, i);
  }

  ghost function Measures(sys: System, r: nat -> State, top: nat): nat -> seq<nat> {
    (i: nat) => Measure(sys, r(i), top)
  }

  // From no sound state does a sequence of steps of calls in progress go on for ever: without new calls, edits and
  // cancellations there is always an end.
  lemma CallsComeToAnEnd(sys: System, r: nat -> State, n: nat)
    requires Sane(sys) && InvAt(sys, r, n)
    ensures !BusyFrom(sys, r, n)
  {
    if BusyFrom(sys, r, n) {
      var top := StateTops(sys, r(n).threads);
      assert UnderAt(sys, r, top, n);
      var f, size := Measures(sys, r, top), top + 2;
      forall i: nat | i >= n ensures Falls(f, size, i) {
        BusyForeverFalls(sys, r, top, n, i);
      }
      FallsNoMore(f, size, n);
    }
  }

  lemma FallsNoMore(f: nat -> seq<nat>, size: nat, n: nat)
    requires forall i: nat | i >= n :: Falls(f, size, i)
    ensures false
  {
    SuffixFalls(f, size, n);
    NothingFallsForever(From(f, n), size);
  }

  ghost predicate AllIdle(s: State) {
    forall tid | tid in s.threads :: s.threads[tid].phase.Idle?
  }

  // No call in progress can take a step.
  ghost predicate Still(sys: System, s: State) {
    forall tid | tid in s.threads && !s.threads[tid].phase.Idle? :: !CanMove(sys, tid, s.sh, s.threads[tid])
  }

  // Some call in progress takes a step; only where none can, nothing happens.
  ghost predicate Proceeds(sys: System, r: nat -> State, i: nat) {
    BusyStep(sys, r(i), r(i + 1)) || (r(i + 1) == r(i) && Still(sys, r(i)))
  }

  ghost predicate Nexts(sys: System, r: nat -> State, i: nat) {
    Next(sys, r(i), r(i + 1))
  }

  lemma StillIsIdle(sys: System, s: State)
    requires Sane(sys) && Inv(sys, s) && Still(sys, s)
    ensures AllIdle(s)
  {
    forall tid | tid in s.threads ensures s.threads[tid].phase.Idle? {
      if !s.threads[tid].phase.Idle? {
        var u := SomeoneCanMove(sys, s, tid);
        assert false;
      }
    }
  }

  lemma NextKeepsInv(sys: System, r: nat -> State, i: nat)
    requires Sane(sys) && InvAt(sys, r, i) && Nexts(sys, r, i)
    ensures InvAt(sys, r, i + 1)
  {
    StepKeepsInv(sys, r(i), r(i + 1));
  }

  lemma UntilThen(sys: System, r: nat -> State, n: nat)
    requires Sane(sys) && Init(sys, r(0)) && forall i: nat | i < n :: Nexts(sys, r, i)
    ensures InvAt(sys, r, n)
  {
    FreshProcessIsSound(sys, r(0));
    var p := (j: nat) => j <= n ==> InvAt(sys, r, j);
    forall j: nat ensures Carries(p, j) {
      if j < n && InvAt(sys, r, j) {
        NextKeepsInv(sys, r, j);
      }
    }
    CarriedOn(p, 0, n);
  }

  lemma ProceedingKeepsInv(sys: System, r: nat -> State, i: nat)
    requires Sane(sys) && InvAt(sys, r, i) && Proceeds(sys, r, i)
    ensures InvAt(sys, r, i + 1)
  {
    if BusyStep(sys, r(i), r(i + 1)) {
      BusyStepKeepsInv(sys, r(i), r(i + 1));
    }
  }

  ghost predicate ProceedsFrom(sys: System, r: nat -> State, n: nat) {
    forall j: nat | j >= n :: Proceeds(sys, r, j)
  }

  lemma StaysSound(sys: System, r: nat -> State, n: nat, i: nat)
    requires Sane(sys) && InvAt(sys, r, n) && ProceedsFrom(sys, r, n) && i >= n
    ensures InvAt(sys, r, i)
  {
    var p := (j: nat) => InvAt(sys, r, j);
    forall j: nat | j >= n ensures Carries(p, j) {
      if InvAt(sys, r, j) {
        ProceedingKeepsInv(sys, r, j);
      }
    }
    CarriedOn(p, n, i);
  }

  lemma NotBusyIsIdle(sys: System, r: nat -> State, n: nat, i: nat)
    requires Sane(sys) && InvAt(sys, r, i) && ProceedsFrom(sys, r, n) && i >= n && !Busy(sys, r, i)
    ensures AllIdle(r(i))
  {
    assert Proceeds(sys, r, i);
    StillIsIdle(sys, r(i));
  }

  // Every call returns: in a run that from some step on has no new call, no edit and no cancellation, whatever went before
  // it and in whatever order the threads then take their steps, all calls are over in the end.
  lemma EveryCallReturns(sys: System, r: nat -> State, n: nat) returns (i: nat)
    requires Sane(sys) && Init(sys, r(0)) && forall j: nat | j < n :: Nexts(sys, r, j)
    requires ProceedsFrom(sys, r, n)
    ensures i >= n && AllIdle(r(i))
  {
    UntilThen(sys, r, n);
    CallsComeToAnEnd(sys, r, n);
    i :| i >= n && !Busy(sys, r, i);
    StaysSound(sys, r, n, i);
    NotBusyIsIdle(sys, r, n, i);
  }
}
