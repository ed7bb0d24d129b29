// Runs that tear a fingerprint. Checking one compares what a file holds and then takes its stamp, and taking one compares
// the stamp and then reads the file (readers/formats/fingerprint.go). An edit between the two looks makes the cache vouch
// for a value no fresh read gives: from then on in memory, or in every later process.
module CacheTears {
  import opened Recency
  import opened Recorders
  import opened DesignCache
  import opened CacheProtocol
  import opened CacheSafety
  import opened CacheTheorems
  import opened CacheRaces

  // One file and one key: the build reads the file and answers what it holds. Every edit changes it.
  function Ask(k: Key, answers: seq<string>): Question {
    if answers == [] then Open("file") else Done(answers[0])
  }

  function Holding(n: Name, s: Stamp): Content {
    if s == 0 then "old" else "new"
  }

  function OneFile(): System {
    System(Ask, k => 0, k => 2, Holding, k => true, 1, false)
  }

  lemma BuildReadsTheFile(sys: System, c: Name -> Content)
    requires sys == OneFile() || sys == Sparing(OneFile())
    ensures Eval(sys, "key", [], c) == Ok(c("file"))
  {
    assert sys.ask("key", []) == Open("file");
    var answers: seq<string> := [c("file")];
    assert [] + answers == answers && sys.ask("key", answers) == Done(c("file"));
    assert Eval(sys, "key", answers, c) == Ok(c("file"));
  }

  lemma FreshIsTheFile(files: Files)
    ensures Fresh(OneFile(), "key", files) == Ok(Holding("file", At(files, "file")))
  {
    BuildReadsTheFile(OneFile(), View(OneFile(), files));
  }

  lemma OldIsSound()
    ensures SoundStore(OneFile(), Fresh0(map["key" := OLD]))
  {
    var sys := Sparing(OneFile());
    forall c: Name -> Content | Holds(c, OLD.seen) ensures Eval(sys, "key", [], c) == Ok(OLD.v) {
      BuildReadsTheFile(sys, c);
      assert "file" in OLD.seen;
    }
  }

  function Client(): Thread {
    Thread([], Idle, true, Log(0, 0, 0, 0, 0, 0, 0))
  }

  function Fresh0(store: map<Key, Record>): Shared {
    Shared(map[], 0, Table(map[], map[], map[], 0, 0), store, 0)
  }

  // One client, no file edited yet, and a store.
  function Begins(store: map<Key, Record>): State {
    State(Fresh0(store), map[0 := Client()])
  }

  ghost predicate At0(r: seq<State>, sh: Shared, th: Thread) {
    r != [] && r[|r| - 1] == State(sh, map[0 := th])
  }

  lemma Go(r: seq<State>, sh: Shared, th: Thread, sh': Shared, th': Thread) returns (longer: seq<State>)
    requires Run(OneFile(), r) && At0(r, sh, th) && Act(OneFile(), 0, sh, th, sh', th')
    ensures Run(OneFile(), longer) && |longer| == |r| + 1 && longer[..|r|] == r && At0(longer, sh', th')
  {
    var s := r[|r| - 1];
    ThreadMayMove(OneFile(), s, 0, sh', th');
    assert s.threads[0 := th'] == map[0 := th'];
    RunGrows(OneFile(), r, Moved(s, 0, sh', th'));
    longer := r + [Moved(s, 0, sh', th')];
  }

  lemma Touch(r: seq<State>, sh: Shared, th: Thread) returns (longer: seq<State>)
    requires Run(OneFile(), r) && At0(r, sh, th)
    ensures Run(OneFile(), longer) && |longer| == |r| + 1 && longer[..|r|] == r
    ensures At0(longer, sh.(files := sh.files["file" := sh.clock + 1], clock := sh.clock + 1), th)
  {
    var s := r[|r| - 1];
    var now := State(sh.(files := sh.files["file" := sh.clock + 1], clock := sh.clock + 1), s.threads);
    assert Edit(OneFile(), s, now, "file");
    RunGrows(OneFile(), r, now);
    longer := r + [now];
  }

  lemma FirstEntry(t: Table)
    requires t == Table(map[], map[], map[], 0, 0)
    ensures var now := Insert(t, "key", 0, 0, 1);
            && "key" in now.entries && now.entries["key"] == 0
            && now.cells == map[0 := Cell("key", 0, 0, false, Err(NotKept), map[])]
  {
    InsertHolds(t, "key", 0, 0, 1);
  }

  // The client asks, and becomes the builder of the one entry.
  lemma Asks(store: map<Key, Record>) returns (r: seq<State>, sh: Shared, th: Thread)
    ensures Run(OneFile(), r) && |r| == 3 && r[0] == Begins(store) && At0(r, sh, th)
    ensures sh.files == map[] && sh.clock == 0 && sh.store == store && "key" in sh.table.entries
    ensures sh.table.entries["key"] == 0 && sh.table.cells == map[0 := Cell("key", 0, 0, false, Err(NotKept), map[])]
    ensures th.stack == [Frame("key", 0, [], map[])] && th.phase.Restoring? && th.live
  {
    var sys, sh0, th0 := OneFile(), Fresh0(store), Client();
    r := [Begins(store)];
    assert Init(sys, r[0]);
    var th1 := Thread([], Asking("key"), true, NewLog(sh0));
    assert Start(sh0, th0, sh0, th1, "key");
    r := Go(r, sh0, th0, sh0, th1);
    sh := sh0.(table := Insert(sh0.table, "key", 0, 0, 1));
    th := th1.(stack := [] + [Frame("key", 0, [], map[])], phase := Restoring);
    assert Begin(sys, 0, sh0, th1, sh, th);
    FirstEntry(sh0.table);
    r := Go(r, sh0, th1, sh, th);
  }

  // The file is edited at step i, between the two looks of the client's fingerprint.
  ghost predicate TornAt(r: seq<State>, i: nat) {
    && EditsAt(r, i, "file") && 0 in r[i].threads && InWindow(r[i].threads[0], "file")
    && r[i].sh.files == map[] && r[i].sh.clock == 0
  }

  lemma TornIsNotUntorn(r: seq<State>, i: nat)
    requires TornAt(r, i)
    ensures !Untorn(OneFile(), r)
  {
    assert EditsAt(r, i, "file");
    assert !Spares(OneFile(), r[i], "file");
  }

  // From step i on the file stands as edited once.
  ghost predicate Edited1(r: seq<State>, i: nat) {
    i < |r| && forall m | i <= m < |r| :: r[m].sh.files == map["file" := 1]
  }

  lemma GoOn(r: seq<State>, i: nat, sh: Shared, th: Thread, sh': Shared, th': Thread) returns (longer: seq<State>)
    requires Run(OneFile(), r) && At0(r, sh, th) && Act(OneFile(), 0, sh, th, sh', th')
    requires Edited1(r, i) && sh'.files == map["file" := 1]
    ensures Run(OneFile(), longer) && |longer| == |r| + 1 && longer[..|r|] == r && At0(longer, sh', th')
    ensures Edited1(longer, i)
  {
    longer := Go(r, sh, th, sh', th');
    forall m | i <= m < |longer| ensures longer[m].sh.files == map["file" := 1] {
      if m < |r| {
        assert longer[m] == longer[..|r|][m];
      }
    }
  }

  /* ---- a check torn ---- */

  const OLD := Record(map["file" := "old"], "old")

  // The record matches, and the file is edited before its stamp is taken.
  lemma MatchesThenEdited() returns (r: seq<State>, sh: Shared, th: Thread)
    ensures Run(OneFile(), r) && |r| == 6 && r[0] == Begins(map["key" := OLD]) && At0(r, sh, th) && TornAt(r, 4)
    ensures sh.files == map["file" := 1] && sh.clock == 1 && "key" in sh.table.entries
    ensures sh.table.entries["key"] == 0 && sh.table.cells == map[0 := Cell("key", 0, 0, false, Err(NotKept), map[])]
    ensures th.stack == [Frame("key", 0, [], map[])] && th.phase == Matched(OLD, {"file"}, map[], "file") && th.live
  {
    var sys := OneFile();
    r, sh, th := Asks(map["key" := OLD]);
    assert OLD.seen.Keys == {"file"} && "file" in OLD.seen;
    var fetched := th.(phase := Matching(OLD, {"file"}, map[]));
    assert Fetch(sys, sh, th, sh, fetched);
    r := Go(r, sh, th, sh, fetched);
    th := fetched.(phase := Matched(OLD, {"file"}, map[], "file"));
    assert MatchContent(sys, sh, fetched, sh, th, "file");
    r := Go(r, sh, fetched, sh, th);
    r := Touch(r, sh, th);
    sh := sh.(files := sh.files["file" := 1], clock := 1);
  }

  // The stamp taken is the new one.
  lemma ChecksTorn() returns (r: seq<State>, sh: Shared, th: Thread)
    ensures Run(OneFile(), r) && |r| == 8 && r[0] == Begins(map["key" := OLD]) && At0(r, sh, th) && TornAt(r, 4)
    ensures sh.files == map["file" := 1] && sh.clock == 1 && "key" in sh.table.entries
    ensures sh.table.entries["key"] == 0 && sh.table.cells == map[0 := Cell("key", 0, 0, false, Err(NotKept), map[])]
    ensures th.stack == [Frame("key", 0, [], map["file" := 1])] && th.phase == Settling(Ok("old")) && th.live
  {
    var matched;
    r, sh, matched := MatchesThenEdited();
    var stamped := matched.(phase := Matching(OLD, {}, map["file" := 1]));
    assert {"file"} - {"file"} == {};
    assert MatchStamp(sh, matched, sh, stamped);
    r := Go(r, sh, matched, sh, stamped);
    th := WithTop(stamped, Top(stamped).(touched := map["file" := 1])).(phase := Settling(Ok("old")));
    assert Restore(sh, stamped, sh, th);
    r := Go(r, sh, stamped, sh, th);
  }

  // The value is closed under that stamp, and the client has its answer.
  lemma ClosesTorn() returns (r: seq<State>, sh: Shared, th: Thread)
    ensures Run(OneFile(), r) && |r| == 11 && r[0] == Begins(map["key" := OLD]) && At0(r, sh, th)
    ensures sh.files == map["file" := 1] && "key" in sh.table.entries && sh.table.entries["key"] == 0
    ensures sh.table.cells == map[0 := Cell("key", 0, 0, true, Ok("old"), map["file" := 1])]
    ensures th.phase.Idle? && TornAt(r, 4)
  {
    var settled;
    r, sh, settled := ChecksTorn();
    var closing := settled.(phase := Closing(Ok("old")));
    assert "file" in Top(settled).touched;
    assert StayMapped(sh, settled, sh, closing);
    r := Go(r, sh, settled, sh, closing);
    var f := Top(closing);
    var sh' := sh.(table := Shut(sh.table, 0, Ok("old"), f.touched), spoiled := sh.spoiled + 0);
    var leaving := closing.(stack := Merged(Below(closing), f.touched), phase := Leaving("key", Ok("old"), Elsewhere));
    assert Close(sh, closing, sh', leaving);
    r := Go(r, sh, closing, sh', leaving);
    th := leaving.(phase := Idle);
    assert Return(sh', leaving, sh', th);
    r := Go(r, sh', leaving, sh', th);
    sh := sh';
  }

  // A second call finds the entry, and starts to check it.
  lemma LooksAgain() returns (r: seq<State>, sh: Shared, th: Thread)
    ensures Run(OneFile(), r) && |r| == 14 && r[0] == Begins(map["key" := OLD]) && At0(r, sh, th)
    ensures 0 in r[10].threads && r[10].threads[0].phase.Idle?
    ensures sh.table.cells == map[0 := Cell("key", 0, 0, true, Ok("old"), map["file" := 1])]
    ensures th.stack == [] && th.phase == Checking("key", 0, {"file"}, map["file" := 1], false)
    ensures TornAt(r, 4) && Edited1(r, 10)
  {
    var sh0, idle;
    r, sh0, idle := ClosesTorn();
    var asking := Thread([], Asking("key"), true, NewLog(sh0));
    assert Start(sh0, idle, sh0, asking, "key");
    r := GoOn(r, 10, sh0, idle, sh0, asking);
    sh := sh0.(table := Bump(sh0.table, "key"));
    var waiting := asking.(phase := Waiting("key", 0), log := Looked(sh0, asking.log));
    assert Join(sh0, asking, sh, waiting);
    r := GoOn(r, 10, sh0, asking, sh, waiting);
    th := waiting.(phase := Checking("key", 0, {"file"}, sh.files, false));
    assert map["file" := 1].Keys == {"file"};
    assert Wake(sh, waiting, sh, th);
    r := GoOn(r, 10, sh, waiting, sh, th);
  }

  // An edit between a name's comparison and its stamp: a later call is served from memory a value that no fresh read gives
  // at any moment of that call.
  lemma TornCheckServesStale() returns (r: seq<State>)
    ensures Run(OneFile(), r) && SoundStore(OneFile(), r[0].sh) && |r| == 16 && !Untorn(OneFile(), r)
    ensures 0 in r[10].threads && r[10].threads[0].phase.Idle?
    ensures 0 in r[15].threads && r[15].threads[0].phase == Leaving("key", Ok("old"), Memory(map["file" := 1]))
    ensures forall m | 10 <= m <= 15 :: Fresh(OneFile(), "key", r[m].sh.files) == Ok("new")
  {
    var sh, checking;
    r, sh, checking := LooksAgain();
    var checked := checking.(phase := Checking("key", 0, {}, map["file" := 1], false));
    assert {"file"} - {"file"} == {};
    assert CheckName(sh, checking, sh, checked, "file");
    r := GoOn(r, 10, sh, checking, sh, checked);
    var served := checked.(stack := Merged([], map["file" := 1]),
                           phase := Leaving("key", Ok("old"), Memory(map["file" := 1])));
    assert Serve(sh, checked, sh, served);
    r := GoOn(r, 10, sh, checked, sh, served);
    OldIsSound();
    TornIsNotUntorn(r, 4);
    FreshIsTheFile(map["file" := 1]);
  }

  /* ---- a fingerprint torn ---- */

  // The stamp is the noted one, and the file is edited before it is read.
  lemma StampsThenEdited() returns (r: seq<State>, sh: Shared, th: Thread)
    ensures Run(OneFile(), r) && |r| == 10 && r[0] == Begins(map[]) && At0(r, sh, th) && TornAt(r, 8)
    ensures sh.files == map["file" := 1] && sh.clock == 1 && sh.store == map[]
    ensures th.stack == [Frame("key", 0, ["old"], map["file" := 0])]
    ensures th.phase == Printed(Ok("old"), {"file"}, map[], map[], "file")
  {
    var ended;
    r, sh, ended := ReadsOld();
    var printing := ended.(phase := Printing(Ok("old"), {"file"}, map[], map[]));
    assert map["file" := 0].Keys == {"file"} && "file" in Top(ended).touched;
    assert Print(OneFile(), sh, ended, sh, printing);
    r := Go(r, sh, ended, sh, printing);
    th := printing.(phase := Printed(Ok("old"), {"file"}, map[], map[], "file"));
    assert PrintStamp(sh, printing, sh, th, "file");
    r := Go(r, sh, printing, sh, th);
    r := Touch(r, sh, th);
    sh := sh.(files := sh.files["file" := 1], clock := 1);
  }

  // What is read is the new content.
  lemma PrintsTorn() returns (r: seq<State>, sh: Shared, th: Thread)
    ensures Run(OneFile(), r) && |r| == 11 && r[0] == Begins(map[]) && At0(r, sh, th) && TornAt(r, 8)
    ensures sh.files == map["file" := 1] && sh.clock == 1 && sh.store == map[]
    ensures th.stack == [Frame("key", 0, ["old"], map["file" := 0])]
    ensures th.phase == Printing(Ok("old"), {}, map["file" := "new"], map[])
  {
    var printed;
    r, sh, printed := StampsThenEdited();
    th := printed.(phase := Printing(Ok("old"), {}, map["file" := "new"], map[]));
    assert {"file"} - {"file"} == {};
    assert PrintContent(OneFile(), sh, printed, sh, th);
    r := Go(r, sh, printed, sh, th);
  }

  lemma ReadsOld() returns (r: seq<State>, sh: Shared, th: Thread)
    ensures Run(OneFile(), r) && |r| == 7 && r[0] == Begins(map[]) && At0(r, sh, th)
    ensures sh.files == map[] && sh.clock == 0 && sh.store == map[]
    ensures th.stack == [Frame("key", 0, ["old"], map["file" := 0])] && th.phase == Ending(Ok("old"))
  {
    var sys := OneFile();
    var building;
    r, sh, building := Asks(map[]);
    var running := building.(phase := Running);
    assert Miss(sh, building, sh, running);
    r := Go(r, sh, building, sh, running);
    var noted := WithTop(running, Top(running).(touched := map["file" := 0])).(phase := Reading("file"));
    assert Noted(sys, sh, running, sh, noted, "file");
    r := Go(r, sh, running, sh, noted);
    var answered := WithTop(noted, Top(noted).(answers := ["old"])).(phase := Running);
    assert [] + ["old"] == ["old"];
    assert Read(sys, sh, noted, sh, answered);
    r := Go(r, sh, noted, sh, answered);
    th := answered.(phase := Ending(Ok("old")));
    assert Finish(sys, sh, answered, sh, th);
    r := Go(r, sh, answered, sh, th);
  }

  // An edit between a name's stamp and its reading: the store keeps a record that the files match from then on, in this
  // process and every later one, and whose value no fresh read of them gives.
  lemma TornPrintStoresStale() returns (r: seq<State>)
    ensures Run(OneFile(), r) && SoundStore(OneFile(), r[0].sh) && |r| == 12 && !Untorn(OneFile(), r)
    ensures var sh := r[11].sh;
            && "key" in sh.store && sh.store["key"] == Record(map["file" := "new"], "old")
            && Matches(OneFile(), sh, sh.store["key"]) && Fresh(OneFile(), "key", sh.files) == Ok("new")
  {
    var sh, printing;
    r, sh, printing := PrintsTorn();
    var sh' := sh.(store := sh.store["key" := Record(map["file" := "new"], "old")]);
    var settled := printing.(phase := Settling(Ok("old")));
    assert Save(sh, printing, sh', settled);
    r := Go(r, sh, printing, sh', settled);
    TornIsNotUntorn(r, 8);
    FreshIsTheFile(map["file" := 1]);
  }
}
