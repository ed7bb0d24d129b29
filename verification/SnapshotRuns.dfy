// Snapshots under way (service/snapshot.go): questions that read and note files, and ingests that check, load and store,
// each a step at a time and in any order, while files are edited and snapshots replaced, deleted and evicted.
module SnapshotRuns {
  import opened Recency
  import opened Recorders
  import opened Snapshots

  // A question that was answered a snapshot: the recorder it began with, and what the build under it has noted and not
  // yet handed on. A read that goes straight to the files hands on each name as it notes it.
  datatype Question = Question(rec: RecorderId, inner: Touched)

  // An ingest or an update that passed its check, and has yet to store.
  datatype Pending = Pending(name: string, def: Definition)

  datatype Host = Host(
    reg: Registry, recorders: map<RecorderId, Touched>, next: RecorderId, files: Files, clock: nat,
    asks: map<nat, Question>, loads: map<nat, Pending>)

  /* ---- the steps ---- */

  function Edited(h: Host, n: Name): Host {
    h.(files := h.files[n := h.clock + 1], clock := h.clock + 1)
  }

  function Started(h: Host, q: nat, name: string): Host
    requires name in h.reg.m
  {
    h.(reg := Asked(h.reg, name), asks := h.asks[q := Question(h.reg.m[name].rec, map[])])
  }

  function NotedBy(h: Host, q: nat, n: Name): Host
    requires q in h.asks
  {
    h.(asks := h.asks[q := h.asks[q].(inner := Note(h.asks[q].inner, h.files, n))])
  }

  function HandedOn(h: Host, q: nat): Host
    requires q in h.asks && h.asks[q].rec in h.recorders
  {
    h.(recorders := h.recorders[h.asks[q].rec := Merge(h.recorders[h.asks[q].rec], h.asks[q].inner)])
  }

  ghost predicate Edit(h: Host, h': Host, n: Name) {
    h' == Edited(h, n)
  }

  // A question starts: it names a snapshot that is held, and no file noted for it has changed.
  ghost predicate Start(h: Host, h': Host, q: nat, name: string) {
    && q !in h.asks && name in h.reg.m && h.reg.m[name].rec in h.recorders
    && Answerable(h.files, h.recorders[h.reg.m[name].rec])
    && h' == Started(h, q, name)
  }

  // A question that is refused, or any other use of a snapshot's name.
  ghost predicate Ask(h: Host, h': Host, name: string) {
    h' == h.(reg := Asked(h.reg, name))
  }

  ghost predicate NoteName(h: Host, h': Host, q: nat, n: Name) {
    q in h.asks && h' == NotedBy(h, q, n)
  }

  // A name is noted before it is read, so that an edit in between shows.
  ghost predicate Read(h: Host, h': Host, q: nat, n: Name) {
    q in h.asks && n in h.asks[q].inner && h' == h
  }

  ghost predicate HandOn(h: Host, h': Host, q: nat) {
    q in h.asks && h.asks[q].rec in h.recorders && h' == HandedOn(h, q)
  }

  // An ingest under an id of the client's, whose check lets it read and store.
  ghost predicate Check(h: Host, h': Host, p: nat, name: string, def: Definition, readBoard: bool) {
    && p !in h.loads && name != "" && Checked(h.reg, name, def, readBoard) == ReadAndStore
    && h' == h.(reg := Asked(h.reg, name), loads := h.loads[p := Pending(name, def)])
  }

  // An ingest under an id the host makes up, which is not looked for.
  ghost predicate Mint(h: Host, h': Host, p: nat, name: string, def: Definition) {
    && p !in h.loads && name != "" && h' == h.(loads := h.loads[p := Pending(name, def)])
  }

  // An update of a snapshot that is held.
  ghost predicate CheckUpdate(h: Host, h': Host, p: nat, name: string, def: Definition) {
    && p !in h.loads && name in h.reg.m && name != ""
    && h' == h.(reg := Asked(h.reg, name), loads := h.loads[p := Pending(name, def)])
  }

  ghost function Kept(h: Host, p: nat, noted: Touched, max: nat): Host
    requires p in h.loads
  {
    h.(reg := Stored(h.reg, h.loads[p].name, Entry(h.loads[p].def, h.next), max),
       recorders := h.recorders[h.next := noted], next := h.next + 1, loads := h.loads - {p})
  }

  // What was loaded goes into the registry under a recorder of its own, holding what loading it noted.
  ghost predicate Store(h: Host, h': Host, p: nat, noted: Touched, max: nat) {
    && p in h.loads && h.loads[p].name != "" && (forall n | n in noted :: noted[n] <= At(h.files, n))
    && h' == Kept(h, p, noted, max)
  }

  // The files could not be read: nothing is stored.
  ghost predicate FailLoad(h: Host, h': Host, p: nat) {
    h' == h.(loads := h.loads - {p})
  }

  ghost predicate Delete(h: Host, h': Host, name: string) {
    h' == h.(reg := Deleted(h.reg, name))
  }

  ghost predicate QuestionStep(h: Host, h': Host) {
    || (exists q, name :: Start(h, h', q, name))
    || (exists name :: Ask(h, h', name))
    || (exists q, n :: NoteName(h, h', q, n))
    || (exists q, n :: Read(h, h', q, n))
    || (exists q :: HandOn(h, h', q))
  }

  ghost predicate IngestStep(h: Host, h': Host, max: nat) {
    || (exists p, name, def, readBoard :: Check(h, h', p, name, def, readBoard))
    || (exists p, name, def :: Mint(h, h', p, name, def))
    || (exists p, name, def :: CheckUpdate(h, h', p, name, def))
    || (exists p, noted :: Store(h, h', p, noted, max))
    || (exists p :: FailLoad(h, h', p))
    || (exists name :: Delete(h, h', name))
  }

  ghost predicate Next(h: Host, h': Host, max: nat) {
    (exists n :: Edit(h, h', n)) || QuestionStep(h, h') || IngestStep(h, h', max)
  }

  ghost predicate Init(h: Host) {
    && h.reg == Registry(map[], map[], 0) && h.recorders == map[] && h.asks == map[] && h.loads == map[]
    && forall n | n in h.files :: h.files[n] <= h.clock
  }

  ghost predicate Steps(r: seq<Host>, i: nat, max: nat)
    requires i + 1 < |r|
  {
    Next(r[i], r[i + 1], max)
  }

  ghost predicate Run(r: seq<Host>, max: nat) {
    max > 0 && r != [] && Init(r[0]) && forall i: nat | i + 1 < |r| :: Steps(r, i, max)
  }

  /* ---- what every step keeps ---- */

  // No stamp noted is from the future.
  ghost predicate Timely(files: Files, t: Touched) {
    forall n | n in t :: t[n] <= At(files, n)
  }

  ghost predicate RecordersTimely(files: Files, recorders: map<RecorderId, Touched>, next: RecorderId) {
    forall id | id in recorders :: id < next && Timely(files, recorders[id])
  }

  ghost predicate AsksTimely(files: Files, recorders: map<RecorderId, Touched>, asks: map<nat, Question>) {
    forall q | q in asks :: asks[q].rec in recorders && Timely(files, asks[q].inner)
  }

  ghost predicate AllRecorded(m: map<string, Entry>, recorders: map<RecorderId, Touched>) {
    forall k | k in m :: m[k].rec in recorders
  }

  ghost predicate Inv(h: Host, max: nat) {
    && Held(h.reg, max) && (forall n | n in h.files :: h.files[n] <= h.clock)
    && AllRecorded(h.reg.m, h.recorders)
    && RecordersTimely(h.files, h.recorders, h.next)
    && AsksTimely(h.files, h.recorders, h.asks)
  }

  ghost predicate KeepsNotes(t: Touched, t': Touched) {
    forall n | n in t :: n in t' && t'[n] == t[n]
  }

  ghost predicate FilesGrow(files: Files, files': Files) {
    forall n :: At(files, n) <= At(files', n)
  }

  ghost predicate RecordersGrow(a: map<RecorderId, Touched>, b: map<RecorderId, Touched>) {
    forall id | id in a :: id in b && KeepsNotes(a[id], b[id])
  }

  ghost predicate AsksGrow(a: map<nat, Question>, b: map<nat, Question>) {
    forall q | q in a :: q in b && b[q].rec == a[q].rec && KeepsNotes(a[q].inner, b[q].inner)
  }

  // Recorders keep what they noted, questions keep their recorder, and files only move on.
  ghost predicate Grows(h: Host, h': Host) {
    FilesGrow(h.files, h'.files) && RecordersGrow(h.recorders, h'.recorders) && AsksGrow(h.asks, h'.asks)
  }

  lemma EditKeeps(h: Host, h': Host, n: Name, max: nat)
    requires Inv(h, max) && Edit(h, h', n)
    ensures Inv(h', max) && Grows(h, h')
  {
    assert FilesGrow(h.files, h'.files);
  }

  lemma AsksKept(files: Files, recorders: map<RecorderId, Touched>, asks: map<nat, Question>, q: nat, ask: Question)
    requires AsksTimely(files, recorders, asks) && ask.rec in recorders && Timely(files, ask.inner)
    requires q in asks ==> ask.rec == asks[q].rec && KeepsNotes(asks[q].inner, ask.inner)
    ensures AsksTimely(files, recorders, asks[q := ask]) && AsksGrow(asks, asks[q := ask])
  {
  }

  lemma StartKeeps(h: Host, h': Host, q: nat, name: string, max: nat)
    requires Inv(h, max) && Start(h, h', q, name)
    ensures Inv(h', max) && Grows(h, h')
  {
    AskedHolds(h.reg, name, max);
    AsksKept(h.files, h.recorders, h.asks, q, Question(h.reg.m[name].rec, map[]));
  }

  lemma AskKeeps(h: Host, h': Host, name: string, max: nat)
    requires Inv(h, max) && Ask(h, h', name)
    ensures Inv(h', max) && Grows(h, h')
  {
    AskedHolds(h.reg, name, max);
  }

  lemma NoteKeeps(h: Host, h': Host, q: nat, n: Name, max: nat)
    requires Inv(h, max) && NoteName(h, h', q, n)
    ensures Inv(h', max) && Grows(h, h')
  {
    assert Timely(h.files, h.asks[q].inner);
    AsksKept(h.files, h.recorders, h.asks, q, h.asks[q].(inner := Note(h.asks[q].inner, h.files, n)));
  }

  lemma HandOnKeeps(h: Host, h': Host, q: nat, max: nat)
    requires Inv(h, max) && HandOn(h, h', q)
    ensures Inv(h', max) && Grows(h, h')
  {
    var id := h.asks[q].rec;
    assert KeepsNotes(h.recorders[id], h'.recorders[id]) && Timely(h'.files, h'.recorders[id]);
  }

  lemma QuestionKeeps(h: Host, h': Host, max: nat)
    requires Inv(h, max) && QuestionStep(h, h')
    ensures Inv(h', max) && Grows(h, h')
  {
    if q, name :| Start(h, h', q, name) { StartKeeps(h, h', q, name, max); }
    else if name :| Ask(h, h', name) { AskKeeps(h, h', name, max); }
    else if q, n :| NoteName(h, h', q, n) { NoteKeeps(h, h', q, n, max); }
    else if q :| HandOn(h, h', q) { HandOnKeeps(h, h', q, max); }
  }

  lemma StoreKeeps(h: Host, h': Host, p: nat, noted: Touched, max: nat)
    requires Inv(h, max) && max > 0 && Store(h, h', p, noted, max)
    ensures Inv(h', max) && Grows(h, h')
  {
    var name, e := h.loads[p].name, Entry(h.loads[p].def, h.next);
    StoredHolds(h.reg, name, e, max);
    StoredParts(h.reg, name, e, max);
    assert h.next !in h.recorders;
  }

  // A step that reads or notes nothing, and leaves the snapshots held or fewer.
  lemma RegistryKeeps(h: Host, h': Host, max: nat)
    requires Inv(h, max) && Held(h'.reg, max) && h'.files == h.files && h'.clock == h.clock
    requires h'.recorders == h.recorders && h'.next == h.next && h'.asks == h.asks
    requires forall k | k in h'.reg.m :: k in h.reg.m && h'.reg.m[k] == h.reg.m[k]
    ensures Inv(h', max) && Grows(h, h')
  {
  }

  lemma IngestKeeps(h: Host, h': Host, max: nat)
    requires Inv(h, max) && max > 0 && IngestStep(h, h', max)
    ensures Inv(h', max) && Grows(h, h')
  {
    if p, name, def, readBoard :| Check(h, h', p, name, def, readBoard) {
      AskedHolds(h.reg, name, max);
      RegistryKeeps(h, h', max);
    } else if p, name, def :| CheckUpdate(h, h', p, name, def) {
      AskedHolds(h.reg, name, max);
      RegistryKeeps(h, h', max);
    } else if p, noted :| Store(h, h', p, noted, max) {
      StoreKeeps(h, h', p, noted, max);
    } else if name :| Delete(h, h', name) {
      DeletedHolds(h.reg, name, max);
      RegistryKeeps(h, h', max);
    } else {
      RegistryKeeps(h, h', max);
    }
  }

  lemma StepKeeps(h: Host, h': Host, max: nat)
    requires Inv(h, max) && max > 0 && Next(h, h', max)
    ensures Inv(h', max) && Grows(h, h')
  {
    if n :| Edit(h, h', n) {
      EditKeeps(h, h', n, max);
    } else if QuestionStep(h, h') {
      QuestionKeeps(h, h', max);
    } else {
      IngestKeeps(h, h', max);
    }
  }

  lemma RunStepKeeps(r: seq<Host>, max: nat, i: nat)
    requires Run(r, max) && i + 1 < |r| && Inv(r[i], max)
    ensures Inv(r[i + 1], max) && Grows(r[i], r[i + 1])
  {
    assert Steps(r, i, max);
    StepKeeps(r[i], r[i + 1], max);
  }

  lemma {:induction false} RunKeepsInv(r: seq<Host>, max: nat, i: nat)
    requires Run(r, max) && i < |r|
    ensures Inv(r[i], max)
  {
    if i > 0 {
      RunKeepsInv(r, max, i - 1);
      RunStepKeeps(r, max, i - 1);
    }
  }

  lemma GrowsOn(a: Host, b: Host, c: Host)
    requires Grows(a, b) && Grows(b, c)
    ensures Grows(a, c)
  {
    forall n ensures At(a.files, n) <= At(c.files, n) {
      assert At(a.files, n) <= At(b.files, n) <= At(c.files, n);
    }
  }

  lemma RunStepGrows(r: seq<Host>, max: nat, i: nat)
    requires Run(r, max) && i + 1 < |r|
    ensures Grows(r[i], r[i + 1])
  {
    RunKeepsInv(r, max, i);
    RunStepKeeps(r, max, i);
  }

  lemma {:induction false} RunGrows(r: seq<Host>, max: nat, i: nat, j: nat)
    requires Run(r, max) && i <= j < |r|
    ensures Grows(r[i], r[j])
    decreases j
  {
    if i < j {
      RunGrows(r, max, i, j - 1);
      RunStepGrows(r, max, j - 1);
      GrowsOn(r[i], r[j - 1], r[j]);
    }
  }

  /* ---- a changed file is noticed ---- */

  // Once a file noted for a snapshot has changed, every later question about that snapshot is refused, however the files
  // change after: only reading it again, under a new recorder, makes it answerable.
  lemma ChangedIsRefused(r: seq<Host>, max: nat, i: nat, j: nat, id: RecorderId, n: Name, q: nat, name: string)
    requires Run(r, max) && i <= j && j + 1 < |r| && id in r[i].recorders
    requires n in r[i].recorders[id] && At(r[i].files, n) != r[i].recorders[id][n]
    requires Start(r[j], r[j + 1], q, name)
    ensures r[j].reg.m[name].rec != id
  {
    RunKeepsInv(r, max, i);
    RunGrows(r, max, i, j);
    assert Timely(r[i].files, r[i].recorders[id]);
    assert At(r[i].files, n) <= At(r[j].files, n);
  }

  ghost predicate ReadsAt(r: seq<Host>, i: nat, q: nat, n: Name) {
    i + 1 < |r| && Read(r[i], r[i + 1], q, n)
  }

  ghost predicate StartsAt(r: seq<Host>, k: nat, q: nat, id: RecorderId) {
    k + 1 < |r| && exists name :: Start(r[k], r[k + 1], q, name) && r[k].reg.m[name].rec == id
  }

  // Whoever read a name, it was noted no later than it was read. One question's read is a read for the snapshot when the
  // name was on the snapshot's recorder already, or the question's own note of it is the one the recorder has.
  ghost predicate NotedFirst(r: seq<Host>, i: nat, k: nat, a: nat, id: RecorderId, n: Name)
    requires i < |r| && k < |r| && a in r[k].asks && id in r[k].recorders
  {
    || (id in r[i].recorders && n in r[i].recorders[id])
    || (n in r[k].recorders[id] && n in r[k].asks[a].inner && r[k].recorders[id][n] == r[k].asks[a].inner[n])
  }

  lemma NotedBeforeRead(r: seq<Host>, max: nat, i: nat, k: nat, a: nat, id: RecorderId, n: Name)
    requires Run(r, max) && ReadsAt(r, i, a, n) && i < k < |r| && a in r[k].asks && id in r[k].recorders
    requires NotedFirst(r, i, k, a, id, n)
    ensures n in r[k].recorders[id] && r[k].recorders[id][n] <= At(r[i].files, n)
  {
    RunKeepsInv(r, max, i);
    RunGrows(r, max, i, k);
    assert Timely(r[i].files, r[i].asks[a].inner);
    if id in r[i].recorders && n in r[i].recorders[id] {
      assert Timely(r[i].files, r[i].recorders[id]);
      assert KeepsNotes(r[i].recorders[id], r[k].recorders[id]);
    }
  }

  // Question a read n at step i. Question b starts at step k about the same snapshot, when n is noted for it, and reads n
  // at step j. The two read the same file exactly when n was noted for the snapshot under a stamp no later than a's read,
  // and has not been edited since b started.
  lemma LaterAnswerAgrees(r: seq<Host>, max: nat, i: nat, k: nat, j: nat, a: nat, b: nat, id: RecorderId, n: Name)
    requires Run(r, max) && i < k < j && ReadsAt(r, i, a, n) && StartsAt(r, k, b, id) && ReadsAt(r, j, b, n)
    requires id in r[k].recorders && n in r[k].recorders[id]
    ensures At(r[j].files, n) == At(r[i].files, n) <==>
              r[k].recorders[id][n] <= At(r[i].files, n) && At(r[j].files, n) == At(r[k].files, n)
  {
    RunGrows(r, max, i, k);
    RunGrows(r, max, k, j);
    assert Intact(r[k].files, r[k].recorders[id]);
    assert At(r[i].files, n) <= At(r[k].files, n) <= At(r[j].files, n);
  }

  // So where a's read was noted first, the two agree exactly when n was not edited while b was at it.
  lemma AnswersInTurnAgree(r: seq<Host>, max: nat, i: nat, k: nat, j: nat, a: nat, b: nat, id: RecorderId, n: Name)
    requires Run(r, max) && i < k < j && ReadsAt(r, i, a, n) && StartsAt(r, k, b, id) && ReadsAt(r, j, b, n)
    requires a in r[k].asks && id in r[k].recorders && NotedFirst(r, i, k, a, id, n)
    ensures At(r[j].files, n) == At(r[i].files, n) <==> At(r[j].files, n) == At(r[k].files, n)
  {
    NotedBeforeRead(r, max, i, k, a, id, n);
    LaterAnswerAgrees(r, max, i, k, j, a, b, id, n);
  }

  /* ---- a run where it is not ---- */

  lemma Extended(r: seq<Host>, max: nat, h: Host)
    requires Run(r, max) && Next(r[|r| - 1], h, max)
    ensures Run(r + [h], max)
  {
    forall i: nat | i + 1 < |r + [h]| ensures Steps(r + [h], i, max) {
      if i + 1 < |r| {
        assert Steps(r, i, max);
      }
    }
  }

  lemma ThenStarts(r: seq<Host>, max: nat, q: nat, name: string)
    requires Run(r, max)
    requires var h := r[|r| - 1];
             && q !in h.asks && name in h.reg.m && h.reg.m[name].rec in h.recorders
             && Answerable(h.files, h.recorders[h.reg.m[name].rec])
    ensures Run(r + [Started(r[|r| - 1], q, name)], max)
  {
    var h := r[|r| - 1];
    assert Start(h, Started(h, q, name), q, name);
    assert QuestionStep(h, Started(h, q, name));
    Extended(r, max, Started(h, q, name));
  }

  lemma ThenNotesAndReads(r: seq<Host>, max: nat, q: nat, n: Name)
    requires Run(r, max) && q in r[|r| - 1].asks
    ensures var now := NotedBy(r[|r| - 1], q, n);
            Run(r + [now] + [now], max) && ReadsAt(r + [now] + [now], |r|, q, n)
  {
    var h := r[|r| - 1];
    var now := NotedBy(h, q, n);
    assert NoteName(h, now, q, n);
    assert QuestionStep(h, now);
    Extended(r, max, now);
    assert Read(now, now, q, n);
    assert QuestionStep(now, now);
    Extended(r + [now], max, now);
  }

  lemma ThenHandsOn(r: seq<Host>, max: nat, q: nat)
    requires Run(r, max) && q in r[|r| - 1].asks && r[|r| - 1].asks[q].rec in r[|r| - 1].recorders
    ensures Run(r + [HandedOn(r[|r| - 1], q)], max)
  {
    var h := r[|r| - 1];
    assert HandOn(h, HandedOn(h, q), q);
    assert QuestionStep(h, HandedOn(h, q));
    Extended(r, max, HandedOn(h, q));
  }

  lemma ThenEdits(r: seq<Host>, max: nat, n: Name)
    requires Run(r, max)
    ensures Run(r + [Edited(r[|r| - 1], n)], max)
  {
    assert Edit(r[|r| - 1], Edited(r[|r| - 1], n), n);
    Extended(r, max, Edited(r[|r| - 1], n));
  }

  // Two questions under way that have noted nothing, about a snapshot that has no note of n.
  ghost predicate BothAtIt(h: Host, a: nat, c: nat, id: RecorderId, n: Name) {
    && a != c && a in h.asks && c in h.asks && h.asks[a] == h.asks[c] == Question(id, map[])
    && id in h.recorders && n !in h.recorders[id] && Intact(h.files, h.recorders[id])
    && forall m | m in h.files :: h.files[m] <= h.clock
  }

  // What the two leave: a reads n, n is edited, c reads n, and c hands on what it noted before a does.
  function AfterBoth(h: Host, a: nat, c: nat, id: RecorderId, n: Name): Host
    requires a != c && a in h.asks && c in h.asks && h.asks[a].rec == h.asks[c].rec == id && id in h.recorders
  {
    HandedOn(HandedOn(NotedBy(Edited(NotedBy(h, a, n), n), c, n), c), a)
  }

  lemma BothRun(r: seq<Host>, max: nat, a: nat, c: nat, id: RecorderId, n: Name) returns (longer: seq<Host>)
    requires Run(r, max) && BothAtIt(r[|r| - 1], a, c, id, n)
    ensures Run(longer, max) && |longer| == |r| + 7 && longer[..|r|] == r && ReadsAt(longer, |r|, a, n)
    ensures longer[|r|].files == r[|r| - 1].files && longer[|r| + 6] == AfterBoth(r[|r| - 1], a, c, id, n)
  {
    var h := r[|r| - 1];
    var h1 := NotedBy(h, a, n);
    var h2 := Edited(h1, n);
    var h3 := NotedBy(h2, c, n);
    var r1 := r + [h1] + [h1];
    ThenNotesAndReads(r, max, a, n);
    ThenEdits(r1, max, n);
    var r2 := r1 + [h2];
    ThenNotesAndReads(r2, max, c, n);
    var r3 := r2 + [h3] + [h3];
    ThenHandsOn(r3, max, c);
    var h4 := HandedOn(h3, c);
    ThenHandsOn(r3 + [h4], max, a);
    longer := r3 + [h4] + [HandedOn(h4, a)];
    assert longer[|r|] == h1 && longer[|r| + 1] == h1;
  }

  lemma AfterBothIsAnswerable(h: Host, a: nat, c: nat, id: RecorderId, n: Name)
    requires BothAtIt(h, a, c, id, n)
    ensures var now := AfterBoth(h, a, c, id, n);
            && now.reg == h.reg && now.asks.Keys == h.asks.Keys && id in now.recorders
            && n in now.recorders[id] && Unchanged(now.files, now.recorders[id])
            && At(now.files, n) != At(h.files, n)
  {
    var now := AfterBoth(h, a, c, id, n);
    var t := h.recorders[id];
    assert now.recorders[id] == t[n := h.clock + 1];
    assert now.files == h.files[n := h.clock + 1];
  }

  // Where a note does not come first, two answers under one snapshot may read a file differently with no edit during the
  // later one. Two questions are at it; the first reads n, n is edited, the second reads n and is the first to hand on its
  // note. The snapshot then stands as noted, and a third question is answered, and reads n as the first did not.
  lemma AnswersMayDiffer(r: seq<Host>, max: nat, a: nat, c: nat, b: nat, name: string, n: Name)
    returns (longer: seq<Host>)
    requires Run(r, max) && name in r[|r| - 1].reg.m && BothAtIt(r[|r| - 1], a, c, r[|r| - 1].reg.m[name].rec, n)
    requires b !in r[|r| - 1].asks
    ensures Run(longer, max) && |longer| == |r| + 10 && longer[..|r|] == r
    ensures var id := r[|r| - 1].reg.m[name].rec;
            && ReadsAt(longer, |r|, a, n) && StartsAt(longer, |r| + 6, b, id) && ReadsAt(longer, |r| + 8, b, n)
            && id in longer[|r| + 6].recorders && n in longer[|r| + 6].recorders[id]
            && At(longer[|r| + 8].files, n) == At(longer[|r| + 6].files, n) != At(longer[|r|].files, n)
  {
    var h, id := r[|r| - 1], r[|r| - 1].reg.m[name].rec;
    var both := BothRun(r, max, a, c, id, n);
    AfterBothIsAnswerable(h, a, c, id, n);
    var now := both[|r| + 6];
    ThenStarts(both, max, b, name);
    var begun := Started(now, b, name);
    ThenNotesAndReads(both + [begun], max, b, n);
    var read := NotedBy(begun, b, n);
    longer := both + [begun] + [read] + [read];
    assert longer[..|r|] == both[..|r|];
    assert longer[|r|] == both[|r|] && longer[|r| + 1] == both[|r| + 1];
    assert longer[|r| + 6] == now && longer[|r| + 7] == begun && longer[|r| + 8] == read && longer[|r| + 9] == read;
    assert Start(now, begun, b, name);
  }

  lemma FirstIngest(h: Host, max: nat, name: string, def: Definition) returns (r: seq<Host>)
    requires Init(h) && max > 0 && name != ""
    ensures Run(r, max) && r[0] == h
    ensures var now := r[|r| - 1];
            && name in now.reg.m && now.reg.m[name] == Entry(def, h.next) && now.recorders == map[h.next := map[]]
            && now.asks == map[] && now.files == h.files && now.clock == h.clock
  {
    var checked := h.(reg := Asked(h.reg, name), loads := h.loads[0 := Pending(name, def)]);
    assert Check(h, checked, 0, name, def, false);
    assert Next(h, checked, max);
    Extended([h], max, checked);
    var stored := Kept(checked, 0, map[], max);
    assert Store(checked, stored, 0, map[], max);
    assert IngestStep(checked, stored, max);
    Extended([h] + [checked], max, stored);
    StoredHolds(h.reg, name, Entry(def, h.next), max);
    r := [h] + [checked] + [stored];
  }

  // A fresh host comes to such a state with one ingest and two questions, so there answers do differ.
  lemma AnswersDoDiffer(h: Host, max: nat, name: string, def: Definition, n: Name)
    returns (r: seq<Host>, i: nat, k: nat, j: nat, id: RecorderId)
    requires Init(h) && max > 0 && name != ""
    ensures Run(r, max) && r[0] == h && i < k < j < |r|
    ensures ReadsAt(r, i, 0, n) && StartsAt(r, k, 2, id) && ReadsAt(r, j, 2, n)
    ensures id in r[k].recorders && n in r[k].recorders[id]
    ensures At(r[j].files, n) == At(r[k].files, n) != At(r[i].files, n)
  {
    var q := FirstIngest(h, max, name, def);
    id := h.next;
    ThenStarts(q, max, 0, name);
    var one := Started(q[|q| - 1], 0, name);
    ThenStarts(q + [one], max, 1, name);
    var two := Started(one, 1, name);
    var begun := q + [one] + [two];
    r := AnswersMayDiffer(begun, max, 0, 1, 2, name, n);
    assert r[0] == r[..|begun|][0] == h;
    i, k, j := |begun|, |begun| + 6, |begun| + 8;
  }

  /* ---- only a race replaces a definition ---- */

  // A snapshot is held under the name with another definition.
  predicate HeldOtherwise(h: Host, name: string, def: Definition) {
    name in h.reg.m && h.reg.m[name].def != def
  }

  ghost predicate StoresOther(h: Host, h': Host, name: string, def: Definition, max: nat) {
    exists p, noted :: Store(h, h', p, noted, max) && h.loads[p].name == name && h.loads[p].def != def
  }

  ghost predicate StoresOtherAt(r: seq<Host>, m: nat, name: string, def: Definition, max: nat) {
    m + 1 < |r| && StoresOther(r[m], r[m + 1], name, def, max)
  }

  // What is held under a name is held as before.
  ghost predicate HeldBefore(h: Host, h': Host, name: string) {
    name in h'.reg.m ==> name in h.reg.m && h'.reg.m[name] == h.reg.m[name]
  }

  lemma QuestionsStoreNothing(h: Host, h': Host, name: string)
    requires QuestionStep(h, h')
    ensures HeldBefore(h, h', name)
  {
  }

  lemma OnlyAStoreAdds(h: Host, h': Host, name: string, max: nat)
    requires IngestStep(h, h', max)
    ensures HeldBefore(h, h', name) || exists p, noted :: Store(h, h', p, noted, max)
  {
  }

  lemma OnlyAStoreHolds(h: Host, h': Host, name: string, def: Definition, max: nat)
    requires Held(h.reg, max) && Next(h, h', max) && !HeldOtherwise(h, name, def) && HeldOtherwise(h', name, def)
    ensures StoresOther(h, h', name, def, max)
  {
    if QuestionStep(h, h') {
      QuestionsStoreNothing(h, h', name);
    } else if IngestStep(h, h', max) {
      OnlyAStoreAdds(h, h', name, max);
      var p, noted :| Store(h, h', p, noted, max);
      StoredParts(h.reg, h.loads[p].name, Entry(h.loads[p].def, h.next), max);
    }
  }

  lemma RunStores(r: seq<Host>, max: nat, m: nat, name: string, def: Definition)
    requires Run(r, max) && m + 1 < |r| && !HeldOtherwise(r[m], name, def) && HeldOtherwise(r[m + 1], name, def)
    ensures StoresOtherAt(r, m, name, def, max)
  {
    RunKeepsInv(r, max, m);
    assert Steps(r, m, max);
    OnlyAStoreHolds(r[m], r[m + 1], name, def, max);
  }

  lemma {:induction false} HeldSince(r: seq<Host>, max: nat, i: nat, j: nat, name: string, def: Definition) returns (m: nat)
    requires Run(r, max) && i <= j < |r| && !HeldOtherwise(r[i], name, def) && HeldOtherwise(r[j], name, def)
    ensures i <= m < j && StoresOtherAt(r, m, name, def, max)
    decreases j
  {
    if HeldOtherwise(r[j - 1], name, def) {
      m := HeldSince(r, max, i, j - 1, name, def);
    } else {
      m := j - 1;
      RunStores(r, max, m, name, def);
    }
  }

  // An ingest that its check let through replaces another's definition only if some other ingest or update stored one
  // under the same name between that check and the store.
  lemma OnlyARaceReplaces(r: seq<Host>, max: nat, i: nat, j: nat, p: nat, q: nat, name: string, def: Definition,
                          readBoard: bool, noted: Touched) returns (m: nat)
    requires Run(r, max) && i < j && j + 1 < |r| && Check(r[i], r[i + 1], p, name, def, readBoard)
    requires Store(r[j], r[j + 1], q, noted, max) && r[j].loads[q] == Pending(name, def)
    requires !KeepsDefinitions(r[j].reg, r[j + 1].reg)
    ensures i < m < j && StoresOtherAt(r, m, name, def, max)
  {
    RunKeepsInv(r, max, j);
    StoreKeepsDefinitions(r[j].reg, name, Entry(def, r[j].next), max);
    m := HeldSince(r, max, i + 1, j, name, def);
  }
}
