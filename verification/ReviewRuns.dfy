// Paging while a store changes: reviews are created and deleted between the pages, and the pages together list what
// survives.
module ReviewRuns {
  import opened Grouping
  import opened Paths
  import opened ReviewPages
  import opened ReviewStore
  import opened Sorting
  import Recency

  ghost predicate Stores(s: Store, t: Store) {
    || t == s
    || (exists parent, results :: t == Created(s, parent, results))
    || (exists id :: id in s.docs && t == Deleted(s, id))
  }

  ghost predicate StoresAt(r: seq<Store>, i: nat)
    requires i + 1 < |r|
  {
    Stores(r[i], r[i + 1])
  }

  // Reviews created and deleted one at a time, from any sound store.
  ghost predicate Run(r: seq<Store>) {
    r != [] && Sound(r[0]) && forall i: nat | i + 1 < |r| :: StoresAt(r, i)
  }

  function Listed(s: Store, parent: string): seq<string> {
    Newest(s.ids, s.parents, parent)
  }

  function Keep(s: Store, filter: string): string -> bool {
    Matches(LoadFrom(s.docs), filter)
  }

  /* ---- what later stores have of earlier ones ---- */

  // Ids are never minted twice, and a run is never changed.
  ghost predicate Later(s: Store, t: Store) {
    && s.seqNo <= t.seqNo
    && (forall id | id in t.docs :: id in s.docs || Value(id) > s.seqNo)
    && (forall id | id in s.docs && id in t.docs :: t.docs[id] == s.docs[id])
  }

  lemma StepIsLater(s: Store, t: Store)
    requires Sound(s) && Stores(s, t)
    ensures Sound(t) && Later(s, t)
  {
    if parent, results :| t == Created(s, parent, results) {
      CreatedIsSound(s, parent, results);
      assert Id(s.seqNo + 1) !in Ids(s.ids);
    } else if id :| id in s.docs && t == Deleted(s, id) {
      DeletedIsSound(s, id);
    }
  }

  lemma OldIdsAreSmall(s: Store)
    requires Sound(s)
    ensures forall id | id in s.docs :: id in s.ids && Value(id) <= s.seqNo
  {
    assert forall id | id in s.docs :: id in Ids(s.ids);
  }

  lemma LaterOn(a: Store, b: Store, c: Store)
    requires Sound(a) && Later(a, b) && Later(b, c)
    ensures Later(a, c)
    ensures forall id | id in a.docs && id in c.docs :: id in b.docs
  {
    OldIdsAreSmall(a);
  }

  lemma {:induction false} RunIsSound(r: seq<Store>, i: nat)
    requires Run(r) && i < |r|
    ensures Sound(r[i])
  {
    if i > 0 {
      RunIsSound(r, i - 1);
      assert StoresAt(r, i - 1);
      StepIsLater(r[i - 1], r[i]);
    }
  }

  lemma {:induction false} RunIsLater(r: seq<Store>, i: nat, j: nat)
    requires Run(r) && i <= j < |r|
    ensures Later(r[i], r[j])
    decreases j
  {
    if i < j {
      RunIsLater(r, i, j - 1);
      RunIsSound(r, i);
      RunIsSound(r, j - 1);
      assert StoresAt(r, j - 1);
      StepIsLater(r[j - 1], r[j]);
      LaterOn(r[i], r[j - 1], r[j]);
    }
  }

  /* ---- a listing evolves through any number of steps ---- */

  lemma ListedIsHeld(s: Store, parent: string)
    requires Sound(s)
    ensures forall id | id in Listed(s, parent) :: id in s.ids && id in s.docs
    ensures NoRepeats(Listed(s, parent)) && "" !in Listed(s, parent)
  {
    assert forall id | id in s.ids :: id in Ids(s.ids);
    NewestIsOrdered(s.ids, s.parents, parent, s.seqNo);
    NoEmptyIds(s.ids, s.seqNo);
  }

  lemma EvolvesNowhere(s: Store, parent: string)
    requires Sound(s)
    ensures Evolves(Listed(s, parent), [], Ids(s.ids), Listed(s, parent))
  {
    ListedIsHeld(s, parent);
    WhereAll(In(Ids(s.ids)), Listed(s, parent));
  }

  lemma CreatingEvolves(s: Store, parent: string, under: string, results: Doc) returns (created: seq<string>)
    requires Sound(s)
    ensures var t := Created(s, under, results);
            Evolves(Listed(s, parent), created, Ids(t.ids), Listed(t, parent))
    ensures forall id | id in created :: Value(id) > s.seqNo
  {
    var was, id := Listed(s, parent), Id(s.seqNo + 1);
    ListedIsHeld(s, parent);
    CreatedIsSound(s, under, results);
    CreateEvolves(s.ids, s.parents, parent, id, under);
    created := if parent == "" || parent == under then [id] else [];
    AliveAlike(was, Members(was), Ids(s.ids + [id]));
  }

  lemma AliveAlike(was: seq<string>, alive: set<string>, still: set<string>)
    requires forall id | id in was :: id in alive && id in still
    ensures Where(In(alive), was) == Where(In(still), was)
  {
    WhereSame(In(alive), In(still), was);
  }

  lemma DeletingEvolves(s: Store, parent: string, id: string)
    requires Sound(s)
    ensures var t := Deleted(s, id); Evolves(Listed(s, parent), [], Ids(t.ids), Listed(t, parent))
  {
    DeletedIsSound(s, id);
    DeleteEvolves(s.ids, s.parents, parent, id);
  }

  // One step: what is new is at the head, and what is gone from the store is gone from the listing.
  lemma StepEvolves(s: Store, t: Store, parent: string) returns (created: seq<string>)
    requires Sound(s) && Stores(s, t)
    ensures Evolves(Listed(s, parent), created, Ids(t.ids), Listed(t, parent))
    ensures forall id | id in created :: Value(id) > s.seqNo
  {
    created := [];
    if t == s {
      EvolvesNowhere(s, parent);
    } else if under, results :| t == Created(s, under, results) {
      created := CreatingEvolves(s, parent, under, results);
    } else {
      var id :| id in s.docs && t == Deleted(s, id);
      DeletingEvolves(s, parent, id);
    }
  }

  lemma EvolvesToTheLast(a: Store, b: Store, c: Store, parent: string, f: seq<string>, g: seq<string>)
    returns (created: seq<string>)
    requires Sound(a) && Sound(b) && Sound(c) && Later(a, b) && Later(b, c)
    requires Evolves(Listed(a, parent), f, Ids(b.ids), Listed(b, parent))
    requires Evolves(Listed(b, parent), g, Ids(c.ids), Listed(c, parent)) && forall id | id in g :: Value(id) > b.seqNo
    ensures Evolves(Listed(a, parent), created, Ids(c.ids), Listed(c, parent))
  {
    var was := Listed(a, parent);
    ListedIsHeld(a, parent);
    OldIdsAreSmall(a);
    LaterOn(a, b, c);
    EvolvesOn(was, f, Ids(b.ids), Listed(b, parent), g, Ids(c.ids), Listed(c, parent));
    created := g + Where(In(Ids(c.ids)), f);
    WhereSame(In(Ids(b.ids) * Ids(c.ids)), In(Ids(c.ids)), was);
  }

  lemma EvolvesOneMore(r: seq<Store>, i: nat, k: nat, j: nat, parent: string, f: seq<string>)
    returns (created: seq<string>)
    requires Run(r) && i <= k && j == k + 1 && j < |r|
    requires Evolves(Listed(r[i], parent), f, Ids(r[k].ids), Listed(r[k], parent))
    ensures Evolves(Listed(r[i], parent), created, Ids(r[j].ids), Listed(r[j], parent))
  {
    RunIsSound(r, i);
    RunIsSound(r, k);
    RunIsSound(r, j);
    RunIsLater(r, i, k);
    RunIsLater(r, k, j);
    assert StoresAt(r, k);
    var g := StepEvolves(r[k], r[j], parent);
    created := EvolvesToTheLast(r[i], r[k], r[j], parent, f, g);
  }

  lemma {:induction false} RunEvolves(r: seq<Store>, i: nat, j: nat, parent: string) returns (created: seq<string>)
    requires Run(r) && i <= j < |r|
    ensures Evolves(Listed(r[i], parent), created, Ids(r[j].ids), Listed(r[j], parent))
    decreases j
  {
    if i == j {
      RunIsSound(r, i);
      EvolvesNowhere(r[i], parent);
      created := [];
    } else {
      var k := j - 1;
      var f := RunEvolves(r, i, k, parent);
      created := EvolvesOneMore(r, i, k, j, parent, f);
    }
  }

  /* ---- the calls ---- */

  // A call made when the store was r[at].
  datatype Call = Call(at: nat, size: nat, token: string, page: Page)

  // What List answers, where it does not refuse the token.
  ghost predicate Answers(r: seq<Store>, c: Call, parent: string, filter: string) {
    && c.at < |r| && 0 < c.size && (c.token == "" || c.token in Listed(r[c.at], parent))
    && c.page == PageOf(Listed(r[c.at], parent), c.size, c.token, Keep(r[c.at], filter))
  }

  // Calls that follow tokens to the last page, each made no earlier than the one before.
  ghost predicate Pages(r: seq<Store>, calls: seq<Call>, parent: string, filter: string) {
    && calls != [] && Answers(r, calls[0], parent, filter)
    && if |calls| == 1 then calls[0].page.next == ""
       else calls[0].at <= calls[1].at && calls[1].token == calls[0].page.next != ""
            && Pages(r, calls[1..], parent, filter)
  }

  function Answered(calls: seq<Call>): seq<string> {
    if calls == [] then [] else calls[0].page.ids + Answered(calls[1..])
  }

  // Whether a run matches, whenever it is held.
  ghost function EverKept(r: seq<Store>, filter: string): string -> bool {
    id => exists i :: 0 <= i < |r| && id in r[i].docs && Keep(r[i], filter)(id)
  }

  lemma KeptAlike(r: seq<Store>, i: nat, j: nat, filter: string, id: string)
    requires Run(r) && i < |r| && j < |r| && id in r[i].docs && id in r[j].docs
    ensures Keep(r[i], filter)(id) == Keep(r[j], filter)(id)
  {
    if i <= j {
      RunIsLater(r, i, j);
    } else {
      RunIsLater(r, j, i);
    }
  }

  lemma KeptIsEverKept(r: seq<Store>, i: nat, filter: string, parent: string)
    requires Run(r) && i < |r|
    ensures forall id | id in Listed(r[i], parent) :: Keep(r[i], filter)(id) == EverKept(r, filter)(id)
  {
    RunIsSound(r, i);
    ListedIsHeld(r[i], parent);
    forall id | id in Listed(r[i], parent) ensures Keep(r[i], filter)(id) == EverKept(r, filter)(id) {
      if j :| 0 <= j < |r| && id in r[j].docs && Keep(r[j], filter)(id) {
        KeptAlike(r, i, j, filter, id);
      }
    }
  }

  lemma SamePage(list: seq<string>, size: nat, token: string, p: string -> bool, q: string -> bool)
    requires NoRepeats(list) && forall id | id in list :: p(id) == q(id)
    ensures PageOf(list, size, token, p) == PageOf(list, size, token, q)
  {
    LeftStaysDistinct(list, token);
    WhereSame(p, q, Left(list, token));
  }

  lemma CallIsAnswered(r: seq<Store>, c: Call, parent: string, filter: string, created: seq<string>, alive: set<string>)
    requires Run(r) && Answers(r, c, parent, filter)
    ensures ReviewPages.Answered(Turn(Listed(r[c.at], parent), c.size, c.token, c.page, created, alive),
                                 EverKept(r, filter))
  {
    RunIsSound(r, c.at);
    ListedIsHeld(r[c.at], parent);
    KeptIsEverKept(r, c.at, filter, parent);
    SamePage(Listed(r[c.at], parent), c.size, c.token, Keep(r[c.at], filter), EverKept(r, filter));
  }

  lemma HeldBetween(r: seq<Store>, i: nat, k: nat, j: nat, id: string)
    requires Run(r) && i <= k <= j < |r| && id in r[i].docs && id in r[j].docs
    ensures id in r[k].docs && id in Ids(r[k].ids)
  {
    RunIsSound(r, i);
    RunIsSound(r, k);
    RunIsLater(r, i, k);
    RunIsLater(r, k, j);
    LaterOn(r[i], r[k], r[j]);
  }

  ghost predicate SurvivorsAre(r: seq<Store>, turns: seq<Turn>, i: nat, j: nat)
    requires i < |r| && j < |r|
  {
    forall id | id in r[i].docs && id in r[j].docs :: Survives(turns, id)
  }

  // One more call, before calls that are turns already.
  lemma OneTurnMore(r: seq<Store>, c: Call, u: Call, parent: string, filter: string, rest: seq<Turn>, j: nat)
    returns (turns: seq<Turn>)
    requires Run(r) && Answers(r, c, parent, filter) && c.at <= u.at <= j < |r| && u.token == c.page.next != ""
    requires u.token in Listed(r[u.at], parent)
    requires rest != [] && Follows(rest, EverKept(r, filter))
    requires rest[0].list == Listed(r[u.at], parent) && rest[0].token == u.token && SurvivorsAre(r, rest, u.at, j)
    ensures turns != [] && turns == [turns[0]] + rest && Follows(turns, EverKept(r, filter)) && turns[0].page == c.page
    ensures turns[0].list == Listed(r[c.at], parent) && turns[0].token == c.token && SurvivorsAre(r, turns, c.at, j)
  {
    var created := RunEvolves(r, c.at, u.at, parent);
    var alive := Ids(r[u.at].ids);
    CallIsAnswered(r, c, parent, filter, created, alive);
    RunIsSound(r, u.at);
    ListedIsHeld(r[u.at], parent);
    turns := [Turn(Listed(r[c.at], parent), c.size, c.token, c.page, created, alive)] + rest;
    assert turns[1..] == rest;
    forall id | id in r[c.at].docs && id in r[j].docs ensures Survives(turns, id) {
      HeldBetween(r, c.at, u.at, j, id);
    }
  }

  // The calls are turns over a listing that evolves.
  lemma {:induction false} CallsAreTurns(r: seq<Store>, calls: seq<Call>, parent: string, filter: string)
    returns (turns: seq<Turn>)
    requires Run(r) && Pages(r, calls, parent, filter)
    ensures turns != [] && Follows(turns, EverKept(r, filter)) && AllPages(turns) == Answered(calls)
    ensures turns[0].list == Listed(r[calls[0].at], parent) && turns[0].token == calls[0].token
    ensures calls[0].at <= calls[|calls| - 1].at < |r|
    ensures SurvivorsAre(r, turns, calls[0].at, calls[|calls| - 1].at)
    decreases |calls|
  {
    var c := calls[0];
    if |calls| == 1 {
      CallIsAnswered(r, c, parent, filter, [], {});
      turns := [Turn(Listed(r[c.at], parent), c.size, c.token, c.page, [], {})];
      assert turns[1..] == [] && calls[1..] == [];
    } else {
      var rest := CallsAreTurns(r, calls[1..], parent, filter);
      turns := OneTurnMore(r, c, calls[1], parent, filter, rest, calls[|calls| - 1].at);
      assert turns[1..] == rest;
    }
  }

  // However many reviews are created and deleted between the pages, as long as no page is refused its token, the pages
  // list reviews of the first listing in its order, newest first, none twice; and every one of them that matches and is
  // still held at the last page.
  lemma StorePagesGiveSurvivors(r: seq<Store>, calls: seq<Call>, parent: string, filter: string)
    requires Run(r) && Pages(r, calls, parent, filter) && calls[0].token == ""
    ensures calls[|calls| - 1].at < |r|
    ensures var first, last, all := r[calls[0].at], r[calls[|calls| - 1].at], Answered(calls);
            && NoRepeats(all)
            && all == Where(In(Members(all)), Where(Keep(first, filter), Listed(first, parent)))
            && forall id | id in Listed(first, parent) && Keep(first, filter)(id) && id in last.docs :: id in all
  {
    var turns := CallsAreTurns(r, calls, parent, filter);
    var first := calls[0].at;
    PagesGiveSurvivors(turns, EverKept(r, filter));
    RunIsSound(r, first);
    ListedIsHeld(r[first], parent);
    KeptIsEverKept(r, first, filter, parent);
    WhereSame(Keep(r[first], filter), EverKept(r, filter), Listed(r[first], parent));
  }
}
