// Paging through stored reviews (service/reviewstore.go): newest first, from a token that names the run to resume
// after, over a store that gains and loses runs between pages.
module ReviewPages {
  import opened Grouping
  import opened Sorting

  const DEFAULT_REVIEW_PAGE := 50
  const MAX_REVIEW_PAGE := 500

  function PageSize(asked: int): (size: nat)
    ensures 0 < size <= MAX_REVIEW_PAGE
  {
    if asked <= 0 then DEFAULT_REVIEW_PAGE else if asked > MAX_REVIEW_PAGE then MAX_REVIEW_PAGE else asked
  }

  function After(list: seq<string>, id: string): seq<string> {
    if list == [] then []
    else if list[0] == id then list[1..]
    else After(list[1..], id)
  }

  // What is still to be listed when a page starts at token.
  function Left(list: seq<string>, token: string): seq<string> {
    if token == "" then list else After(list, token)
  }

  datatype Page = Page(ids: seq<string>, next: string)

  // The first size of what is left and kept, and a token only when more than that is left.
  function PageOf(list: seq<string>, size: nat, token: string, keep: string -> bool): Page {
    var kept := Where(keep, Left(list, token));
    if |kept| <= size || size == 0 then Page(kept, "") else Page(kept[..size], kept[size - 1])
  }

  /* ---- lists without repeats ---- */

  lemma {:induction false} WhereKeepsDistinct(keep: string -> bool, list: seq<string>)
    requires NoRepeats(list)
    ensures NoRepeats(Where(keep, list))
  {
    if list != [] {
      WhereKeepsDistinct(keep, list[1..]);
      WhereMembers(keep, list[1..]);
      assert forall x | x in list[1..] :: x != list[0];
    }
  }

  lemma {:induction false} AfterAt(list: seq<string>, k: nat)
    requires NoRepeats(list) && k < |list|
    ensures After(list, list[k]) == list[k + 1..]
  {
    if k > 0 {
      AfterAt(list[1..], k - 1);
      assert list[0] != list[k];
    }
  }

  lemma {:induction false} AfterIsLater(list: seq<string>, id: string)
    ensures |After(list, id)| <= |list| && After(list, id) == list[|list| - |After(list, id)|..]
  {
    if list != [] && list[0] != id {
      AfterIsLater(list[1..], id);
    }
  }

  // Picking commutes with going on after a picked one.
  lemma {:induction false} AfterWhere(keep: string -> bool, list: seq<string>, id: string)
    requires NoRepeats(list) && id in list && keep(id)
    ensures Where(keep, After(list, id)) == After(Where(keep, list), id)
  {
    if list[0] != id {
      AfterWhere(keep, list[1..], id);
      if keep(list[0]) {
        assert ([list[0]] + Where(keep, list[1..]))[1..] == Where(keep, list[1..]);
      }
    } else {
      assert ([id] + Where(keep, list[1..]))[1..] == Where(keep, list[1..]);
    }
  }

  lemma {:induction false} AfterAppends(a: seq<string>, b: seq<string>, id: string)
    requires id !in a
    ensures After(a + b, id) == After(b, id)
  {
    if a == [] {
      assert a + b == b;
    } else {
      assert a[0] in a && (a + b)[1..] == a[1..] + b;
      AfterAppends(a[1..], b, id);
    }
  }

  lemma {:induction false} WhereSwaps(p: string -> bool, q: string -> bool, list: seq<string>)
    ensures Where(p, Where(q, list)) == Where(q, Where(p, list))
  {
    if list != [] {
      WhereSwaps(p, q, list[1..]);
      assert ([list[0]] + Where(p, list[1..]))[1..] == Where(p, list[1..]);
      assert ([list[0]] + Where(q, list[1..]))[1..] == Where(q, list[1..]);
    }
  }

  /* ---- one page to the next ---- */

  function In(alive: set<string>): string -> bool {
    x => x in alive
  }

  // What a store does to a listing between two calls: new runs come first, and runs deleted are gone.
  ghost predicate Evolves(was: seq<string>, created: seq<string>, alive: set<string>, now: seq<string>) {
    now == created + Where(In(alive), was) && forall id | id in created :: id !in was
  }

  // What is left after a token shrinks by what was deleted, and by nothing else, as long as the token's run stays.
  lemma LeftEvolves(was: seq<string>, created: seq<string>, alive: set<string>, now: seq<string>, token: string)
    requires NoRepeats(was) && Evolves(was, created, alive, now) && token in was && token in alive
    ensures After(now, token) == Where(In(alive), After(was, token))
  {
    AfterAppends(created, Where(In(alive), was), token);
    AfterWhere(In(alive), was, token);
  }

  // The page after a token starts where the last one ended.
  lemma TokenContinues(list: seq<string>, size: nat, token: string, keep: string -> bool)
    requires NoRepeats(list) && "" !in list && (token == "" || token in list)
    requires PageOf(list, size, token, keep).next != ""
    ensures var kept, next := Where(keep, Left(list, token)), PageOf(list, size, token, keep).next;
            && size > 0 && |kept| > size && next in list && keep(next)
            && Where(keep, After(list, next)) == kept[size..]
  {
    var left := Left(list, token);
    var kept, next := Where(keep, left), PageOf(list, size, token, keep).next;
    AfterIsLater(list, token);
    WhereMembers(keep, left);
    assert next == kept[size - 1] && next in left;
    LeftStaysDistinct(list, token);
    WhereKeepsDistinct(keep, left);
    AfterAt(kept, size - 1);
    AfterWhere(keep, left, next);
    AfterWithin(list, token, next);
  }

  lemma LeftStaysDistinct(list: seq<string>, token: string)
    requires NoRepeats(list)
    ensures NoRepeats(Left(list, token)) && forall x | x in Left(list, token) :: x in list
  {
    AfterIsLater(list, token);
  }

  lemma {:induction false} AfterWithin(list: seq<string>, token: string, id: string)
    requires NoRepeats(list) && id in Left(list, token)
    ensures After(Left(list, token), id) == After(list, id)
  {
    if token != "" && list != [] {
      AfterIsLater(list, token);
      if list[0] == token {
        assert list[0] != id;
      } else {
        var rest := list[1..];
        AfterIsLater(rest, token);
        assert id in rest;
        var i :| 0 <= i < |rest| && rest[i] == id;
        assert list[0] != list[i + 1];
        AfterWithin(rest, token, id);
      }
    }
  }

  /* ---- following tokens ---- */

  // One call: the listing there was, the page answered, and what the store did to the listing before the next call.
  datatype Turn = Turn(list: seq<string>, size: nat, token: string, page: Page, created: seq<string>, alive: set<string>)

  ghost predicate Answered(t: Turn, keep: string -> bool) {
    && NoRepeats(t.list) && "" !in t.list && t.size > 0 && (t.token == "" || t.token in t.list)
    && t.page == PageOf(t.list, t.size, t.token, keep)
  }

  ghost predicate LeadsTo(t: Turn, u: Turn) {
    && u.token == t.page.next != "" && u.token in t.alive
    && Evolves(t.list, t.created, t.alive, u.list)
  }

  // Calls that follow tokens to the last page, over a store that never deletes the run a token names.
  ghost predicate Follows(turns: seq<Turn>, keep: string -> bool) {
    && turns != []
    && Answered(turns[0], keep)
    && (if |turns| == 1 then turns[0].page.next == "" else LeadsTo(turns[0], turns[1]) && Follows(turns[1..], keep))
  }

  function AllPages(turns: seq<Turn>): seq<string> {
    if turns == [] then [] else turns[0].page.ids + AllPages(turns[1..])
  }

  function Members(ids: seq<string>): set<string> {
    set x | x in ids
  }

  // A run that no deletion between the calls took.
  ghost predicate Survives(turns: seq<Turn>, id: string) {
    |turns| > 1 ==> id in turns[0].alive && Survives(turns[1..], id)
  }

  function Remaining(t: Turn, keep: string -> bool): seq<string> {
    Where(keep, Left(t.list, t.token))
  }

  lemma RemainingShrinks(t: Turn, u: Turn, keep: string -> bool)
    requires Answered(t, keep) && LeadsTo(t, u)
    ensures t.size < |Remaining(t, keep)| && t.page.ids == Remaining(t, keep)[..t.size]
    ensures Remaining(u, keep) == Where(In(t.alive), Remaining(t, keep)[t.size..])
  {
    TokenContinues(t.list, t.size, t.token, keep);
    LeftEvolves(t.list, t.created, t.alive, u.list, u.token);
    WhereSwaps(keep, In(t.alive), After(t.list, u.token));
  }

  lemma RemainingIsDistinct(t: Turn, keep: string -> bool)
    requires Answered(t, keep)
    ensures NoRepeats(Remaining(t, keep))
  {
    LeftStaysDistinct(t.list, t.token);
    WhereKeepsDistinct(keep, Left(t.list, t.token));
  }

  lemma {:induction false} WhereSame(p: string -> bool, q: string -> bool, list: seq<string>)
    requires forall x | x in list :: p(x) == q(x)
    ensures Where(p, list) == Where(q, list)
  {
    if list != [] {
      WhereSame(p, q, list[1..]);
    }
  }

  // A page, and then the pages picked from what survived of the rest, are picked in order from the whole.
  lemma PageThenRest(kept: seq<string>, size: nat, alive: set<string>, rest: seq<string>)
    requires NoRepeats(kept) && size <= |kept|
    requires rest == Where(In(Members(rest)), Where(In(alive), kept[size..]))
    ensures kept[..size] + rest == Where(In(Members(kept[..size] + rest)), kept)
  {
    var page, tail, all := kept[..size], kept[size..], kept[..size] + rest;
    assert kept == page + tail;
    WhereAppends(In(Members(all)), page, tail);
    WhereAll(In(Members(all)), page);
    WhereMembers(In(Members(rest)), Where(In(alive), tail));
    WhereMembers(In(alive), tail);
    forall x | x in tail ensures In(Members(all))(x) == In(Members(rest))(x) {
      var i :| 0 <= i < |tail| && tail[i] == x;
      assert kept[size + i] == x;
      assert x !in page;
    }
    WhereSame(In(Members(all)), In(Members(rest)), tail);
    WhereWithin(In(Members(rest)), In(alive), tail);
  }

  lemma LastPageIsTheRest(t: Turn, keep: string -> bool)
    requires Answered(t, keep) && t.page.next == ""
    ensures t.page.ids == Remaining(t, keep)
  {
    var kept := Remaining(t, keep);
    LeftStaysDistinct(t.list, t.token);
    WhereMembers(keep, Left(t.list, t.token));
    assert forall k | 0 <= k < |kept| :: kept[k] in kept && kept[k] in t.list;
  }

  lemma {:induction false} PagesPickInOrder(turns: seq<Turn>, keep: string -> bool)
    requires Follows(turns, keep)
    ensures AllPages(turns) == Where(In(Members(AllPages(turns))), Remaining(turns[0], keep))
  {
    var t, kept := turns[0], Remaining(turns[0], keep);
    if |turns| == 1 {
      LastPageIsTheRest(t, keep);
      assert turns[1..] == [] && AllPages(turns) == kept + [] == kept;
      WhereAll(In(Members(kept)), kept);
    } else {
      PagesPickInOrder(turns[1..], keep);
      RemainingShrinks(t, turns[1], keep);
      RemainingIsDistinct(t, keep);
      PageThenRest(kept, t.size, t.alive, AllPages(turns[1..]));
    }
  }

  lemma LaterStays(kept: seq<string>, size: nat, alive: set<string>, id: string)
    requires size <= |kept| && id in kept && id !in kept[..size] && id in alive
    ensures id in Where(In(alive), kept[size..])
  {
    assert kept == kept[..size] + kept[size..];
    WhereMembers(In(alive), kept[size..]);
    assert In(alive)(id);
  }

  lemma {:induction false} SurvivorIsPicked(turns: seq<Turn>, keep: string -> bool, id: string)
    requires Follows(turns, keep) && id in Remaining(turns[0], keep) && Survives(turns, id)
    ensures id in AllPages(turns)
  {
    var t, kept := turns[0], Remaining(turns[0], keep);
    if |turns| == 1 {
      LastPageIsTheRest(t, keep);
    } else {
      RemainingShrinks(t, turns[1], keep);
      if id !in kept[..t.size] {
        LaterStays(kept, t.size, t.alive, id);
        SurvivorIsPicked(turns[1..], keep, id);
      }
    }
  }

  // Following tokens to the end, while runs are created and deleted but never the one a token names, gives runs of the
  // first listing in its order, newest first, none twice; and every one of them that survives and is kept.
  lemma PagesGiveSurvivors(turns: seq<Turn>, keep: string -> bool)
    requires Follows(turns, keep) && turns[0].token == ""
    ensures AllPages(turns) == Where(In(Members(AllPages(turns))), Where(keep, turns[0].list))
    ensures NoRepeats(AllPages(turns))
    ensures forall id | id in turns[0].list && keep(id) && Survives(turns, id) :: id in AllPages(turns)
  {
    PagesPickInOrder(turns, keep);
    RemainingIsDistinct(turns[0], keep);
    WhereKeepsDistinct(In(Members(AllPages(turns))), Where(keep, turns[0].list));
    WhereMembers(keep, turns[0].list);
    forall id | id in turns[0].list && keep(id) && Survives(turns, id) ensures id in AllPages(turns) {
      SurvivorIsPicked(turns, keep, id);
    }
  }

  // On a store that does not change, a token never leads to an empty page.
  lemma TokenLeadsSomewhere(t: Turn, u: Turn, keep: string -> bool)
    requires Answered(t, keep) && Answered(u, keep) && LeadsTo(t, u) && u.list == t.list
    ensures u.page.ids != []
  {
    TokenContinues(t.list, t.size, t.token, keep);
  }
}
