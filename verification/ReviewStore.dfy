// The in-memory store of review runs (service/reviewstore.go): ids minted from a counter, names built from a parent and
// an id, and listing newest first.
module ReviewStore {
  import opened Grouping
  import opened Paths
  import opened ReviewPages
  import Recency

  /* ---- resource names ---- */

  const REVIEWS := "reviews/"
  const PROJECTS := "projects/"

  predicate HasPrefix(s: string, p: string) {
    |s| >= |p| && s[..|p|] == p
  }

  predicate OccursAt(s: string, sep: string, k: nat) {
    k + |sep| <= |s| && s[k..k + |sep|] == sep
  }

  // Where sep last occurs in s at or before k.
  function LastFrom(s: string, sep: string, k: nat): (at: Option<nat>)
    ensures at.Some? ==> OccursAt(s, sep, at.value)
  {
    if OccursAt(s, sep, k) then Some(k) else if k == 0 then None else LastFrom(s, sep, k - 1)
  }

  // Where sep last occurs in s.
  function LastIndex(s: string, sep: string): (at: Option<nat>)
    ensures at.Some? ==> OccursAt(s, sep, at.value)
  {
    LastFrom(s, sep, |s|)
  }

  // An id that cannot steer a store out of its folder, or split one name into two.
  predicate ValidId(id: string) {
    id != "" && id != "." && id != ".." && '/' !in id && '\\' !in id
  }

  predicate ProjectName(name: string) {
    HasPrefix(name, PROJECTS) && ValidId(name[|PROJECTS|..])
  }

  function ReviewName(parent: string, id: string): string {
    if parent == "" then REVIEWS + id else parent + "/" + REVIEWS + id
  }

  function SplitReviewName(name: string): Option<(string, string)> {
    if HasPrefix(name, REVIEWS) then
      var id := name[|REVIEWS|..];
      if ValidId(id) then Some(("", id)) else None
    else
      match LastIndex(name, "/" + REVIEWS)
      case None => None
      case Some(cut) =>
        var parent, id := name[..cut], name[cut + |"/" + REVIEWS|..];
        if ProjectName(parent) && ValidId(id) then Some((parent, id)) else None
  }

  lemma {:induction false} LastFromFinds(s: string, sep: string, at: nat, k: nat)
    requires OccursAt(s, sep, at) && at <= k && forall j | at < j <= k :: !OccursAt(s, sep, j)
    ensures LastFrom(s, sep, k) == Some(at)
    decreases k
  {
    if at < k {
      LastFromFinds(s, sep, at, k - 1);
    }
  }

  // A later place for the separator would put its closing slash in the id.
  lemma NotInId(parent: string, id: string, j: nat)
    requires '/' !in id && j > |parent|
    ensures !OccursAt(parent + ("/" + REVIEWS) + id, "/" + REVIEWS, j)
  {
    var sep := "/" + REVIEWS;
    var name := parent + sep + id;
    if j + |sep| <= |name| {
      var k := j - |parent| - 1;
      assert name[j..j + |sep|][|sep| - 1] == name[j + |sep| - 1] == id[k];
      assert id[k] in id;
    }
  }

  lemma ParentedNameSplits(parent: string, id: string)
    requires ValidId(id)
    ensures LastIndex(parent + ("/" + REVIEWS) + id, "/" + REVIEWS) == Some(|parent|)
  {
    var sep := "/" + REVIEWS;
    var name := parent + sep + id;
    assert name[|parent|..|parent| + |sep|] == sep;
    forall j | |parent| < j <= |name| ensures !OccursAt(name, sep, j) {
      NotInId(parent, id, j);
    }
    LastFromFinds(name, sep, |parent|, |name|);
  }

  // Building a name and splitting it gives back its parts, exactly when the id is valid and the parent is none or a
  // project's name.
  lemma SplitInvertsName(parent: string, id: string)
    ensures ValidId(id) && (parent == "" || ProjectName(parent)) ==>
              SplitReviewName(ReviewName(parent, id)) == Some((parent, id))
    ensures SplitReviewName(ReviewName(parent, id)) == Some((parent, id)) ==>
              ValidId(id) && (parent == "" || ProjectName(parent))
  {
    var name := ReviewName(parent, id);
    if parent == "" {
      assert name[|REVIEWS|..] == id && name[..|REVIEWS|] == REVIEWS;
    } else if ValidId(id) && ProjectName(parent) {
      var sep := "/" + REVIEWS;
      assert name == parent + sep + id;
      ParentedNameSplits(parent, id);
      assert name[0] == parent[0] == 'p' && REVIEWS[0] == 'r';
      assert name[..|parent|] == parent && name[|parent| + |sep|..] == id;
    }
  }

  /* ---- ids ---- */

  function Digit(d: nat): char
    requires d < 10
  {
    '0' + d as char
  }

  function Decimal(n: nat): string {
    if n < 10 then [Digit(n)] else Decimal(n / 10) + [Digit(n % 10)]
  }

  function Padded(s: string, width: nat): string
    decreases width - |s|
  {
    if |s| >= width then s else Padded("0" + s, width)
  }

  // The ordinal in at least eight digits.
  function Id(n: nat): string {
    Padded(Decimal(n), 8)
  }

  function Value(s: string): int {
    if s == "" then 0 else 10 * Value(s[..|s| - 1]) + (s[|s| - 1] as int - '0' as int)
  }

  lemma {:induction false} DecimalReadsBack(n: nat)
    ensures Value(Decimal(n)) == n
    ensures Decimal(n) != "" && forall c | c in Decimal(n) :: '0' <= c <= '9'
  {
    if n < 10 {
      assert [Digit(n)][..0] == "";
    } else {
      DecimalReadsBack(n / 10);
      assert Decimal(n)[..|Decimal(n)| - 1] == Decimal(n / 10);
    }
  }

  lemma {:induction false} ZeroAdds(s: string)
    ensures Value("0" + s) == Value(s)
  {
    if s == "" {
      assert ("0" + s)[..0] == "";
    } else {
      ZeroAdds(s[..|s| - 1]);
      assert ("0" + s)[..|s|] == "0" + s[..|s| - 1];
    }
  }

  lemma {:induction false} PaddingAdds(s: string, width: nat)
    ensures Value(Padded(s, width)) == Value(s)
    ensures (forall c | c in s :: '0' <= c <= '9') ==> forall c | c in Padded(s, width) :: '0' <= c <= '9'
    ensures |Padded(s, width)| >= |s|
    decreases width - |s|
  {
    if |s| < width {
      ZeroAdds(s);
      PaddingAdds("0" + s, width);
    }
  }

  // An id reads back as its ordinal, so no two ordinals share one, and it may appear in a name.
  lemma IdReadsBack(n: nat)
    ensures Value(Id(n)) == n && ValidId(Id(n))
  {
    DecimalReadsBack(n);
    PaddingAdds(Decimal(n), 8);
    var id := Id(n);
    assert id[0] in id;
  }

  /* ---- the store ---- */

  // A stored run: the design it was made of, and what it recorded.
  datatype Doc = Doc(source: string, body: string)

  datatype Refusal = BadName | NoSuchReview | BadToken

  datatype Result<T> = Ok(value: T) | Err(why: Refusal)

  datatype Listing = Listing(docs: seq<Doc>, names: seq<string>, next: string)

  // Filtering in place: what is not wanted is overwritten by what follows.
  method SlicesDelete(a: array<string>, want: string) returns (n: nat)
    modifies a
    ensures n <= a.Length && a[..n] == Recency.Without(old(a[..]), want)
  {
    n := 0;
    ghost var was := a[..];
    for i := 0 to a.Length
      invariant n <= i && a[..n] + Recency.Without(was[i..], want) == Recency.Without(was, want)
      invariant forall k | i <= k < a.Length :: a[k] == was[k]
    {
      var id := a[i];
      assert was[i..][0] == id && was[i..][1..] == was[i + 1..];
      if id != want {
        ghost var rest := Recency.Without(was[i + 1..], want);
        assert a[..n] + ([id] + rest) == (a[..n] + [id]) + rest;
        a[n] := id;
        n := n + 1;
      }
    }
    assert was[a.Length..] == [];
  }

  // Whether a run is listed under a filter, given how to load it. A run that cannot be loaded is not.
  function Matches(load: string -> Option<Doc>, filter: string): string -> bool {
    id => load(id).Some? && (filter == "" || load(id).value.source == filter)
  }

  // Loads every run of a page, and names it.
  ghost predicate Lists(load: string -> Option<Doc>, nameOf: string -> string, page: Page, r: Listing) {
    && |r.docs| == |r.names| == |page.ids| && r.next == page.next
    && forall i | 0 <= i < |page.ids| ::
         load(page.ids[i]) == Some(r.docs[i]) && r.names[i] == nameOf(page.ids[i])
  }

  lemma {:induction false} AfterIndex(list: seq<string>, id: string, i: nat)
    requires i < |list| && list[i] == id && id !in list[..i]
    ensures After(list, id) == list[i + 1..]
  {
    if i > 0 {
      assert list[0] in list[..i];
      forall x | x in list[1..][..i - 1] ensures x in list[..i] {
        var k :| 0 <= k < i - 1 && list[1..][k] == x;
        assert list[k + 1] == x;
      }
      AfterIndex(list[1..], id, i - 1);
    }
  }

  // The page a listing answers: the runs after the token that match, loaded, and a token when more of them remain.
  method PageReviews(newestFirst: seq<string>, pageSize: int, token: string, filter: string,
                     load: string -> Option<Doc>, nameOf: string -> string)
    returns (r: Result<Listing>, ghost page: Page)
    requires "" !in newestFirst
    ensures r == Err(BadToken) <==> token != "" && token !in newestFirst
    ensures r.Ok? || r == Err(BadToken)
    ensures r.Ok? ==>
              && page == PageOf(newestFirst, PageSize(pageSize), token, Matches(load, filter))
              && Lists(load, nameOf, page, r.value)
  {
    var size := PageSize(pageSize);
    page := ReviewPages.Page([], "");
    var start := 0;
    if token != "" {
      var found := false;
      for i := 0 to |newestFirst|
        invariant token !in newestFirst[..i]
      {
        if newestFirst[i] == token {
          start, found := i + 1, true;
          AfterIndex(newestFirst, token, i);
          break;
        }
      }
      if !found {
        assert newestFirst[..|newestFirst|] == newestFirst;
        return Err(BadToken), page;
      }
    }
    var listing;
    listing, page := TakePage(newestFirst[start..], size, filter, load, nameOf);
    r := Ok(listing);
  }

  method TakePage(rest: seq<string>, size: nat, filter: string, load: string -> Option<Doc>, nameOf: string -> string)
    returns (r: Listing, ghost page: Page)
    requires size > 0 && "" !in rest
    ensures var kept := Where(Matches(load, filter), rest);
            page == if |kept| <= size then ReviewPages.Page(kept, "") else ReviewPages.Page(kept[..size], kept[size - 1])
    ensures Lists(load, nameOf, page, r)
  {
    ghost var keep := Matches(load, filter);
    ghost var ids := [];
    var taken, last := Listing([], [], ""), "";
    for i := 0 to |rest|
      invariant ids == Where(keep, rest[..i]) && |ids| <= size && (ids != [] ==> last == ids[|ids| - 1])
      invariant taken.next == "" && Lists(load, nameOf, ReviewPages.Page(ids, ""), taken)
    {
      var full;
      PickNext(keep, rest, i);
      full, taken, last, ids := TakeOne(rest[i], size, filter, load, nameOf, taken, last, ids);
      if full {
        PageIsFull(keep, rest, i, ids);
        return Listing(taken.docs, taken.names, last), ReviewPages.Page(ids, last);
      }
    }
    assert rest[..|rest|] == rest;
    r, page := taken, ReviewPages.Page(ids, "");
  }

  // One run: passed over, taken onto the page, or found once the page is full.
  method TakeOne(id: string, size: nat, filter: string, load: string -> Option<Doc>, nameOf: string -> string,
                 taken: Listing, last: string, ghost ids: seq<string>)
    returns (full: bool, now: Listing, at: string, ghost more: seq<string>)
    requires |ids| <= size && (ids != [] ==> last == ids[|ids| - 1])
    requires taken.next == "" && Lists(load, nameOf, ReviewPages.Page(ids, ""), taken)
    ensures full <==> Matches(load, filter)(id) && |ids| == size
    ensures more == if Matches(load, filter)(id) && !full then ids + [id] else ids
    ensures |more| <= size && (more != [] ==> at == more[|more| - 1])
    ensures now.next == "" && Lists(load, nameOf, ReviewPages.Page(more, ""), now)
  {
    full, now, at, more := false, taken, last, ids;
    var doc := load(id);
    if doc.None? || (filter != "" && doc.value.source != filter) {
      return;
    }
    if |taken.docs| == size {
      full := true;
      return;
    }
    ListsOneMore(load, nameOf, ids, taken, id, doc.value);
    now := Listing(taken.docs + [doc.value], taken.names + [nameOf(id)], "");
    at, more := id, ids + [id];
  }

  lemma PickNext(keep: string -> bool, rest: seq<string>, i: nat)
    requires i < |rest|
    ensures Where(keep, rest[..i + 1]) == if keep(rest[i]) then Where(keep, rest[..i]) + [rest[i]] else Where(keep, rest[..i])
  {
    assert rest[..i + 1] == rest[..i] + [rest[i]] && [rest[i]][1..] == [];
    WhereAppends(keep, rest[..i], [rest[i]]);
  }

  // One more match after a full page proves there is a next one.
  lemma PageIsFull(keep: string -> bool, rest: seq<string>, i: nat, ids: seq<string>)
    requires i < |rest| && keep(rest[i]) && ids == Where(keep, rest[..i]) != []
    ensures var kept := Where(keep, rest);
            |kept| > |ids| && kept[..|ids|] == ids && kept[|ids| - 1] == ids[|ids| - 1]
  {
    assert rest == rest[..i] + rest[i..] && rest[i..][0] == rest[i];
    WhereAppends(keep, rest[..i], rest[i..]);
  }

  lemma ListsOneMore(load: string -> Option<Doc>, nameOf: string -> string, ids: seq<string>, r: Listing, id: string,
                     doc: Doc)
    requires Lists(load, nameOf, ReviewPages.Page(ids, ""), r) && load(id) == Some(doc)
    ensures Lists(load, nameOf, ReviewPages.Page(ids + [id], ""), Listing(r.docs + [doc], r.names + [nameOf(id)], ""))
  {
  }

  // The runs of a project, newest first; every run there is when no project is named.
  function Newest(ids: seq<string>, parents: map<string, string>, parent: string): seq<string> {
    if ids == [] then []
    else
      var rest, id := Newest(ids[..|ids| - 1], parents, parent), ids[|ids| - 1];
      if parent != "" && (id !in parents || parents[id] != parent) then rest else [id] + rest
  }

  ghost function Ids(ids: seq<string>): set<string> {
    set id | id in ids
  }

  // Ids were minted in turn by a counter that now reads seqNo, and are listed oldest first.
  ghost predicate Minted(ids: seq<string>, seqNo: nat) {
    && (forall id | id in ids :: 0 < Value(id) <= seqNo && id == Id(Value(id)))
    && (forall i, j | 0 <= i < j < |ids| :: Value(ids[i]) < Value(ids[j]))
  }

  lemma MintingNext(ids: seq<string>, seqNo: nat)
    requires Minted(ids, seqNo)
    ensures Minted(ids + [Id(seqNo + 1)], seqNo + 1) && Id(seqNo + 1) !in ids
  {
    IdReadsBack(seqNo + 1);
    assert forall i | 0 <= i < |ids| :: ids[i] in ids;
  }

  lemma MintedTail(ids: seq<string>, seqNo: nat)
    requires Minted(ids, seqNo) && ids != []
    ensures Minted(ids[1..], seqNo) && forall x | x in ids[1..] :: Value(ids[0]) < Value(x)
    ensures 0 < Value(ids[0]) <= seqNo && ids[0] == Id(Value(ids[0]))
  {
    assert ids[0] in ids;
  }

  lemma MintedCons(first: string, rest: seq<string>, seqNo: nat)
    requires Minted(rest, seqNo) && 0 < Value(first) <= seqNo && first == Id(Value(first))
    requires forall x | x in rest :: Value(first) < Value(x)
    ensures Minted([first] + rest, seqNo)
  {
  }

  lemma {:induction false} WithoutStaysMinted(ids: seq<string>, seqNo: nat, id: string)
    requires Minted(ids, seqNo)
    ensures Minted(Recency.Without(ids, id), seqNo)
  {
    if ids != [] {
      MintedTail(ids, seqNo);
      WithoutStaysMinted(ids[1..], seqNo, id);
      if ids[0] != id {
        MintedCons(ids[0], Recency.Without(ids[1..], id), seqNo);
      }
    }
  }

  lemma MintedFront(ids: seq<string>, seqNo: nat)
    requires Minted(ids, seqNo) && ids != []
    ensures Minted(ids[..|ids| - 1], seqNo)
    ensures forall x | x in ids[..|ids| - 1] :: Value(x) < Value(ids[|ids| - 1])
  {
    var front := ids[..|ids| - 1];
    forall x | x in front ensures Value(x) < Value(ids[|ids| - 1]) {
      var i :| 0 <= i < |front| && front[i] == x;
      assert ids[i] == x;
    }
  }

  // A listing is in order of minting, newest first, and so without repeats; and holds just the project's runs.
  lemma {:induction false} NewestIsOrdered(ids: seq<string>, parents: map<string, string>, parent: string, seqNo: nat)
    requires Minted(ids, seqNo) && forall id | id in ids :: id in parents
    ensures var list := Newest(ids, parents, parent);
            && (forall i, j | 0 <= i < j < |list| :: Value(list[i]) > Value(list[j]))
            && (forall id :: id in list <==> id in ids && (parent == "" || parents[id] == parent))
  {
    if ids != [] {
      var front, last := ids[..|ids| - 1], ids[|ids| - 1];
      assert ids == front + [last];
      MintedFront(ids, seqNo);
      NewestIsOrdered(front, parents, parent, seqNo);
      var rest := Newest(front, parents, parent);
      assert forall i | 0 <= i < |rest| :: rest[i] in rest;
    }
  }

  // What a store holds: ids in the order they were minted, and under each its run and the project it is filed under.
  datatype Store = Store(seqNo: nat, ids: seq<string>, docs: map<string, Doc>, parents: map<string, string>)

  ghost predicate Sound(s: Store) {
    Ids(s.ids) == s.docs.Keys == s.parents.Keys && Minted(s.ids, s.seqNo)
  }

  function Created(s: Store, parent: string, results: Doc): Store {
    var id := Id(s.seqNo + 1);
    Store(s.seqNo + 1, s.ids + [id], s.docs[id := results], s.parents[id := parent])
  }

  function Deleted(s: Store, id: string): Store {
    Store(s.seqNo, Recency.Without(s.ids, id), s.docs - {id}, s.parents - {id})
  }

  function LoadFrom(docs: map<string, Doc>): string -> Option<Doc> {
    id => if id in docs then Some(docs[id]) else None
  }

  lemma CreatedIsSound(s: Store, parent: string, results: Doc)
    requires Sound(s)
    ensures Sound(Created(s, parent, results)) && Id(s.seqNo + 1) !in s.ids && Value(Id(s.seqNo + 1)) == s.seqNo + 1
  {
    MintingNext(s.ids, s.seqNo);
    IdReadsBack(s.seqNo + 1);
  }

  lemma DeletedIsSound(s: Store, id: string)
    requires Sound(s)
    ensures Sound(Deleted(s, id)) && Ids(Deleted(s, id).ids) == Ids(s.ids) - {id}
  {
    WithoutStaysMinted(s.ids, s.seqNo, id);
    assert Ids(Recency.Without(s.ids, id)) == Ids(s.ids) - {id};
  }

  class MemReviewStore {
    var seqNo: nat
    var ids: seq<string>
    var docs: map<string, Doc>
    var parents: map<string, string>

    function Now(): Store
      reads this
    {
      Store(seqNo, ids, docs, parents)
    }

    ghost predicate Valid()
      reads this
    {
      Sound(Now())
    }

    constructor ()
      ensures Valid() && Now() == Store(0, [], map[], map[])
    {
      seqNo, ids, docs, parents := 0, [], map[], map[];
    }

    // Stores a run under a new id and answers its name.
    method Create(parent: string, results: Doc) returns (name: string)
      requires Valid()
      modifies this
      ensures Valid() && Now() == Created(old(Now()), parent, results)
      ensures Id(seqNo) !in old(docs) && name == ReviewName(parent, Id(seqNo))
    {
      CreatedIsSound(Now(), parent, results);
      seqNo := seqNo + 1;
      var id := Id(seqNo);
      docs := docs[id := results];
      parents := parents[id := parent];
      ids := ids + [id];
      name := ReviewName(parent, id);
    }

    // The run a name's id stands for; the parent it spells is not compared.
    method Get(name: string) returns (r: Result<Doc>)
      requires Valid()
      ensures match SplitReviewName(name)
              case None => r == Err(BadName)
              case Some((_, id)) => r == if id in docs then Ok(docs[id]) else Err(NoSuchReview)
    {
      match SplitReviewName(name)
      case None => r := Err(BadName);
      case Some((_, id)) => r := if id in docs then Ok(docs[id]) else Err(NoSuchReview);
    }

    function Load(): string -> Option<Doc>
      reads this
    {
      LoadFrom(docs)
    }

    function NameOf(): string -> string
      reads this
    {
      var held := parents;
      id => ReviewName(if id in held then held[id] else "", id)
    }

    // Lists the runs of a project, newest first, a page at a time.
    method List(parent: string, pageSize: int, token: string, filter: string)
      returns (r: Result<Listing>, ghost page: Page)
      requires Valid()
      ensures var list := Newest(ids, parents, parent);
              && (r == Err(BadToken) <==> token != "" && token !in list)
              && (r.Ok? || r == Err(BadToken))
              && (r.Ok? ==> page == PageOf(list, PageSize(pageSize), token, Matches(Load(), filter))
                            && Lists(Load(), NameOf(), page, r.value))
    {
      var newest := NewestFirst(parent);
      NewestIsOrdered(ids, parents, parent, seqNo);
      NoEmptyIds(ids, seqNo);
      r, page := PageReviews(newest, pageSize, token, filter, Load(), NameOf());
    }

    method NewestFirst(parent: string) returns (newest: seq<string>)
      requires forall id | id in ids :: id in parents
      ensures newest == Newest(ids, parents, parent)
    {
      newest := [];
      assert ids[..|ids|] == ids;
      for i := |ids| downto 0
        invariant newest + Newest(ids[..i], parents, parent) == Newest(ids, parents, parent)
      {
        var id := ids[i];
        assert ids[..i + 1][..i] == ids[..i];
        if parent != "" && parents[id] != parent {
          continue;
        }
        ghost var rest := Newest(ids[..i], parents, parent);
        assert newest + ([id] + rest) == (newest + [id]) + rest;
        newest := newest + [id];
      }
    }

    method Delete(name: string) returns (r: Result<()>)
      requires Valid()
      modifies this
      ensures Valid()
      ensures match SplitReviewName(name)
              case None => r == Err(BadName) && Now() == old(Now())
              case Some((_, id)) =>
                if id in old(docs) then r == Ok(()) && Now() == Deleted(old(Now()), id)
                else r == Err(NoSuchReview) && Now() == old(Now())
    {
      match SplitReviewName(name)
      case None => r := Err(BadName);
      case Some((_, id)) =>
        if id !in docs {
          return Err(NoSuchReview);
        }
        Remove(id);
        r := Ok(());
    }

    method Remove(id: string)
      requires Valid()
      modifies this
      ensures Valid() && Now() == Deleted(old(Now()), id)
    {
      DeletedIsSound(Now(), id);
      docs := docs - {id};
      parents := parents - {id};
      DropId(id);
    }

    method DropId(id: string)
      modifies `ids
      ensures ids == Recency.Without(old(ids), id)
    {
      var held := ids;
      var a := new string[|held|](i requires 0 <= i < |held| => held[i]);
      assert a[..] == held;
      var n := SlicesDelete(a, id);
      ids := a[..n];
    }
  }

  lemma NoEmptyIds(ids: seq<string>, seqNo: nat)
    requires Minted(ids, seqNo)
    ensures "" !in ids
  {
    assert Value("") == 0;
  }

  /* ---- what the store does to a listing ---- */

  lemma {:induction false} NewestIgnores(ids: seq<string>, parents: map<string, string>, parent: string, id: string,
                                         under: string)
    requires id !in ids
    ensures Newest(ids, parents[id := under], parent) == Newest(ids, parents, parent)
  {
    if ids != [] {
      assert ids == ids[..|ids| - 1] + [ids[|ids| - 1]];
      NewestIgnores(ids[..|ids| - 1], parents, parent, id, under);
    }
  }

  lemma {:induction false} NewestHolds(ids: seq<string>, parents: map<string, string>, parent: string)
    ensures forall id | id in Newest(ids, parents, parent) :: id in ids
  {
    if ids != [] {
      NewestHolds(ids[..|ids| - 1], parents, parent);
    }
  }

  // Creating puts a new run at the head of each listing it belongs to, and leaves the rest of it alone.
  lemma CreateEvolves(ids: seq<string>, parents: map<string, string>, parent: string, id: string, under: string)
    requires id !in ids
    ensures var was := Newest(ids, parents, parent);
            Evolves(was, if parent == "" || parent == under then [id] else [], Members(was),
                    Newest(ids + [id], parents[id := under], parent))
  {
    var was := Newest(ids, parents, parent);
    assert (ids + [id])[..|ids|] == ids;
    NewestIgnores(ids, parents, parent, id, under);
    NewestHolds(ids, parents, parent);
    WhereAll(In(Members(was)), was);
  }

  lemma {:induction false} NewestWithout(ids: seq<string>, parents: map<string, string>, parent: string, id: string,
                                         alive: set<string>)
    requires forall x | x in ids :: x in alive <==> x != id
    ensures Newest(WithoutLast(ids, id), parents - {id}, parent) == Where(In(alive), Newest(ids, parents, parent))
  {
    if ids != [] {
      var front, last := ids[..|ids| - 1], ids[|ids| - 1];
      assert ids == front + [last];
      NewestWithout(front, parents, parent, id, alive);
      var rest := Newest(front, parents, parent);
      assert ([last] + rest)[1..] == rest;
      if last != id {
        assert (WithoutLast(front, id) + [last])[..|WithoutLast(front, id)|] == WithoutLast(front, id);
      }
    }
  }

  // Recency.Without, unrolled from the other end.
  function WithoutLast(ids: seq<string>, id: string): seq<string> {
    if ids == [] then []
    else
      var rest, last := WithoutLast(ids[..|ids| - 1], id), ids[|ids| - 1];
      if last == id then rest else rest + [last]
  }

  lemma {:induction false} WithoutAppends(a: seq<string>, last: string, id: string)
    ensures Recency.Without(a + [last], id) == Recency.Without(a, id) + if last == id then [] else [last]
  {
    if a == [] {
      assert a + [last] == [last] && [last][1..] == [];
    } else {
      assert (a + [last])[1..] == a[1..] + [last];
      WithoutAppends(a[1..], last, id);
    }
  }

  lemma {:induction false} WithoutEitherWay(ids: seq<string>, id: string)
    ensures WithoutLast(ids, id) == Recency.Without(ids, id)
  {
    if ids != [] {
      WithoutEitherWay(ids[..|ids| - 1], id);
      assert ids == ids[..|ids| - 1] + [ids[|ids| - 1]];
      WithoutAppends(ids[..|ids| - 1], ids[|ids| - 1], id);
    }
  }

  // Deleting takes the run out of each listing and leaves the rest of it alone.
  lemma DeleteEvolves(ids: seq<string>, parents: map<string, string>, parent: string, id: string)
    ensures var was := Newest(ids, parents, parent);
            Evolves(was, [], Ids(ids) - {id}, Newest(Recency.Without(ids, id), parents - {id}, parent))
  {
    WithoutEitherWay(ids, id);
    NewestWithout(ids, parents, parent, id, Ids(ids) - {id});
  }

  // What happens between two calls may be any number of such steps, as ids are never minted twice.
  lemma EvolvesOn(a: seq<string>, f: seq<string>, alive: set<string>, b: seq<string>, g: seq<string>, still: set<string>,
                  c: seq<string>)
    requires Evolves(a, f, alive, b) && Evolves(b, g, still, c) && forall id | id in g :: id !in a
    ensures Evolves(a, g + Where(In(still), f), alive * still, c)
  {
    WhereAppends(In(still), f, Where(In(alive), a));
    WhereMembers(In(still), f);
    WhereBoth(alive, still, a);
    assert c == g + (Where(In(still), f) + Where(In(still), Where(In(alive), a)));
  }

  lemma {:induction false} WhereBoth(alive: set<string>, still: set<string>, a: seq<string>)
    ensures Where(In(still), Where(In(alive), a)) == Where(In(alive * still), a)
  {
    if a != [] {
      WhereBoth(alive, still, a[1..]);
      assert ([a[0]] + Where(In(alive), a[1..]))[1..] == Where(In(alive), a[1..]);
    }
  }
}
