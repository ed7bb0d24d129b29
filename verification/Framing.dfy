// Byte framings that must read back one way only: lengths before fields (service/overlayidentity.go), a stream of trees
// and names (fshost/config.go), and the record of the persistent tier (service/designcache.go).
module Framing {
  import opened Paths
  import opened Sorting

  // Bytes, as characters below 256; text stands for its encoding.
  type Bytes = string

  const WORD := 0x1_0000_0000_0000_0000

  // A hash tells these texts apart.
  ghost predicate TellsApart(hash: Bytes -> Bytes, among: set<Bytes>) {
    forall x, y | x in among && y in among && hash(x) == hash(y) :: x == y
  }

  /* ---- lengths and fields ---- */

  function Digits(n: nat, width: nat): Bytes {
    if width == 0 then "" else Digits(n / 256, width - 1) + [(n % 256) as char]
  }

  // The buffer a length is written into.
  const BUFFER: Bytes := "\0\0\0\0\0\0\0\0"

  // An unsigned 64-bit number in the bytes of the buffer, highest first.
  function Word(n: nat): Bytes {
    Digits(n % WORD, |BUFFER|)
  }

  function Power(width: nat): nat {
    if width == 0 then 1 else 256 * Power(width - 1)
  }

  lemma {:induction false} DigitsAreDetermined(m: nat, n: nat, width: nat)
    requires m < Power(width) && n < Power(width) && Digits(m, width) == Digits(n, width)
    ensures m == n
  {
    if width > 0 {
      DigitsLength(m / 256, width - 1);
      DigitsLength(n / 256, width - 1);
      var a, b := Digits(m, width), Digits(n, width);
      assert a[width - 1] == (m % 256) as char && b[width - 1] == (n % 256) as char;
      assert a[..width - 1] == Digits(m / 256, width - 1) && b[..width - 1] == Digits(n / 256, width - 1);
      DigitsAreDetermined(m / 256, n / 256, width - 1);
    }
  }

  lemma {:induction false} DigitsLength(n: nat, width: nat)
    ensures |Digits(n, width)| == width
  {
    if width > 0 {
      DigitsLength(n / 256, width - 1);
    }
  }

  lemma ReducedIsDetermined(m: nat, n: nat, width: nat)
    requires m < WORD && n < WORD && Power(width) == WORD && Digits(m % WORD, width) == Digits(n % WORD, width)
    ensures m == n
  {
    SmallIsReduced(m);
    SmallIsReduced(n);
    DigitsAreDetermined(m, n, width);
  }

  lemma SmallIsReduced(n: nat)
    requires n < WORD
    ensures n % WORD == n
  {
  }

  lemma WordIsDetermined(m: nat, n: nat)
    requires m < WORD && n < WORD && Word(m) == Word(n)
    ensures m == n
  {
    PowerOfEight();
    ReducedIsDetermined(m, n, |BUFFER|);
  }

  lemma PowerOfEight()
    ensures Power(|BUFFER|) == WORD
  {
    assert Power(8) == WORD;
  }

  lemma WordLength(n: nat)
    ensures |Word(n)| == 8
  {
    DigitsLength(n % WORD, |BUFFER|);
  }

  // A field: its length, and then its bytes.
  function Field(b: Bytes): Bytes {
    Word(|b|) + b
  }

  // A field ends where it says, so what follows cannot be taken for part of it.
  lemma FieldIsDetermined(a: Bytes, b: Bytes, x: Bytes, y: Bytes)
    requires |a| < WORD && |b| < WORD && Field(a) + x == Field(b) + y
    ensures a == b && x == y
  {
    WordLength(|a|);
    WordLength(|b|);
    var s, t := Field(a) + x, Field(b) + y;
    assert s[..8] == Word(|a|) && t[..8] == Word(|b|);
    WordIsDetermined(|a|, |b|);
    assert s[8..8 + |a|] == a && t[8..8 + |b|] == b;
    assert s[8 + |a|..] == x && t[8 + |b|..] == y;
  }

  lemma WordPrefixIsDetermined(m: nat, n: nat, x: Bytes, y: Bytes)
    requires m < WORD && n < WORD && Word(m) + x == Word(n) + y
    ensures m == n && x == y
  {
    WordLength(m);
    WordLength(n);
    assert (Word(m) + x)[..8] == Word(m) && (Word(n) + y)[..8] == Word(n);
    WordIsDetermined(m, n);
    assert (Word(m) + x)[8..] == x && (Word(n) + y)[8..] == y;
  }

  /* ---- an overlay's identity ---- */

  datatype Part = Known(tag: Bytes, data: Bytes) | Unknown(tag: Bytes)

  function PartBytes(p: Part): Bytes
    requires p.Known?
  {
    Field(p.tag) + Field(p.data)
  }

  predicate AllKnown(parts: seq<Part>) {
    forall p | p in parts :: p.Known?
  }

  // The bytes hashed for known parts, in order.
  function PartStream(parts: seq<Part>): Bytes
    requires AllKnown(parts)
  {
    if parts == [] then "" else PartBytes(parts[0]) + PartStream(parts[1..])
  }

  ghost predicate Short(parts: seq<Part>) {
    forall p | p in parts :: p.Known? && |p.tag| < WORD && |p.data| < WORD
  }

  lemma PartIsDetermined(p: Part, q: Part, x: Bytes, y: Bytes)
    requires Short([p, q]) && PartBytes(p) + x == PartBytes(q) + y
    ensures p == q && x == y
  {
    assert p in [p, q] && q in [p, q];
    assert PartBytes(p) + x == Field(p.tag) + (Field(p.data) + x);
    assert PartBytes(q) + y == Field(q.tag) + (Field(q.data) + y);
    FieldIsDetermined(p.tag, q.tag, Field(p.data) + x, Field(q.data) + y);
    FieldIsDetermined(p.data, q.data, x, y);
  }

  lemma PartSaysSomething(p: Part, x: Bytes)
    requires p.Known?
    ensures PartBytes(p) + x != ""
  {
    WordLength(|p.tag|);
  }

  // Two compositions give one stream only when they are the same labels and data in the same order.
  lemma {:induction false} PartStreamIsDetermined(a: seq<Part>, b: seq<Part>)
    requires Short(a) && Short(b) && PartStream(a) == PartStream(b)
    ensures a == b
  {
    if a != [] {
      PartSaysSomething(a[0], PartStream(a[1..]));
    }
    if b != [] {
      PartSaysSomething(b[0], PartStream(b[1..]));
    }
    if a != [] && b != [] {
      PartIsDetermined(a[0], b[0], PartStream(a[1..]), PartStream(b[1..]));
      PartStreamIsDetermined(a[1..], b[1..]);
      assert a == [a[0]] + a[1..] && b == [b[0]] + b[1..];
    }
  }

  lemma {:induction false} PartStreamAppends(a: seq<Part>, p: Part)
    requires AllKnown(a) && p.Known?
    ensures PartStream(a + [p]) == PartStream(a) + PartBytes(p)
  {
    if a == [] {
      assert a + [p] == [p] && [p][1..] == [];
      assert PartBytes(p) + "" == PartBytes(p);
    } else {
      assert (a + [p])[1..] == a[1..] + [p];
      PartStreamAppends(a[1..], p);
      assert PartBytes(a[0]) + (PartStream(a[1..]) + PartBytes(p)) == PartBytes(a[0]) + PartStream(a[1..]) + PartBytes(p);
    }
  }

  class OverlayID {
    var parts: seq<Part>
    const digest: Bytes -> string

    constructor (digest: Bytes -> string)
      ensures parts == [] && this.digest == digest
    {
      this.digest := digest;
      parts := [];
    }

    method Add(tag: Bytes, data: Bytes)
      modifies this
      ensures parts == old(parts) + [Known(tag, data)]
    {
      parts := parts + [Known(tag, data)];
    }

    // Folds in a message: no message at all as an empty one, and one that cannot be encoded as unidentifiable.
    method AddProto(tag: Bytes, present: bool, encoded: Option<Bytes>)
      modifies this
      ensures parts == old(parts) + [if !present then Known(tag, "")
                                     else if encoded.None? then Unknown(tag) else Known(tag, encoded.value)]
    {
      if !present {
        Add(tag, "");
      } else if encoded.None? {
        Unidentifiable(tag);
      } else {
        Add(tag, encoded.value);
      }
    }

    // Folds in config a resolver read; one that does not say what it read cannot be identified.
    method AddDigest(tag: Bytes, read: string)
      modifies this
      ensures parts == old(parts) + [if read == "" then Unknown(tag) else Known(tag, read)]
    {
      if read == "" {
        Unidentifiable(tag);
      } else {
        Add(tag, read);
      }
    }

    method Unidentifiable(tag: Bytes)
      modifies this
      ensures parts == old(parts) + [Unknown(tag)]
    {
      parts := parts + [Unknown(tag)];
    }

    // The identity, refused as soon as one part is unknown.
    method Value() returns (r: Option<string>)
      ensures r == None <==> !AllKnown(parts)
      ensures r.Some? ==> r.value == "sha256:" + digest(PartStream(parts))
    {
      var h := "";
      for i := 0 to |parts|
        invariant AllKnown(parts[..i]) && h == PartStream(parts[..i])
      {
        var p := parts[i];
        if p.Unknown? {
          assert p in parts;
          return None;
        }
        assert parts[..i + 1] == parts[..i] + [p];
        PartStreamAppends(parts[..i], p);
        h := h + (Word(|p.tag|) + p.tag + (Word(|p.data|) + p.data));
      }
      assert parts[..|parts|] == parts;
      r := Some("sha256:" + digest(h));
    }
  }

  // Overlays with one identity were composed from the same inputs, unless their streams collide, and the same inputs have
  // one identity.
  lemma IdentityIsTheInputs(digest: Bytes -> string, a: seq<Part>, b: seq<Part>)
    requires Short(a) && Short(b) && TellsApart(digest, {PartStream(a), PartStream(b)})
    ensures "sha256:" + digest(PartStream(a)) == "sha256:" + digest(PartStream(b)) <==> a == b
  {
    var x, y := digest(PartStream(a)), digest(PartStream(b));
    assert ("sha256:" + x)[|"sha256:"|..] == x && ("sha256:" + y)[|"sha256:"|..] == y;
    if "sha256:" + x == "sha256:" + y {
      PartStreamIsDetermined(a, b);
    }
  }

  /* ---- a digest over trees and names ---- */

  // What a resolution opened: one file, or a directory of files by their paths below it.
  datatype Root = FileRoot(content: Bytes) | DirRoot(files: map<string, Bytes>)

  // The files of a root, as path and content.
  datatype Leaf = Leaf(rel: string, content: Bytes)

  function LeafBytes(sum: Bytes -> Bytes, l: Leaf): Bytes {
    Field(l.rel) + Field(sum(l.content))
  }

  function LeafStream(sum: Bytes -> Bytes, leaves: seq<Leaf>): Bytes {
    if leaves == [] then "" else LeafBytes(sum, leaves[0]) + LeafStream(sum, leaves[1..])
  }

  function RootBytes(sum: Bytes -> Bytes, leaves: seq<Leaf>): Bytes {
    Field("root") + Word(|leaves|) + LeafStream(sum, leaves)
  }

  function NameStream(names: seq<string>): Bytes {
    if names == [] then "" else Field(names[0]) + NameStream(names[1..])
  }

  function RootStream(sum: Bytes -> Bytes, roots: seq<seq<Leaf>>, names: seq<string>): Bytes {
    if roots == [] then NameStream(names) else RootBytes(sum, roots[0]) + RootStream(sum, roots[1..], names)
  }

  // How long a file's sum is: SHA-256 has 32 bytes.
  const SUM_BYTES := 32

  // Sums of a fixed size that tell the contents at hand apart.
  ghost predicate Summing(sum: Bytes -> Bytes, contents: set<Bytes>) {
    TellsApart(sum, contents) && forall x | x in contents :: |sum(x)| == SUM_BYTES
  }

  ghost predicate Within(leaves: seq<Leaf>, contents: set<Bytes>) {
    forall l | l in leaves :: l.content in contents
  }

  ghost predicate AllWithin(trees: seq<seq<Leaf>>, contents: set<Bytes>) {
    forall r | r in trees :: Within(r, contents)
  }

  ghost function ContentsOf(trees: seq<seq<Leaf>>): set<Bytes> {
    set r, l | r in trees && l in r :: l.content
  }

  function Place(list: seq<Bytes>, x: Bytes): (i: nat)
    ensures i <= |list| && (i < |list| ==> list[i] == x) && (x in list ==> i < |list|)
  {
    if list == [] || list[0] == x then 0 else Place(list[1..], x) + 1
  }

  // Fewer than 2^64 contents can always be summed apart.
  lemma SumsExist(list: seq<Bytes>) returns (sum: Bytes -> Bytes)
    requires |list| < WORD
    ensures Summing(sum, set x | x in list)
  {
    var padding := Digits(0, SUM_BYTES - 8);
    DigitsLength(0, SUM_BYTES - 8);
    sum := x => Word(Place(list, x)) + padding;
    forall x | x in list ensures |sum(x)| == SUM_BYTES {
      WordLength(Place(list, x));
    }
    forall x, y | x in list && y in list && sum(x) == sum(y) ensures x == y {
      WordPrefixIsDetermined(Place(list, x), Place(list, y), padding, padding);
    }
  }

  ghost predicate ShortLeaves(leaves: seq<Leaf>) {
    |leaves| < WORD && forall l | l in leaves :: |l.rel| < WORD
  }

  ghost predicate PlainNames(names: seq<string>) {
    forall n | n in names :: n != "root" && |n| < WORD
  }

  lemma LeafIsDetermined(sum: Bytes -> Bytes, contents: set<Bytes>, l: Leaf, k: Leaf, x: Bytes, y: Bytes)
    requires Summing(sum, contents) && l.content in contents && k.content in contents
    requires |l.rel| < WORD && |k.rel| < WORD
    requires LeafBytes(sum, l) + x == LeafBytes(sum, k) + y
    ensures l == k && x == y
  {
    assert LeafBytes(sum, l) + x == Field(l.rel) + (Field(sum(l.content)) + x);
    assert LeafBytes(sum, k) + y == Field(k.rel) + (Field(sum(k.content)) + y);
    FieldIsDetermined(l.rel, k.rel, Field(sum(l.content)) + x, Field(sum(k.content)) + y);
    FieldIsDetermined(sum(l.content), sum(k.content), x, y);
  }

  lemma Regrouped(a: Bytes, b: Bytes, c: Bytes)
    ensures a + b + c == a + (b + c)
  {
  }

  lemma LeafLeads(sum: Bytes -> Bytes, leaves: seq<Leaf>, x: Bytes)
    requires leaves != []
    ensures LeafStream(sum, leaves) + x == LeafBytes(sum, leaves[0]) + (LeafStream(sum, leaves[1..]) + x)
  {
    Regrouped(LeafBytes(sum, leaves[0]), LeafStream(sum, leaves[1..]), x);
  }

  lemma {:induction false} LeavesAreDetermined(sum: Bytes -> Bytes, contents: set<Bytes>, a: seq<Leaf>, b: seq<Leaf>,
                                               x: Bytes, y: Bytes)
    requires Summing(sum, contents) && Within(a, contents) && Within(b, contents) && |a| == |b|
    requires (forall l | l in a :: |l.rel| < WORD) && (forall l | l in b :: |l.rel| < WORD)
    requires LeafStream(sum, a) + x == LeafStream(sum, b) + y
    ensures a == b && x == y
  {
    if a == [] {
      assert "" + x == x && "" + y == y;
    } else {
      LeafLeads(sum, a, x);
      LeafLeads(sum, b, y);
      assert a[0] in a && b[0] in b;
      LeafIsDetermined(sum, contents, a[0], b[0], LeafStream(sum, a[1..]) + x, LeafStream(sum, b[1..]) + y);
      LeavesAreDetermined(sum, contents, a[1..], b[1..], x, y);
      assert a == [a[0]] + a[1..] && b == [b[0]] + b[1..];
    }
  }

  lemma RootLeads(sum: Bytes -> Bytes, leaves: seq<Leaf>, x: Bytes)
    ensures RootBytes(sum, leaves) + x == Field("root") + (Word(|leaves|) + (LeafStream(sum, leaves) + x))
  {
    Regrouped(Field("root") + Word(|leaves|), LeafStream(sum, leaves), x);
    Regrouped(Field("root"), Word(|leaves|), LeafStream(sum, leaves) + x);
  }

  lemma RootIsDetermined(sum: Bytes -> Bytes, contents: set<Bytes>, a: seq<Leaf>, b: seq<Leaf>, x: Bytes, y: Bytes)
    requires Summing(sum, contents) && Within(a, contents) && Within(b, contents)
    requires ShortLeaves(a) && ShortLeaves(b)
    requires RootBytes(sum, a) + x == RootBytes(sum, b) + y
    ensures a == b && x == y
  {
    var s, t := LeafStream(sum, a) + x, LeafStream(sum, b) + y;
    RootLeads(sum, a, x);
    RootLeads(sum, b, y);
    FieldIsDetermined("root", "root", Word(|a|) + s, Word(|b|) + t);
    WordPrefixIsDetermined(|a|, |b|, s, t);
    LeavesAreDetermined(sum, contents, a, b, x, y);
  }

  lemma {:induction false} NamesAreDetermined(a: seq<string>, b: seq<string>)
    requires (forall n | n in a :: |n| < WORD) && (forall n | n in b :: |n| < WORD)
    requires NameStream(a) == NameStream(b)
    ensures a == b
  {
    if a != [] {
      WordLength(|a[0]|);
    }
    if b != [] {
      WordLength(|b[0]|);
    }
    if a != [] && b != [] {
      assert a[0] in a && b[0] in b;
      FieldIsDetermined(a[0], b[0], NameStream(a[1..]), NameStream(b[1..]));
      NamesAreDetermined(a[1..], b[1..]);
      assert a == [a[0]] + a[1..] && b == [b[0]] + b[1..];
    }
  }

  // A stream that goes on with a root is not one that goes on with names.
  lemma RootIsNoName(sum: Bytes -> Bytes, leaves: seq<Leaf>, x: Bytes, names: seq<string>)
    requires PlainNames(names)
    ensures RootBytes(sum, leaves) + x != NameStream(names)
  {
    var rest := Word(|leaves|) + (LeafStream(sum, leaves) + x);
    RootLeads(sum, leaves, x);
    WordLength(|"root"|);
    if names != [] {
      assert names[0] in names;
      if Field("root") + rest == Field(names[0]) + NameStream(names[1..]) {
        FieldIsDetermined("root", names[0], rest, NameStream(names[1..]));
      }
    }
  }

  // When no name is the literal "root", the stream determines the trees and the names, in order.
  lemma {:induction false} StreamIsDetermined(sum: Bytes -> Bytes, contents: set<Bytes>, a: seq<seq<Leaf>>,
                                              b: seq<seq<Leaf>>, m: seq<string>, n: seq<string>)
    requires Summing(sum, contents) && AllWithin(a, contents) && AllWithin(b, contents)
    requires PlainNames(m) && PlainNames(n)
    requires (forall r | r in a :: ShortLeaves(r)) && (forall r | r in b :: ShortLeaves(r))
    requires RootStream(sum, a, m) == RootStream(sum, b, n)
    ensures a == b && m == n
  {
    if a == [] && b == [] {
      NamesAreDetermined(m, n);
    } else if a == [] {
      RootIsNoName(sum, b[0], RootStream(sum, b[1..], n), m);
    } else if b == [] {
      RootIsNoName(sum, a[0], RootStream(sum, a[1..], m), n);
    } else {
      assert a[0] in a && b[0] in b;
      RootIsDetermined(sum, contents, a[0], b[0], RootStream(sum, a[1..], m), RootStream(sum, b[1..], n));
      StreamIsDetermined(sum, contents, a[1..], b[1..], m, n);
      assert a == [a[0]] + a[1..] && b == [b[0]] + b[1..];
    }
  }

  // The leaves of a root: a file's are itself, under the dot no directory can hold; a directory's are its files in order.
  ghost predicate LeavesOf(r: Root, leaves: seq<Leaf>) {
    match r
    case FileRoot(content) => leaves == [Leaf(".", content)]
    case DirRoot(files) =>
      && "." !in files
      && (forall i, j | 0 <= i < j < |leaves| :: Before(leaves[i].rel, leaves[j].rel))
      && (forall l | l in leaves :: l.rel in files && files[l.rel] == l.content)
      && (forall f | f in files :: Leaf(f, files[f]) in leaves)
  }

  lemma LeavesAreTheRoot(r: Root, s: Root, leaves: seq<Leaf>)
    requires LeavesOf(r, leaves) && LeavesOf(s, leaves)
    ensures r == s
  {
    assert leaves != [] ==> leaves[0] in leaves;
    if r.DirRoot? && s.DirRoot? {
      forall f ensures f in r.files ==> f in s.files && s.files[f] == r.files[f] {
        if f in r.files {
          assert Leaf(f, r.files[f]) in leaves;
        }
      }
      forall f ensures f in s.files ==> f in r.files {
        if f in s.files {
          assert Leaf(f, s.files[f]) in leaves;
        }
      }
    }
  }

  function Rels(leaves: seq<Leaf>): (r: seq<string>)
    ensures |r| == |leaves| && forall i | 0 <= i < |r| :: r[i] == leaves[i].rel
  {
    seq(|leaves|, i requires 0 <= i < |leaves| => leaves[i].rel)
  }

  lemma LeavesAreUnique(r: Root, a: seq<Leaf>, b: seq<Leaf>)
    requires LeavesOf(r, a) && LeavesOf(r, b)
    ensures a == b
  {
    if r.DirRoot? {
      RelsAreTheFiles(r.files, r, a);
      RelsAreTheFiles(r.files, r, b);
      AscendingIsUnique(Rels(a), Rels(b));
      forall i | 0 <= i < |a| ensures a[i] == b[i] {
        assert a[i] in a && b[i] in b && Rels(a)[i] == Rels(b)[i];
      }
    }
  }

  lemma RelsAreTheFiles(files: map<string, Bytes>, r: Root, leaves: seq<Leaf>)
    requires r == DirRoot(files) && LeavesOf(r, leaves)
    ensures Ascending(Rels(leaves)) && forall f :: f in Rels(leaves) <==> f in files
  {
    forall f ensures f in Rels(leaves) <==> f in files {
      if f in Rels(leaves) {
        var i :| 0 <= i < |leaves| && Rels(leaves)[i] == f;
        assert leaves[i] in leaves;
      }
      if f in files {
        var l := Leaf(f, files[f]);
        assert l in leaves;
        var i :| 0 <= i < |leaves| && leaves[i] == l;
        assert Rels(leaves)[i] == f;
      }
    }
  }

  lemma AllAreWithin(a: seq<seq<Leaf>>, b: seq<seq<Leaf>>)
    ensures AllWithin(a, ContentsOf(a + b)) && AllWithin(b, ContentsOf(a + b))
  {
    assert forall r | r in a || r in b :: r in a + b;
  }

  ghost predicate AreLeavesOf(roots: seq<Root>, trees: seq<seq<Leaf>>) {
    |trees| == |roots| && forall i | 0 <= i < |trees| :: LeavesOf(roots[i], trees[i]) && ShortLeaves(trees[i])
  }

  lemma AllAreShort(roots: seq<Root>, trees: seq<seq<Leaf>>)
    requires AreLeavesOf(roots, trees)
    ensures forall r | r in trees :: ShortLeaves(r)
  {
  }

  lemma RootsDetermineLeaves(roots: seq<Root>, a: seq<seq<Leaf>>, b: seq<seq<Leaf>>)
    requires AreLeavesOf(roots, a) && AreLeavesOf(roots, b)
    ensures a == b
  {
    forall i | 0 <= i < |a| ensures a[i] == b[i] {
      LeavesAreUnique(roots[i], a[i], b[i]);
    }
  }

  lemma LeavesDetermineRoots(roots: seq<Root>, others: seq<Root>, a: seq<seq<Leaf>>)
    requires AreLeavesOf(roots, a) && AreLeavesOf(others, a)
    ensures roots == others
  {
    forall i | 0 <= i < |a| ensures roots[i] == others[i] {
      LeavesAreTheRoot(roots[i], others[i], a[i]);
    }
  }

  // One digest means one configuration: the same trees and names, in the same order, wherever the trees are mounted,
  // unless two of their contents, or the two streams, collide. No name may be the literal "root".
  lemma DigestIsTheConfig(digest: Bytes -> string, sum: Bytes -> Bytes, roots: seq<Root>, a: seq<seq<Leaf>>,
                          m: seq<string>, others: seq<Root>, b: seq<seq<Leaf>>, n: seq<string>)
    requires Summing(sum, ContentsOf(a + b)) && TellsApart(digest, {RootStream(sum, a, m), RootStream(sum, b, n)})
    requires PlainNames(m) && PlainNames(n) && AreLeavesOf(roots, a) && AreLeavesOf(others, b)
    ensures digest(RootStream(sum, a, m)) == digest(RootStream(sum, b, n)) <==> roots == others && m == n
  {
    if roots == others && m == n {
      RootsDetermineLeaves(roots, a, b);
    }
    if digest(RootStream(sum, a, m)) == digest(RootStream(sum, b, n)) {
      AllAreWithin(a, b);
      AllAreShort(roots, a);
      AllAreShort(others, b);
      StreamIsDetermined(sum, ContentsOf(a + b), a, b, m, n);
      LeavesDetermineRoots(roots, others, a);
    }
  }

  // The condition is needed: a name spelled "root" before an empty one reads as an empty directory.
  lemma NamedRootReadsAsATree(sum: Bytes -> Bytes, names: seq<string>)
    ensures RootStream(sum, [], ["root", ""] + names) == RootStream(sum, [[]], names)
  {
    var named, empty: seq<Leaf> := ["root", ""] + names, [];
    assert named[0] == "root" && named[1..] == [""] + names;
    assert ([""] + names)[0] == "" && ([""] + names)[1..] == names;
    assert NameStream(named) == Field("root") + (Field("") + NameStream(names));
    assert Field("") == Word(0);
    assert [empty][0] == empty && [empty][1..] == [];
    RootLeads(sum, empty, NameStream(names));
    assert "" + NameStream(names) == NameStream(names);
  }

  // Folds the roots and then the names into a running hash.
  method DigestConfig(digest: Bytes -> string, sum: Bytes -> Bytes, roots: seq<Root>, names: seq<string>)
    returns (r: string, ghost leaves: seq<seq<Leaf>>)
    requires forall t | t in roots :: t.DirRoot? ==> "." !in t.files
    ensures |leaves| == |roots| && forall i | 0 <= i < |roots| :: LeavesOf(roots[i], leaves[i])
    ensures r == "sha256:" + digest(RootStream(sum, leaves, names))
  {
    var h := "";
    leaves := [];
    for i := 0 to |roots|
      invariant |leaves| == i && forall j | 0 <= j < i :: LeavesOf(roots[j], leaves[j])
      invariant h == RootStream(sum, leaves, [])
    {
      var one := LeavesIn(roots[i]);
      var folded := FoldLeaves(sum, one);
      RootAppends(sum, leaves, one);
      h := h + folded;
      leaves := leaves + [one];
    }
    ghost var trees := h;
    for i := 0 to |names|
      invariant h == trees + NameStream(names[..i])
    {
      assert names[..i + 1] == names[..i] + [names[i]];
      NameAppends(names[..i], names[i]);
      Regrouped(trees, NameStream(names[..i]), Field(names[i]));
      h := h + Field(names[i]);
    }
    assert names[..|names|] == names;
    NamesFollow(sum, leaves, names);
    r := "sha256:" + digest(h);
  }

  method FoldLeaves(sum: Bytes -> Bytes, leaves: seq<Leaf>) returns (h: Bytes)
    ensures h == RootBytes(sum, leaves)
  {
    h := Field("root") + Word(|leaves|);
    ghost var head := h;
    for i := 0 to |leaves|
      invariant h == head + LeafStream(sum, leaves[..i])
    {
      assert leaves[..i + 1] == leaves[..i] + [leaves[i]];
      LeafAppends(sum, leaves[..i], leaves[i]);
      Regrouped(head, LeafStream(sum, leaves[..i]), LeafBytes(sum, leaves[i]));
      h := h + LeafBytes(sum, leaves[i]);
    }
    assert leaves[..|leaves|] == leaves;
  }

  // A root's files in the order of their paths, whatever order they are walked in.
  method LeavesIn(r: Root) returns (leaves: seq<Leaf>)
    requires r.DirRoot? ==> "." !in r.files
    ensures LeavesOf(r, leaves)
  {
    match r
    case FileRoot(content) => leaves := [Leaf(".", content)];
    case DirRoot(files) =>
      var left, rels := files.Keys, [];
      while left != {}
        invariant left <= files.Keys && forall f :: f in rels <==> f in files && f !in left
        invariant NoRepeats(rels)
        decreases left
      {
        var f :| f in left;
        rels := rels + [f];
        left := left - {f};
      }
      var sorted := Sort(Before, rels);
      SortedDistinctAscends(rels);
      leaves := seq(|sorted|, i requires 0 <= i < |sorted| && sorted[i] in files => Leaf(sorted[i], files[sorted[i]]));
      forall f | f in files ensures Leaf(f, files[f]) in leaves {
        var i :| 0 <= i < |sorted| && sorted[i] == f;
        assert leaves[i] == Leaf(f, files[f]);
      }
  }

  lemma {:induction false} LeafAppends(sum: Bytes -> Bytes, leaves: seq<Leaf>, l: Leaf)
    ensures LeafStream(sum, leaves + [l]) == LeafStream(sum, leaves) + LeafBytes(sum, l)
  {
    if leaves == [] {
      assert leaves + [l] == [l] && [l][1..] == [];
      assert LeafBytes(sum, l) + "" == "" + LeafBytes(sum, l);
    } else {
      assert (leaves + [l])[1..] == leaves[1..] + [l];
      LeafAppends(sum, leaves[1..], l);
      Regrouped(LeafBytes(sum, leaves[0]), LeafStream(sum, leaves[1..]), LeafBytes(sum, l));
    }
  }

  lemma {:induction false} NameAppends(names: seq<string>, n: string)
    ensures NameStream(names + [n]) == NameStream(names) + Field(n)
  {
    if names == [] {
      assert names + [n] == [n] && [n][1..] == [];
      assert Field(n) + "" == "" + Field(n);
    } else {
      assert (names + [n])[1..] == names[1..] + [n];
      NameAppends(names[1..], n);
      Regrouped(Field(names[0]), NameStream(names[1..]), Field(n));
    }
  }

  lemma {:induction false} RootAppends(sum: Bytes -> Bytes, roots: seq<seq<Leaf>>, one: seq<Leaf>)
    ensures RootStream(sum, roots + [one], []) == RootStream(sum, roots, []) + RootBytes(sum, one)
  {
    if roots == [] {
      assert roots + [one] == [one] && [one][1..] == [];
      assert RootBytes(sum, one) + "" == "" + RootBytes(sum, one);
    } else {
      assert (roots + [one])[1..] == roots[1..] + [one];
      RootAppends(sum, roots[1..], one);
      Regrouped(RootBytes(sum, roots[0]), RootStream(sum, roots[1..], []), RootBytes(sum, one));
    }
  }

  lemma {:induction false} NamesFollow(sum: Bytes -> Bytes, roots: seq<seq<Leaf>>, names: seq<string>)
    ensures RootStream(sum, roots, names) == RootStream(sum, roots, []) + NameStream(names)
  {
    if roots == [] {
      assert "" + NameStream(names) == NameStream(names);
    } else {
      NamesFollow(sum, roots[1..], names);
      Regrouped(RootBytes(sum, roots[0]), RootStream(sum, roots[1..], []), NameStream(names));
    }
  }

  /* ---- the record of the persistent tier ---- */

  const MAX_VARINT := 10

  // An unsigned number seven bits at a time, lowest first, each byte but the last marked.
  function Varint(n: nat): Bytes {
    if n < 128 then [n as char] else [(n % 128 + 128) as char] + Varint(n / 128)
  }

  // Reading one at b[i..]: the value, and where it ends. A number cut short, or over 64 bits, does not read.
  function ReadFrom(b: Bytes, i: nat, unit: nat, sum: nat): (r: Option<(nat, nat)>)
    requires i <= |b|
    ensures r.Some? ==> i < r.value.1 <= |b|
    decreases |b| - i
  {
    if i == |b| || i == MAX_VARINT then None
    else
      var c := b[i] as int;
      if c < 128 then (if i == MAX_VARINT - 1 && c > 1 then None else Some((sum + c * unit, i + 1)))
      else ReadFrom(b, i + 1, unit * 128, sum + (c - 128) * unit)
  }

  function Room(i: nat): nat {
    if i == 0 then WORD else Room(i - 1) / 128
  }

  lemma RoomNarrows(i: nat, n: nat)
    requires i < MAX_VARINT && n < Room(i)
    ensures i == MAX_VARINT - 1 ==> n <= 1
    ensures n >= 128 ==> i + 1 < MAX_VARINT && n / 128 < Room(i + 1)
  {
    RoomIs();
  }

  lemma RoomIs()
    ensures Room(0) == 0x1_0000_0000_0000_0000 && Room(1) == 0x200_0000_0000_0000 && Room(2) == 0x4_0000_0000_0000
    ensures Room(3) == 0x800_0000_0000 && Room(4) == 0x10_0000_0000 && Room(5) == 0x2000_0000
    ensures Room(6) == 0x40_0000 && Room(7) == 0x8000 && Room(8) == 0x100 && Room(9) == 2
  {
  }

  lemma {:induction false} VarintReadsBack(b: Bytes, i: nat, unit: nat, sum: nat, n: nat)
    requires i < MAX_VARINT && n < Room(i) && i + |Varint(n)| <= |b| && b[i..i + |Varint(n)|] == Varint(n)
    ensures ReadFrom(b, i, unit, sum) == Some((sum + n * unit, i + |Varint(n)|))
    decreases n
  {
    RoomNarrows(i, n);
    var v := Varint(n);
    assert b[i] == b[i..i + |v|][0] == v[0];
    if n >= 128 {
      assert v[1..] == Varint(n / 128);
      assert b[i + 1..i + |v|] == b[i..i + |v|][1..];
      VarintReadsBack(b, i + 1, unit * 128, sum + n % 128 * unit, n / 128);
      Regroup(n, unit);
    }
  }

  lemma Regroup(n: nat, unit: nat)
    ensures n % 128 * unit + n / 128 * (unit * 128) == n * unit
  {
    assert n == n % 128 + 128 * (n / 128);
    assert n / 128 * (unit * 128) == 128 * (n / 128) * unit;
    assert (n % 128 + 128 * (n / 128)) * unit == n % 128 * unit + 128 * (n / 128) * unit;
  }

  // A record: how long the fingerprint is, the fingerprint, and the value.
  function Record(fp: Bytes, payload: Bytes): Bytes {
    Varint(|fp|) + fp + payload
  }

  // Taking a record apart. Whatever the bytes are, the parts lie within them, one after the other to the end.
  function Parts(b: Bytes): (r: Option<(Bytes, Bytes)>)
    ensures r.Some? ==> exists k :: 0 < k <= |b| && b[k..] == r.value.0 + r.value.1
  {
    match ReadFrom(b, 0, 1, 0)
    case None => None
    case Some((n, k)) =>
      if |b| - k < n then None
      else
        assert b[k..] == b[k..k + n] + b[k + n..];
        Some((b[k..k + n], b[k + n..]))
  }

  // Restoring undoes saving.
  lemma PartsInvertRecord(fp: Bytes, payload: Bytes)
    requires |fp| < WORD
    ensures Parts(Record(fp, payload)) == Some((fp, payload))
  {
    var b, k := Record(fp, payload), |Varint(|fp|)|;
    assert b[0..k] == Varint(|fp|);
    VarintReadsBack(b, 0, 1, 0, |fp|);
    assert b[k..k + |fp|] == fp && b[k + |fp|..] == payload;
  }

  /* ---- a layer that may be absent ---- */

  // The bytes of a layer: a zero when there is none, and otherwise a one and its encoding.
  function EncodeLayer<M>(marshal: M -> Bytes, v: Option<M>): Bytes {
    match v
    case None => "\0"
    case Some(m) => "\U{0001}" + marshal(m)
  }

  // Reading a layer back; its encoding may not parse.
  function DecodeLayer<M>(unmarshal: Bytes -> Option<M>, b: Bytes): Option<Option<M>> {
    if b == "" || b[0] == '\0' then Some(None)
    else
      match unmarshal(b[1..])
      case None => None
      case Some(m) => Some(Some(m))
  }

  // A saved record restores the fingerprint it was saved with and the layer that was saved, present or absent.
  lemma SavedLayerRestores<M(!new)>(marshal: M -> Bytes, unmarshal: Bytes -> Option<M>, fp: Bytes, v: Option<M>)
    requires forall m :: unmarshal(marshal(m)) == Some(m)
    requires |fp| < WORD
    ensures var b := Record(fp, EncodeLayer(marshal, v));
            Parts(b).Some? && Parts(b).value.0 == fp && DecodeLayer(unmarshal, Parts(b).value.1) == Some(v)
  {
    PartsInvertRecord(fp, EncodeLayer(marshal, v));
    if v.Some? {
      assert ("\U{0001}" + marshal(v.value))[1..] == marshal(v.value);
    }
  }
}
