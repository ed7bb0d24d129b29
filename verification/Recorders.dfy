// Recorders (readers/formats/touched.go): which names a read opened or looked for, and what each looked like then.
module Recorders {
  type Name = string

  // Every edit to any file is numbered, and a file's stamp is the number of its last edit. So a stamp never recurs.
  type Stamp = nat
  type Files = map<Name, Stamp>

  // A recorder: each name a read opened or looked for, with the stamp it had when it was first noted.
  type Touched = map<Name, Stamp>

  function At(files: Files, n: Name): Stamp {
    if n in files then files[n] else 0
  }

  // Every name noted still stamps as it did.
  ghost predicate Intact(files: Files, t: Touched) {
    forall n | n in t :: At(files, n) == t[n]
  }

  // Unchanged reports false for a recorder with nothing in it.
  ghost predicate Unchanged(files: Files, t: Touched) {
    t != map[] && Intact(files, t)
  }

  function Note(t: Touched, files: Files, n: Name): Touched {
    if n in t then t else t[n := At(files, n)]
  }

  // Merge keeps the stamp the receiver already had.
  function Merge(t: Touched, other: Touched): Touched {
    other + t
  }

  // Takes the stamp of every name noted, and stops at the first that has changed.
  method StampAgain(files: Files, t: Touched) returns (same: bool)
    ensures same <==> Unchanged(files, t)
  {
    if t == map[] {
      return false;
    }
    var left := t.Keys;
    while left != {}
      invariant left <= t.Keys && forall n | n in t && n !in left :: At(files, n) == t[n]
      decreases left
    {
      var n :| n in left;
      if At(files, n) != t[n] {
        return false;
      }
      left := left - {n};
    }
    same := true;
  }

  // Takes in every name noted elsewhere that is not noted here.
  method TakeAll(t: Touched, other: Touched) returns (r: Touched)
    ensures r == Merge(t, other)
  {
    r := t;
    var left := other.Keys;
    while left != {}
      invariant left <= other.Keys && r.Keys == t.Keys + (other.Keys - left)
      invariant forall n | n in r :: r[n] == Merge(t, other)[n]
      decreases left
    {
      var n :| n in left;
      if n !in r {
        r := r[n := other[n]];
      }
      left := left - {n};
    }
  }
}
