/** A clone as git keeps it: working tree, index and HEAD, each a map from paths to contents, and
    the documented effect of the git commands the handlers run. */
module GitTrees {

  /** A file inside a directory; `name` is relative to it. */
  datatype Path = Path(dir: string, name: string)

  type Tree = map<Path, string>

  datatype Trees = Trees(work: Tree, index: Tree, head: Tree)

  predicate Occupied(m: Tree, dir: string) {
    exists p | p in m :: p.dir == dir
  }

  predicate Free(t: Trees, dir: string) {
    !Occupied(t.work, dir) && !Occupied(t.index, dir) && !Occupied(t.head, dir)
  }

  function Rename(p: Path, from: string, to: string): Path {
    if p.dir == from then Path(to, p.name) else p
  }

  /** `m` with the files of `from` under `to`. */
  function Move(m: Tree, from: string, to: string): Tree {
    map q | q in (set p | p in m :: Rename(p, from, to)) && q.dir != from && Rename(q, to, from) in m
      :: m[Rename(q, to, from)]
  }

  /** `git mv from to` with nothing at `to`: the files move, and so do their index entries. */
  function Mv(t: Trees, from: string, to: string): Trees {
    t.(work := Move(t.work, from, to), index := Move(t.index, from, to))
  }

  function Inside(dir: string, base: string): string {
    dir + "/" + base
  }

  /** `git mv from to`, which puts the directory inside `to` if there is something there. */
  function MvOnto(t: Trees, from: string, to: string, base: string): Trees {
    if Occupied(t.work, to) then Mv(t, from, Inside(to, base)) else Mv(t, from, to)
  }

  /** `git mv to from` afterwards, taking along what was put inside. */
  function MvBack(t: Trees, to: string, from: string, base: string, nested: bool): Trees {
    if nested then Mv(Mv(t, to, from), Inside(to, base), Inside(from, base)) else Mv(t, to, from)
  }

  /** `base`, except that the given paths are as in `src`. */
  function Overlay(base: Tree, src: Tree, paths: set<Path>): Tree {
    map p | p in base.Keys + src.Keys && (if p in paths then p in src else p in base)
      :: if p in paths then src[p] else base[p]
  }

  function Write(t: Trees, p: Path, content: string): Trees {
    t.(work := t.work[p := content])
  }

  /** `git add`. */
  function Stage(t: Trees, paths: set<Path>): Trees {
    t.(index := Overlay(t.index, t.work, paths))
  }

  /** `git commit`: the whole index. */
  function CommitIndex(t: Trees): Trees {
    t.(head := t.index)
  }

  /** `git reset HEAD -- paths`. */
  function Reset(t: Trees, paths: set<Path>): Trees {
    t.(index := Overlay(t.index, t.head, paths))
  }

  /** `git checkout -- path`, which refuses a path that is not in the index. */
  function Checkout(t: Trees, p: Path): Trees {
    if p in t.index then t.(work := t.work[p := t.index[p]]) else t
  }

  predicate SameAt(a: Tree, b: Tree, p: Path) {
    (p in a <==> p in b) && (p in a ==> a[p] == b[p])
  }

  // ----- laws

  lemma MoveAt(m: Tree, from: string, to: string, q: Path)
    requires from != to && !Occupied(m, to)
    ensures q in Move(m, from, to) <==> q.dir != from && Rename(q, to, from) in m
    ensures q in Move(m, from, to) ==> Move(m, from, to)[q] == m[Rename(q, to, from)]
  {
    if q.dir != from && Rename(q, to, from) in m {
      assert Rename(Rename(q, to, from), from, to) == q;
    }
  }

  lemma MoveVacates(m: Tree, from: string, to: string)
    requires from != to
    ensures !Occupied(Move(m, from, to), from)
  {
  }

  lemma MoveKeepsUnoccupied(m: Tree, from: string, to: string, dir: string)
    requires !Occupied(m, dir) && dir != to
    ensures !Occupied(Move(m, from, to), dir)
  {
  }

  /** Moving `to` away leaves nothing there, so leftovers that were there are not back in place. */
  lemma MvBackVacates(t: Trees, to: string, from: string, base: string)
    requires to != from && to != Inside(from, base)
    ensures !Occupied(MvBack(t, to, from, base, true).work, to)
  {
    hide Move;
    MoveVacates(t.work, to, from);
    MoveKeepsUnoccupied(Move(t.work, to, from), Inside(to, base), Inside(from, base), to);
  }

  lemma SameEverywhere(a: Tree, b: Tree)
    requires forall p :: SameAt(a, b, p)
    ensures a == b
  {
    assert forall p :: p in a <==> p in b by {
      forall p ensures p in a <==> p in b {
        assert SameAt(a, b, p);
      }
    }
    forall p | p in a ensures a[p] == b[p] {
      assert SameAt(a, b, p);
    }
  }

  /** Moving a directory away and back undoes itself. */
  lemma MoveBack(m: Tree, from: string, to: string)
    requires from != to && !Occupied(m, to)
    ensures Move(Move(m, from, to), to, from) == m
  {
    hide Move;
    var moved := Move(m, from, to);
    MoveVacates(m, from, to);
    forall p ensures SameAt(Move(moved, to, from), m, p) {
      MoveAt(moved, to, from, p);
      MoveAt(m, from, to, Rename(p, from, to));
    }
    SameEverywhere(Move(moved, to, from), m);
  }

  function RenameAll(paths: set<Path>, from: string, to: string): set<Path> {
    set p | p in paths :: Rename(p, from, to)
  }

  lemma OverlayAt(base: Tree, src: Tree, paths: set<Path>, p: Path)
    ensures SameAt(Overlay(base, src, paths), if p in paths then src else base, p)
  {
  }

  lemma OverlayUnoccupied(base: Tree, src: Tree, paths: set<Path>, dir: string)
    requires !Occupied(base, dir) && !Occupied(src, dir)
    ensures !Occupied(Overlay(base, src, paths), dir)
  {
  }

  /** Staging at the new place and moving back is staging at the old place. */
  lemma MoveOverlay(base: Tree, src: Tree, paths: set<Path>, from: string, to: string)
    requires from != to && !Occupied(base, to) && !Occupied(src, to)
    requires forall p | p in paths :: p.dir == to
    ensures Move(Overlay(Move(base, from, to), Move(src, from, to), paths), to, from)
         == Overlay(base, src, RenameAll(paths, to, from))
  {
    hide Move, Overlay;
    var b, s := Move(base, from, to), Move(src, from, to);
    var o := Overlay(b, s, paths);
    var left, right := Move(o, to, from), Overlay(base, src, RenameAll(paths, to, from));
    MoveVacates(base, from, to);
    MoveVacates(src, from, to);
    OverlayUnoccupied(b, s, paths, from);
    forall p ensures SameAt(left, right, p) {
      var q := Rename(p, from, to);
      MoveAt(o, to, from, p);
      OverlayAt(b, s, paths, q);
      OverlayAt(base, src, RenameAll(paths, to, from), p);
      MoveAt(base, from, to, q);
      MoveAt(src, from, to, q);
      RenamedIn(p, paths, from, to);
      if p.dir == to {
        OverlayUnoccupied(base, src, RenameAll(paths, to, from), to);
        assert p !in right;
      }
    }
    SameEverywhere(left, right);
  }

  lemma RenamedIn(p: Path, paths: set<Path>, from: string, to: string)
    requires from != to && forall q | q in paths :: q.dir == to
    ensures p.dir != to ==> (p in RenameAll(paths, to, from) <==> Rename(p, from, to) in paths)
  {
    if p.dir == from && Path(to, p.name) in paths {
      assert Rename(Path(to, p.name), to, from) == p;
    }
  }
}
