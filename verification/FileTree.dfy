/** A file tree with directories, files and symbolic links, and the resolution
    of a pathname in it as in XBD section 4.13 of POSIX.1-2017. */
module FileTree {

  /** From the root directory, name after name. */
  type Path = seq<string>

  /** The contents of a link are the components of its text, with `.` and `..`;
      a slash at the end stands for a last `.`. */
  datatype Node = Dir | File | Link(absolute: bool, target: seq<string>)

  datatype Tree = Tree(nodes: map<Path, Node>, maxLinks: nat)

  predicate IsName(c: string) {
    c != "" && c != "." && c != ".." && '/' !in c && '\0' !in c
  }

  function Parent(p: Path): Path { if p == [] then [] else p[..|p| - 1] }

  ghost predicate WellFormed(t: Tree) {
    && [] in t.nodes && t.nodes[[]].Dir?
    && forall p :: p in t.nodes && p != [] ==>
         Parent(p) in t.nodes && t.nodes[Parent(p)].Dir? && IsName(p[|p| - 1])
  }

  /** Where a pathname leads, and how many more links may be followed. */
  datatype Visit = Found(path: Path, left: nat) | Missing

  /** Resolves `rest` from the existing `at`; a link in last place is followed
      only if asked. Missing stands for every error: no entry, not a directory,
      too many links. */
  function Walk(t: Tree, at: Path, rest: seq<string>, left: nat, follow: bool): (v: Visit)
    requires WellFormed(t) && at in t.nodes
    ensures v.Found? ==> v.path in t.nodes && v.left <= left
    decreases left, |rest|
  {
    if rest == [] then Found(at, left)
    else if !t.nodes[at].Dir? then Missing
    else if rest[0] == "." then Walk(t, at, rest[1..], left, follow)
    else if rest[0] == ".." then Walk(t, Parent(at), rest[1..], left, follow)
    else
      var next := at + [rest[0]];
      if next !in t.nodes then Missing
      else
        match t.nodes[next]
        case Link(absolute, target) =>
          if |rest| == 1 && !follow then Found(next, left)
          else if left == 0 then Missing
          else Walk(t, if absolute then [] else at, target + rest[1..], left - 1, follow)
        case _ => Walk(t, next, rest[1..], left, follow)
  }

  /** The path as it stands, its last link not followed (`lstat`). */
  function Lstat(t: Tree, p: seq<string>): (v: Visit)
    requires WellFormed(t)
    ensures v.Found? ==> v.path in t.nodes
  {
    Walk(t, [], p, t.maxLinks, false)
  }

  /** The path with every link followed (`realpath`). */
  function Canonical(t: Tree, p: seq<string>): (v: Visit)
    requires WellFormed(t)
    ensures v.Found? ==> v.path in t.nodes
  {
    Walk(t, [], p, t.maxLinks, true)
  }

  lemma {:induction false} WalkStep(t: Tree, at: Path, a: seq<string>, b: seq<string>)
    requires a != []
    ensures (a + b)[0] == a[0] && (a + b)[1..] == a[1..] + b
    ensures forall target: seq<string> :: target + (a[1..] + b) == (target + a[1..]) + b
  {
  }

  /** A walk may be cut anywhere: first one part, its links all followed, then
      the other from there. */
  lemma {:induction false} WalkInParts(t: Tree, at: Path, a: seq<string>, b: seq<string>, left: nat, follow: bool)
    requires WellFormed(t) && at in t.nodes && b != []
    ensures Walk(t, at, a + b, left, follow) ==
            var v := Walk(t, at, a, left, true);
            if v.Found? then Walk(t, v.path, b, v.left, follow) else Missing
    decreases left, |a|
  {
    if a == [] {
      assert a + b == b;
    } else if t.nodes[at].Dir? {
      WalkStep(t, at, a, b);
      if a[0] == "." {
        WalkInParts(t, at, a[1..], b, left, follow);
      } else if a[0] == ".." {
        WalkInParts(t, Parent(at), a[1..], b, left, follow);
      } else {
        var next := at + [a[0]];
        if next in t.nodes {
          match t.nodes[next]
          case Link(absolute, target) =>
            if left > 0 {
              WalkInParts(t, if absolute then [] else at, target + a[1..], b, left - 1, follow);
            }
          case _ => WalkInParts(t, next, a[1..], b, left, follow);
        }
      }
    }
  }

  lemma ParentIsDir(t: Tree, at: Path)
    requires WellFormed(t) && at in t.nodes
    ensures Parent(at) in t.nodes && t.nodes[Parent(at)].Dir?
  {
  }

  /** Following the last link leads to no link. */
  lemma {:induction false} FollowedIsNoLink(t: Tree, at: Path, rest: seq<string>, left: nat)
    requires WellFormed(t) && at in t.nodes && !t.nodes[at].Link?
    ensures var v := Walk(t, at, rest, left, true); v.Found? ==> !t.nodes[v.path].Link?
    decreases left, |rest|
  {
    ParentIsDir(t, at);
    ParentIsDir(t, []);
    hide WellFormed, Parent;
    if rest != [] && t.nodes[at].Dir? {
      var next := at + [rest[0]];
      if rest[0] == "." {
        FollowedIsNoLink(t, at, rest[1..], left);
      } else if rest[0] == ".." {
        FollowedIsNoLink(t, Parent(at), rest[1..], left);
      } else if next in t.nodes {
        match t.nodes[next]
        case Link(absolute, target) =>
          if left > 0 {
            FollowedIsNoLink(t, if absolute then [] else at, target + rest[1..], left - 1);
          }
        case _ => FollowedIsNoLink(t, next, rest[1..], left);
      }
    }
  }

  lemma OneNameUnfollowed(t: Tree, at: Path, c: string, left: nat)
    requires WellFormed(t) && at in t.nodes && Walk(t, at, [c], left, true).Found?
    ensures Walk(t, at, [c], left, false).Found?
  {
  }

  /** What is found with its last link followed is there without. */
  lemma {:induction false} FoundUnfollowed(t: Tree, at: Path, rest: seq<string>, left: nat)
    requires WellFormed(t) && at in t.nodes && Walk(t, at, rest, left, true).Found?
    ensures Walk(t, at, rest, left, false).Found?
  {
    if rest != [] {
      var n := |rest| - 1;
      assert rest == rest[..n] + [rest[n]];
      var v := Walk(t, at, rest[..n], left, true);
      WalkInParts(t, at, rest[..n], [rest[n]], left, true);
      WalkInParts(t, at, rest[..n], [rest[n]], left, false);
      hide Walk;
      OneNameUnfollowed(t, v.path, rest[n], v.left);
    }
  }

  /** Everything above an entry is a directory. */
  lemma {:induction false} AncestorsAreDirs(t: Tree, p: Path, i: nat)
    requires WellFormed(t) && p in t.nodes && i <= |p|
    ensures p[..i] in t.nodes && (i < |p| ==> t.nodes[p[..i]].Dir?)
    decreases |p|
  {
    if i == |p| {
      assert p[..i] == p;
    } else {
      assert p[..|p| - 1][..i] == p[..i];
      AncestorsAreDirs(t, Parent(p), i);
    }
  }

  /** An entry's own path leads to it without any link. */
  lemma {:induction false} StraightWalk(t: Tree, p: Path, left: nat, follow: bool)
    requires WellFormed(t) && p in t.nodes && (follow ==> !t.nodes[p].Link?)
    ensures Walk(t, [], p, left, follow) == Found(p, left)
    decreases |p|
  {
    if p != [] {
      var above, c := Parent(p), p[|p| - 1];
      assert p == above + [c];
      StraightWalk(t, above, left, true);
      WalkInParts(t, [], above, [c], left, follow);
    }
  }

  /** Past an entry that is no link, a name that is not there is missing, and so
      is all that follows. */
  lemma {:induction false} BeyondIsMissing(t: Tree, p: Path, c: string, rest: seq<string>, left: nat, follow: bool)
    requires WellFormed(t) && p in t.nodes && !t.nodes[p].Link? && IsName(c) && p + [c] !in t.nodes
    ensures Walk(t, [], p + ([c] + rest), left, follow) == Missing
  {
    StraightWalk(t, p, left, true);
    WalkInParts(t, [], p, [c] + rest, left, follow);
  }

  // ----- `.` in a path -------------------------------------------------------------------------

  function NoDots(rest: seq<string>): seq<string> {
    if rest == [] then []
    else if rest[0] == "." then NoDots(rest[1..])
    else [rest[0]] + NoDots(rest[1..])
  }

  /** A `.` before the end changes nothing. */
  lemma {:induction false} DotsDoNotMatter(t: Tree, at: Path, rest: seq<string>, left: nat, follow: bool)
    requires WellFormed(t) && at in t.nodes && rest != [] && rest[|rest| - 1] != "."
    ensures NoDots(rest) != []
    ensures Walk(t, at, NoDots(rest), left, follow) == Walk(t, at, rest, left, follow)
    decreases |rest|
  {
    var c, more := rest[0], rest[1..];
    assert rest == [c] + more;
    if more == [] {
      assert NoDots(rest) == [c] + NoDots(more) == rest;
    } else {
      assert more[|more| - 1] != ".";
      if c == "." {
        DotsDoNotMatter(t, at, more, left, follow);
        assert NoDots(rest) == NoDots(more);
      } else {
        var v := Walk(t, at, [c], left, true);
        if v.Found? {
          DotsDoNotMatter(t, v.path, more, v.left, follow);
        } else {
          DotsDoNotMatter(t, at, more, left, follow);
        }
        WalkInParts(t, at, [c], more, left, follow);
        WalkInParts(t, at, [c], NoDots(more), left, follow);
      }
    }
  }

  /** After a last `.` no link is left to look at. */
  lemma {:induction false} DotIsNoLink(t: Tree, rest: seq<string>, left: nat, follow: bool)
    requires WellFormed(t) && rest != [] && rest[|rest| - 1] == "."
    ensures var v := Walk(t, [], rest, left, follow); v.Found? ==> !t.nodes[v.path].Link?
  {
    var before := rest[..|rest| - 1];
    assert rest == before + ["."];
    WalkInParts(t, [], before, ["."], left, follow);
    FollowedIsNoLink(t, [], before, left);
  }
}
