/** Confinement of file tools to one directory (src/tools/sandbox.rs). */
module Workspace {
  import opened FileTree

  // ----- pathnames as text ------------------------------------------------------------------

  /** The pieces between slashes, empty ones included. */
  function Segments(text: string): (segments: seq<string>)
    ensures segments != []
  {
    if text == "" then [""]
    else
      var before, last := Segments(text[..|text| - 1]), text[|text| - 1];
      if last == '/' then before + [""]
      else before[..|before| - 1] + [before[|before| - 1] + [last]]
  }

  /** Without the empty pieces. */
  function NoEmpty(segments: seq<string>): seq<string> {
    if segments == [] then []
    else if segments[0] == "" then NoEmpty(segments[1..])
    else [segments[0]] + NoEmpty(segments[1..])
  }

  function LastSegment(text: string): string { var s := Segments(text); s[|s| - 1] }

  /** What the system resolves: a slash at the end counts as a last `.`. */
  function Raw(text: string): seq<string> {
    NoEmpty(Segments(text)) + (if LastSegment(text) == "" then ["."] else [])
  }

  /** What `Path::components` yields, `.` left out. */
  function Components(text: string): seq<string> { NoDots(NoEmpty(Segments(text))) }

  predicate IsAbsolute(text: string) { text != "" && text[0] == '/' }

  function Slashed(p: Path): string {
    if p == [] then "" else Slashed(p[..|p| - 1]) + "/" + p[|p| - 1]
  }

  function Render(p: Path): string { if p == [] then "/" else Slashed(p) }

  // ----- resolving ---------------------------------------------------------------------------

  datatype Resolved = Allowed(path: Path) | Denied(reason: string)

  const INVALID := "Access denied: invalid path"
  const OUTSIDE := "Access denied: path outside the workspace"
  const DOTDOT := "Access denied: '..' is not allowed in paths"
  const UNRESOLVED := "Access denied: cannot resolve path"
  const THROUGH_LINK := "Access denied: refusing to write through a symlink"
  const ITSELF := "Access denied: cannot write the workspace itself"

  /** The path asked for, under the root, before looking at the disk. */
  function Joined(root: Path, input: string): Resolved {
    if input == "" || '\0' in input then Denied(INVALID)
    else
      var comps := Components(input);
      if IsAbsolute(input) && !(root <= comps) then Denied(OUTSIDE)
      else
        var relative := if IsAbsolute(input) then comps[|root|..] else comps;
        if ".." in relative then Denied(DOTDOT) else Allowed(root + relative)
  }

  /** How many names of the path lead to something that exists. */
  function Deepest(t: Tree, p: Path): (k: nat)
    requires WellFormed(t)
    ensures k <= |p|
  {
    if p == [] || Lstat(t, p).Found? then |p| else Deepest(t, p[..|p| - 1])
  }

  lemma {:induction false} DeepestExists(t: Tree, p: Path)
    requires WellFormed(t)
    ensures Lstat(t, p[..Deepest(t, p)]).Found?
    ensures forall j :: Deepest(t, p) < j <= |p| ==> Lstat(t, p[..j]).Missing?
  {
    hide WellFormed, Walk, Lstat;
    assert p[..|p|] == p;
    if p == [] {
      RootExists(t);
    } else if Lstat(t, p).Missing? {
      var shorter := p[..|p| - 1];
      DeepestExists(t, shorter);
      assert forall j :: 0 <= j <= |p| - 1 ==> shorter[..j] == p[..j];
    }
  }

  lemma RootExists(t: Tree)
    requires WellFormed(t)
    ensures [] in t.nodes && Lstat(t, []) == Found([], t.maxLinks)
  {
  }

  lemma {:induction false} DeepestIs(t: Tree, p: Path, k: nat)
    requires WellFormed(t) && k <= |p| && Lstat(t, p[..k]).Found?
    requires forall j :: k < j <= |p| ==> Lstat(t, p[..j]).Missing?
    ensures Deepest(t, p) == k
  {
    hide WellFormed, Walk, Lstat;
    DeepestExists(t, p);
  }

  function Confined(t: Tree, root: Path, joined: Path): Resolved
    requires WellFormed(t)
  {
    var k := Deepest(t, joined);
    var canonical := Canonical(t, joined[..k]);
    if canonical.Missing? then Denied(UNRESOLVED)
    else if !(root <= canonical.path) then Denied(OUTSIDE)
    else Allowed(canonical.path + joined[k..])
  }

  function Resolve(t: Tree, root: Path, input: string): Resolved
    requires WellFormed(t)
  {
    var joined := Joined(root, input);
    if joined.Denied? then joined else Confined(t, root, joined.path)
  }

  /** The path as given, before any check: what `lstat` is asked first for a write. */
  function Lexical(root: Path, input: string): seq<string> {
    if IsAbsolute(input) then Raw(input) else root + Raw(input)
  }

  predicate IsLink(t: Tree, v: Visit)
    requires v.Found? ==> v.path in t.nodes
  {
    v.Found? && t.nodes[v.path].Link?
  }

  function ResolveForWrite(t: Tree, root: Path, input: string): Resolved
    requires WellFormed(t)
  {
    if '\0' !in input && IsLink(t, Lstat(t, Lexical(root, input))) then Denied(THROUGH_LINK)
    else
      var r := Resolve(t, root, input);
      if r == Allowed(root) then Denied(ITSELF) else r
  }

  /** The resolution as the code does it: names pushed one by one, then the walk
      up to what exists. */
  method ResolvePath(t: Tree, root: Path, input: string) returns (r: Resolved)
    requires WellFormed(t)
    ensures r == Resolve(t, root, input)
  {
    hide WellFormed, Walk, Lstat, Canonical, Components;
    if input == "" || '\0' in input { return Denied(INVALID); }
    var relative := Components(input);
    if IsAbsolute(input) {
      if !(root <= relative) { return Denied(OUTSIDE); }
      relative := relative[|root|..];
    }
    var joined := root;
    for i := 0 to |relative|
      invariant joined == root + relative[..i] && ".." !in relative[..i]
    {
      if relative[i] == ".." { return Denied(DOTDOT); }
      joined := joined + [relative[i]];
    }
    assert relative[..|relative|] == relative;
    var existing := |joined|;
    assert joined[..|joined|] == joined;
    RootExists(t);
    while Lstat(t, joined[..existing]).Missing?
      invariant 0 <= existing <= |joined|
      invariant Deepest(t, joined[..existing]) == Deepest(t, joined)
      decreases existing
    {
      assert joined[..0] == [];
      assert joined[..existing][..existing - 1] == joined[..existing - 1];
      existing := existing - 1;
    }
    var canonical := Canonical(t, joined[..existing]);
    if canonical.Missing? { return Denied(UNRESOLVED); }
    if !(root <= canonical.path) { return Denied(OUTSIDE); }
    var rest := joined[existing..];
    r := Allowed(if rest != [] then canonical.path + rest else canonical.path);
  }

  method ResolvePathForWrite(t: Tree, root: Path, input: string) returns (r: Resolved)
    requires WellFormed(t)
    ensures r == ResolveForWrite(t, root, input)
  {
    hide WellFormed, Walk, Lstat, Lexical, Resolve;
    if '\0' !in input {
      var meta := Lstat(t, Lexical(root, input));
      if meta.Found? && t.nodes[meta.path].Link? { return Denied(THROUGH_LINK); }
    }
    r := ResolvePath(t, root, input);
    if r.Allowed? && r.path == root { r := Denied(ITSELF); }
  }

  // ----- confinement ---------------------------------------------------------------------------

  /** A path's existing part, `k` names long, has no link in it, and nothing
      beyond exists. */
  ghost predicate LinkFreeUpTo(t: Tree, p: Path, k: nat) {
    && k <= |p|
    && (forall j :: 0 <= j <= k ==> p[..j] in t.nodes && !t.nodes[p[..j]].Link?)
    && (forall j :: k < j <= |p| ==> p[..j] !in t.nodes)
  }

  ghost predicate AreNames(p: seq<string>) { forall i :: 0 <= i < |p| ==> IsName(p[i]) }

  lemma {:induction false} NextIsMissing(t: Tree, joined: Path, k: nat)
    requires WellFormed(t) && AreNames(joined) && k < |joined|
    requires Canonical(t, joined[..k]).Found? && Lstat(t, joined[..k + 1]).Missing?
    ensures Canonical(t, joined[..k]).path + [joined[k]] !in t.nodes
  {
    var v, c := Canonical(t, joined[..k]), joined[k];
    assert joined[..k + 1] == joined[..k] + [c];
    WalkInParts(t, [], joined[..k], [c], t.maxLinks, false);
    var next := v.path + [c];
    assert Parent(next) == v.path;
    assert Walk(t, v.path, [c], v.left, false).Missing?;
  }

  /** An entry that is no link, and what no entry starts with. */
  lemma {:induction false} LinkFree(t: Tree, canonical: Path, rest: Path)
    requires WellFormed(t) && canonical in t.nodes && !t.nodes[canonical].Link?
    requires rest == [] || canonical + [rest[0]] !in t.nodes
    ensures LinkFreeUpTo(t, canonical + rest, |canonical|)
  {
    hide WellFormed, Walk;
    var n, p := |canonical|, canonical + rest;
    forall j | 0 <= j <= n ensures p[..j] in t.nodes && !t.nodes[p[..j]].Link? {
      assert p[..j] == canonical[..j];
      AncestorsAreDirs(t, canonical, j);
      assert canonical[..n] == canonical;
    }
    forall j | n < j <= |p| ensures p[..j] !in t.nodes {
      assert p[..n + 1] == canonical + [rest[0]];
      if p[..j] in t.nodes {
        assert p[..j][..n + 1] == p[..n + 1];
        AncestorsAreDirs(t, p[..j], n + 1);
      }
    }
  }

  lemma {:induction false} ExistingPart(t: Tree, root: Path, joined: Path)
    requires WellFormed(t) && AreNames(joined) && Confined(t, root, joined).Allowed?
    ensures var canonical, p := Canonical(t, joined[..Deepest(t, joined)]), Confined(t, root, joined).path;
            && canonical.Found? && root <= canonical.path && p == canonical.path + joined[Deepest(t, joined)..]
            && LinkFreeUpTo(t, p, |canonical.path|)
  {
    var k := Deepest(t, joined);
    DeepestExists(t, joined);
    CanonicalIsNoLink(t, joined[..k]);
    hide WellFormed, Walk, Lstat, Canonical, AreNames, LinkFreeUpTo, Deepest;
    if k < |joined| {
      NextIsMissing(t, joined, k);
    }
    LinkFree(t, Canonical(t, joined[..k]).path, joined[k..]);
  }

  lemma CanonicalIsNoLink(t: Tree, p: Path)
    requires WellFormed(t)
    ensures Canonical(t, p).Found? ==> !t.nodes[Canonical(t, p).path].Link?
  {
    FollowedIsNoLink(t, [], p, t.maxLinks);
  }

  // ----- names in a text ---------------------------------------------------------------------------

  /** No piece has a slash, or a character the text has not. */
  lemma {:induction false} SegmentsAreClean(text: string)
    ensures forall i :: 0 <= i < |Segments(text)| ==> '/' !in Segments(text)[i]
    ensures '\0' !in text ==> forall i :: 0 <= i < |Segments(text)| ==> '\0' !in Segments(text)[i]
  {
    if text != "" {
      SegmentsAreClean(text[..|text| - 1]);
    }
  }

  ghost predicate Clean(segments: seq<string>) {
    forall i :: 0 <= i < |segments| ==> '/' !in segments[i] && '\0' !in segments[i]
  }

  lemma {:induction false} ComponentsAreNames(segments: seq<string>)
    requires Clean(segments)
    ensures forall i :: 0 <= i < |NoDots(NoEmpty(segments))| ==>
              NoDots(NoEmpty(segments))[i] == ".." || IsName(NoDots(NoEmpty(segments))[i])
  {
    if segments != [] {
      ComponentsAreNames(segments[1..]);
      var c, rest := segments[0], NoEmpty(segments[1..]);
      if c != "" {
        assert ([c] + rest)[0] == c && ([c] + rest)[1..] == rest;
      }
    }
  }

  lemma {:induction false} JoinedAreNames(root: Path, input: string)
    requires AreNames(root) && Joined(root, input).Allowed?
    ensures AreNames(Joined(root, input).path) && root <= Joined(root, input).path
  {
    SegmentsAreClean(input);
    ComponentsAreNames(Segments(input));
  }

  lemma {:induction false} SegmentsAppended(text: string, name: string)
    requires '/' !in name
    ensures var s := Segments(text); Segments(text + name) == s[..|s| - 1] + [s[|s| - 1] + name]
  {
    hide Segments;
    var s := Segments(text);
    if name == "" {
      assert text + name == text && s[|s| - 1] + name == s[|s| - 1];
      assert s == s[..|s| - 1] + [s[|s| - 1]];
    } else {
      var n := |name| - 1;
      SegmentsAppended(text, name[..n]);
      SegmentsOfOneMore(text + name[..n], name[n]);
      assert text + name == (text + name[..n]) + [name[n]];
      assert s[|s| - 1] + name == (s[|s| - 1] + name[..n]) + [name[n]];
    }
  }

  lemma SegmentsOfOneMore(text: string, c: char)
    requires c != '/'
    ensures var s := Segments(text); Segments(text + [c]) == s[..|s| - 1] + [s[|s| - 1] + [c]]
  {
    assert (text + [c])[..|text|] == text;
  }

  lemma {:induction false} SegmentsOfBoth(x: string, y: string)
    ensures Segments(x + "/" + y) == Segments(x) + Segments(y)
  {
    hide Segments;
    var head := x + "/";
    SegmentsStep(x, '/');
    if y == "" {
      assert head + y == head;
      SegmentsOfNone();
    } else {
      var n := |y| - 1;
      SegmentsOfBoth(x, y[..n]);
      assert head + y == (head + y[..n]) + [y[n]] && y == y[..n] + [y[n]];
      SegmentsStep(head + y[..n], y[n]);
      SegmentsStep(y[..n], y[n]);
      LastOfBoth(Segments(x), Segments(y[..n]));
    }
  }

  lemma SegmentsOfNone()
    ensures Segments("") == [""]
  {
  }

  lemma SegmentsStep(text: string, c: char)
    ensures var s := Segments(text);
            Segments(text + [c]) == if c == '/' then s + [""] else s[..|s| - 1] + [s[|s| - 1] + [c]]
  {
    assert (text + [c])[..|text|] == text;
  }

  lemma LastOfBoth(a: seq<string>, b: seq<string>)
    requires b != []
    ensures (a + b)[..|a + b| - 1] == a + b[..|b| - 1] && (a + b)[|a + b| - 1] == b[|b| - 1]
  {
  }

  lemma {:induction false} NoEmptyOfBoth(a: seq<string>, b: seq<string>)
    ensures NoEmpty(a + b) == NoEmpty(a) + NoEmpty(b)
  {
    if a == [] {
      assert a + b == b;
    } else {
      var ab := a + b;
      assert ab[0] == a[0] && ab[1..] == a[1..] + b;
      NoEmptyOfBoth(a[1..], b);
    }
  }

  /** What a text's components are: those of its parts around a slash, one after
      the other; and a part without slashes is one, unless it is empty or a dot. */
  lemma {:induction false} ComponentsExactly(x: string, y: string, part: string)
    requires '/' !in part
    ensures Components(x + "/" + y) == Components(x) + Components(y)
    ensures Components(part) == if part == "" || part == "." then [] else [part]
  {
    OnePart(part);
    hide Segments, NoEmpty, NoDots;
    SegmentsOfBoth(x, y);
    NoEmptyOfBoth(Segments(x), Segments(y));
    NoDotsOfBoth(NoEmpty(Segments(x)), NoEmpty(Segments(y)));
  }

  lemma {:induction false} OnePart(part: string)
    requires '/' !in part
    ensures Components(part) == if part == "" || part == "." then [] else [part]
  {
    hide Segments, NoEmpty, NoDots;
    SegmentsAppended("", part);
    SegmentsOfNone();
    assert "" + part == part && [""][..0] + [part] == [part];
    ListOfOne(part);
    ListOfNone();
  }

  lemma ListOfNone()
    ensures NoEmpty([]) == [] && NoDots([]) == []
  {
  }

  lemma ListOfOne(part: string)
    ensures NoEmpty([part]) == if part == "" then [] else [part]
    ensures NoDots([part]) == if part == "." then [] else [part]
  {
    assert [part][1..] == [];
  }

  /** What may be asked for: a text that is neither empty nor with a NUL in it, that
      lies under the root if it is absolute, and has no `..` below it. */
  lemma {:induction false} JoinedExactly(root: Path, input: string)
    ensures Joined(root, input).Allowed? <==>
            var below := if IsAbsolute(input) then |root| else 0;
            && |input| > 0 && (forall i :: 0 <= i < |input| ==> input[i] != '\0')
            && (IsAbsolute(input) ==> |root| <= |Components(input)| && Components(input)[..|root|] == root)
            && (forall i :: below <= i < |Components(input)| ==> Components(input)[i] != "..")
    ensures Joined(root, input).Allowed? ==>
              Joined(root, input).path == if IsAbsolute(input) then Components(input) else root + Components(input)
  {
    hide Components;
  }

  lemma {:induction false} SegmentsSlashed(p: Path)
    requires AreNames(p)
    ensures Segments(Slashed(p)) == [""] + p
    ensures p != [] ==> IsAbsolute(Slashed(p)) && '\0' !in Slashed(p)
  {
    if p != [] {
      var above, c := p[..|p| - 1], p[|p| - 1];
      SegmentsSlashed(above);
      var text := Slashed(above) + "/";
      assert text[..|text| - 1] == Slashed(above);
      assert Segments(text) == [""] + above + [""];
      SegmentsAppended(text, c);
      assert Slashed(p) == text + c;
      assert "" + c == c;
      assert p == above + [c];
    }
  }

  lemma {:induction false} NamesStay(p: Path)
    requires AreNames(p)
    ensures NoEmpty(p) == p && NoDots(p) == p
  {
    if p != [] {
      NamesStay(p[1..]);
      assert p == [p[0]] + p[1..];
    }
  }

  lemma {:induction false} ComponentsOfRendered(p: Path)
    requires AreNames(p)
    ensures Components(Render(p)) == p && IsAbsolute(Render(p)) && '\0' !in Render(p)
  {
    if p == [] {
      assert "/"[..0] == "";
      assert Segments("/") == ["", ""];
      assert ["", ""][1..] == [""];
    } else {
      SegmentsSlashed(p);
      NamesStay(p);
      hide Segments, Slashed, NoEmpty, NoDots, AreNames;
      SkipEmpty(p);
    }
  }

  lemma SkipEmpty(p: Path)
    ensures NoEmpty([""] + p) == NoEmpty(p)
  {
    assert ([""] + p)[1..] == p;
  }

  /** A path's text names that path. */
  lemma {:induction false} RenderedIsJoined(root: Path, p: Path)
    requires AreNames(p) && root <= p
    ensures Joined(root, Render(p)) == Allowed(p)
  {
    ComponentsOfRendered(p);
    assert ".." !in p[|root|..];
    assert root + p[|root|..] == p;
  }

  // ----- the main results ------------------------------------------------------------------------------

  lemma {:induction false} EntryNames(t: Tree, p: Path)
    requires WellFormed(t) && p in t.nodes
    ensures AreNames(p)
  {
    forall i | 0 <= i < |p| ensures IsName(p[i]) {
      AncestorsAreDirs(t, p, i + 1);
      assert p[..i + 1][i] == p[i];
    }
  }

  /** Whatever is resolved lies under the root: an existing part without any
      link, and then names that do not exist. */
  lemma {:induction false} ResultIsConfined(t: Tree, root: Path, input: string) returns (k: nat)
    requires WellFormed(t) && AreNames(root) && Resolve(t, root, input).Allowed?
    ensures var p := Resolve(t, root, input).path;
            |root| <= k && root <= p && LinkFreeUpTo(t, p, k) && AreNames(p)
  {
    var joined := Joined(root, input).path;
    JoinedAreNames(root, input);
    hide WellFormed, Walk, Lstat, Canonical, LinkFreeUpTo, Deepest, Joined, Confined, AreNames;
    ExistingPart(t, root, joined);
    var v := Canonical(t, joined[..Deepest(t, joined)]);
    k := |v.path|;
    EntryNames(t, v.path);
    NamesJoined(v.path, joined, Deepest(t, joined));
  }

  lemma NamesJoined(a: Path, b: Path, k: nat)
    requires AreNames(a) && AreNames(b) && k <= |b|
    ensures AreNames(a + b[k..])
  {
  }

  /** On an unchanged tree such a path leads to itself if it exists, and
      nowhere if it does not. */
  lemma {:induction false} LeadsNowhereElse(t: Tree, p: Path, k: nat, follow: bool)
    requires WellFormed(t) && AreNames(p) && LinkFreeUpTo(t, p, k)
    ensures [] in t.nodes
    ensures Walk(t, [], p, t.maxLinks, follow) == if k == |p| then Found(p, t.maxLinks) else Missing
  {
    hide *;
    RootExists(t);
    EndOfExisting(t, p, k);
    if k == |p| {
      StraightWalk(t, p, t.maxLinks, follow);
    } else {
      var c, rest := p[k], p[k + 1..];
      assert p == p[..k] + ([c] + rest);
      BeyondIsMissing(t, p[..k], c, rest, t.maxLinks, follow);
    }
  }

  lemma EndOfExisting(t: Tree, p: Path, k: nat)
    requires AreNames(p) && LinkFreeUpTo(t, p, k)
    ensures k <= |p| && p[..k] in t.nodes && !t.nodes[p[..k]].Link? && (k == |p| ==> p[..k] == p)
    ensures k < |p| ==> p[..k] + [p[k]] !in t.nodes && IsName(p[k])
  {
    if k < |p| {
      assert p[..k + 1] == p[..k] + [p[k]];
    }
  }

  lemma {:induction false} PrefixLinkFree(t: Tree, p: Path, k: nat, j: nat)
    requires LinkFreeUpTo(t, p, k) && j <= |p|
    ensures LinkFreeUpTo(t, p[..j], if k < j then k else j)
  {
    assert forall i :: 0 <= i <= j ==> p[..j][..i] == p[..i];
  }

  lemma {:induction false} LinkFreeIsConfined(t: Tree, root: Path, p: Path, k: nat)
    requires WellFormed(t) && AreNames(p) && |root| <= k && root <= p && LinkFreeUpTo(t, p, k)
    ensures Confined(t, root, p) == Allowed(p)
  {
    hide WellFormed, Walk;
    forall j | 0 <= j <= |p| ensures Lstat(t, p[..j]).Found? <==> j <= k {
      PrefixLinkFree(t, p, k, j);
      LeadsNowhereElse(t, p[..j], if k < j then k else j, false);
    }
    PrefixLinkFree(t, p, k, k);
    LeadsNowhereElse(t, p[..k], k, true);
    hide LinkFreeUpTo, Lstat, AreNames;
    DeepestIs(t, p, k);
    assert p == p[..k] + p[k..];
    assert root <= p[..k];
  }

  /** Resolving what was resolved gives it back. */
  lemma {:induction false} ResolveAgain(t: Tree, root: Path, input: string)
    requires WellFormed(t) && AreNames(root) && Resolve(t, root, input).Allowed?
    ensures var p := Resolve(t, root, input).path; Resolve(t, root, Render(p)) == Allowed(p)
  {
    hide Joined, Confined, WellFormed, AreNames, LinkFreeUpTo, Render;
    var p := Resolve(t, root, input).path;
    var k := ResultIsConfined(t, root, input);
    RenderedIsJoined(root, p);
    LinkFreeIsConfined(t, root, p, k);
  }

  lemma {:induction false} ExistingIsDeepest(t: Tree, p: Path)
    requires WellFormed(t) && Canonical(t, p).Found?
    ensures Deepest(t, p) == |p|
  {
    RootExists(t);
    FoundUnfollowed(t, [], p, t.maxLinks);
    hide WellFormed, Walk;
  }

  /** Confinement keeps the meaning: a path that exists is resolved to the very
      entry it leads to, and refused exactly when that lies outside the root. */
  lemma {:induction false} ExistingIsCanonical(t: Tree, root: Path, input: string)
    requires WellFormed(t) && Joined(root, input).Allowed? && Canonical(t, Joined(root, input).path).Found?
    ensures var entry := Canonical(t, Joined(root, input).path).path;
            Resolve(t, root, input) == if root <= entry then Allowed(entry) else Denied(OUTSIDE)
  {
    hide Joined, WellFormed, Walk, Lstat, Canonical, Deepest;
    var joined := Joined(root, input).path;
    ExistingIsDeepest(t, joined);
    assert joined[..|joined|] == joined;
    var entry := Canonical(t, joined).path;
    assert entry + joined[|joined|..] == entry;
  }

  /** A new path under an existing entry: where the first `k` names lead to an entry
      and one more to nothing, the rest is put after the entry they lead to, and
      refused exactly when that entry is not under the root. */
  lemma {:induction false} NewPathUnderEntry(t: Tree, root: Path, input: string, k: nat)
    requires WellFormed(t) && AreNames(root) && Joined(root, input).Allowed? && k < |Joined(root, input).path|
    requires Canonical(t, Joined(root, input).path[..k]).Found?
    requires forall j :: k < j <= |Joined(root, input).path| ==> Lstat(t, Joined(root, input).path[..j]).Missing?
    ensures var joined := Joined(root, input).path;
            var entry := Canonical(t, joined[..k]).path;
            Resolve(t, root, input) == if root <= entry then Allowed(entry + joined[k..]) else Denied(OUTSIDE)
  {
    hide Joined, WellFormed, Walk, AreNames;
    var joined := Joined(root, input).path;
    RootExists(t);
    FoundUnfollowed(t, [], joined[..k], t.maxLinks);
    DeepestIs(t, joined, k);
  }

  /** The text ends in a slash or in a last `.`. */
  predicate EndsInDot(input: string) { LastSegment(input) == "" || LastSegment(input) == "." }

  lemma {:induction false} NoEmptyKeepsLast(segments: seq<string>)
    requires segments != [] && segments[|segments| - 1] != ""
    ensures var kept := NoEmpty(segments); kept != [] && kept[|kept| - 1] == segments[|segments| - 1]
  {
    if |segments| > 1 {
      NoEmptyKeepsLast(segments[1..]);
    }
  }

  lemma {:induction false} NoDotsOfBoth(a: seq<string>, b: seq<string>)
    ensures NoDots(a + b) == NoDots(a) + NoDots(b)
  {
    if a == [] {
      assert a + b == b;
    } else {
      var ab := a + b;
      assert ab[0] == a[0] && ab[1..] == a[1..] + b;
      NoDotsOfBoth(a[1..], b);
    }
  }

  /** The path looked at before a write is the joined one, but for a last `.`. */
  lemma {:induction false} LexicalIsJoined(root: Path, input: string)
    requires AreNames(root) && Joined(root, input).Allowed?
    ensures var raw := Lexical(root, input);
            && raw != [] && (raw[|raw| - 1] == "." <==> EndsInDot(input))
            && (!EndsInDot(input) ==> NoDots(raw) == Joined(root, input).path)
  {
    hide *;
    RawEnds(input);
    LexicalOf(root, input);
    if !IsAbsolute(input) {
      NamesStay(root);
      NoDotsOfBoth(root, Raw(input));
      LastOfBoth(root, Raw(input));
    }
    JoinedOf(root, input);
  }

  lemma LexicalOf(root: Path, input: string)
    ensures Lexical(root, input) == if IsAbsolute(input) then Raw(input) else root + Raw(input)
  {
    hide Raw;
  }

  lemma {:induction false} RawEnds(input: string)
    ensures Raw(input) != [] && (Raw(input)[|Raw(input)| - 1] == "." <==> EndsInDot(input))
    ensures !EndsInDot(input) ==> NoDots(Raw(input)) == Components(input)
  {
    hide Segments, NoEmpty, NoDots;
    assert NoEmpty(Segments(input)) + [] == NoEmpty(Segments(input));
    if LastSegment(input) != "" {
      NoEmptyKeepsLast(Segments(input));
    }
  }

  lemma JoinedOf(root: Path, input: string)
    requires Joined(root, input).Allowed?
    ensures Joined(root, input).path == if IsAbsolute(input) then Components(input) else root + Components(input)
  {
    hide Components;
  }

  lemma DotIsNoLinkHere(t: Tree, raw: seq<string>)
    requires WellFormed(t) && raw != [] && raw[|raw| - 1] == "."
    ensures !IsLink(t, Lstat(t, raw))
  {
    DotIsNoLink(t, raw, t.maxLinks, false);
    hide Walk;
  }

  lemma DotsDoNotMatterHere(t: Tree, raw: seq<string>)
    requires WellFormed(t) && raw != [] && raw[|raw| - 1] != "."
    ensures Lstat(t, raw) == Lstat(t, NoDots(raw))
  {
    RootExists(t);
    DotsDoNotMatter(t, [], raw, t.maxLinks, false);
    hide Walk;
  }

  lemma {:induction false} LexicalLink(t: Tree, root: Path, input: string)
    requires WellFormed(t) && AreNames(root) && Joined(root, input).Allowed?
    ensures IsLink(t, Lstat(t, Lexical(root, input))) <==>
            !EndsInDot(input) && IsLink(t, Lstat(t, Joined(root, input).path))
  {
    hide *;
    LexicalIsJoined(root, input);
    var raw := Lexical(root, input);
    if EndsInDot(input) {
      DotIsNoLinkHere(t, raw);
    } else {
      DotsDoNotMatterHere(t, raw);
    }
  }

  /** A write is refused, beyond what any path is, exactly for the root itself
      and for a path that is a link, unless its text ends in a slash or a `.`
      and so means what the link leads to. */
  lemma {:induction false} WriteRefusedExactly(t: Tree, root: Path, input: string)
    requires WellFormed(t) && AreNames(root) && Resolve(t, root, input).Allowed?
    ensures var r, joined := Resolve(t, root, input), Joined(root, input).path;
            ResolveForWrite(t, root, input) ==
            if !EndsInDot(input) && IsLink(t, Lstat(t, joined)) then Denied(THROUGH_LINK)
            else if r.path == root then Denied(ITSELF) else r
  {
    assert Joined(root, input).Allowed? && '\0' !in input;
    LexicalLink(t, root, input);
    hide WellFormed, Lstat, Lexical, EndsInDot, IsLink, Joined, AreNames, Resolve;
  }
}
