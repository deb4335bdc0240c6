/** `_build_pr_groups`: which repositories of a task share one pull request. */
module PrGroups {
  import opened Basics
  import opened RepoGraph

  type Base = Option<string>

  datatype PRGroup = PRGroup(rep: string, members: seq<string>, base: Base)

  /** The repository whose checkout another one is a directory of, or the repository itself. */
  function RootIn(c: Config): string -> string {
    (name: string) => if name in c.repos && c.repos[name].gitRoot.Some? then c.repos[name].gitRoot.value else name
  }

  /** The repositories with a given root, in order. */
  function MembersOf(rootOf: string -> string, repos: seq<string>, root: string): seq<string> {
    if repos == [] then []
    else (if rootOf(repos[0]) == root then [repos[0]] else []) + MembersOf(rootOf, repos[1..], root)
  }

  lemma {:induction false} MembersAre(rootOf: string -> string, repos: seq<string>, root: string)
    ensures forall n :: n in MembersOf(rootOf, repos, root) <==> n in repos && rootOf(n) == root
  {
    if repos != [] {
      MembersAre(rootOf, repos[1..], root);
      assert repos == [repos[0]] + repos[1..];
    }
  }

  /** The roots of the repositories, in the order in which they first occur. */
  function RootsOf(rootOf: string -> string, repos: seq<string>): seq<string> {
    if repos == [] then [] else
    var roots, last := RootsOf(rootOf, repos[..|repos| - 1]), repos[|repos| - 1];
    if rootOf(last) in roots then roots else roots + [rootOf(last)]
  }

  lemma {:induction false} RootsAre(rootOf: string -> string, repos: seq<string>)
    ensures Distinct(RootsOf(rootOf, repos)) && forall n | n in repos :: rootOf(n) in RootsOf(rootOf, repos)
    decreases |repos|
  {
    if repos != [] {
      RootsAre(rootOf, repos[..|repos| - 1]);
      assert repos == repos[..|repos| - 1] + [repos[|repos| - 1]];
    }
  }

  lemma {:induction false} RootsHaveMembers(rootOf: string -> string, repos: seq<string>)
    ensures forall root | root in RootsOf(rootOf, repos) :: MembersOf(rootOf, repos, root) != []
    decreases |repos|
  {
    if repos != [] {
      var front, last := repos[..|repos| - 1], repos[|repos| - 1];
      assert repos == front + [last];
      RootsHaveMembers(rootOf, front);
      forall root | root in RootsOf(rootOf, repos) ensures MembersOf(rootOf, repos, root) != [] {
        MembersAppend(rootOf, front, last, root);
      }
    }
  }

  function BaseOf(bases: map<string, Base>, name: string): Base {
    if name in bases then bases[name] else None
  }

  predicate OneBase(bases: map<string, Base>, members: seq<string>) {
    forall m, n | m in members && n in members :: BaseOf(bases, m) == BaseOf(bases, n)
  }

  /** The group of the repositories with one root. */
  function GroupOf(bases: map<string, Base>, root: string, members: seq<string>): PRGroup {
    var first := if members == [] then root else members[0];
    PRGroup(if root in members then root else first, members, BaseOf(bases, first))
  }

  predicate Groupable(rootOf: string -> string, repos: seq<string>, bases: map<string, Base>) {
    forall root | root in RootsOf(rootOf, repos) :: OneBase(bases, MembersOf(rootOf, repos, root))
  }

  /** One group for each root. */
  function GroupsOf(rootOf: string -> string, repos: seq<string>, bases: map<string, Base>): seq<PRGroup> {
    var roots := RootsOf(rootOf, repos);
    seq(|roots|, i requires 0 <= i < |roots| => GroupOf(bases, roots[i], MembersOf(rootOf, repos, roots[i])))
  }

  lemma {:induction false} MembersAppend(rootOf: string -> string, repos: seq<string>, n: string, root: string)
    ensures MembersOf(rootOf, repos + [n], root) ==
            MembersOf(rootOf, repos, root) + if rootOf(n) == root then [n] else []
  {
    if repos == [] {
      assert (repos + [n])[1..] == [];
    } else {
      assert (repos + [n])[0] == repos[0] && (repos + [n])[1..] == repos[1..] + [n];
      MembersAppend(rootOf, repos[1..], n, root);
      var first, rest := if rootOf(repos[0]) == root then [repos[0]] else [], MembersOf(rootOf, repos[1..], root);
      var last := if rootOf(n) == root then [n] else [];
      assert first + (rest + last) == (first + rest) + last;
    }
  }

  lemma {:induction false} NoMembers(rootOf: string -> string, repos: seq<string>, root: string)
    requires root !in RootsOf(rootOf, repos)
    ensures MembersOf(rootOf, repos, root) == []
    decreases |repos|
  {
    if repos != [] {
      var front, last := repos[..|repos| - 1], repos[|repos| - 1];
      assert repos == front + [last];
      NoMembers(rootOf, front, root);
      MembersAppend(rootOf, front, last, root);
    }
  }

  ghost predicate Bucketed(rootOf: string -> string, repos: seq<string>, roots: seq<string>,
                           buckets: map<string, seq<string>>)
  {
    && roots == RootsOf(rootOf, repos) && (forall root :: root in roots <==> root in buckets)
    && forall root | root in buckets :: buckets[root] == MembersOf(rootOf, repos, root)
  }

  lemma RootsAppend(rootOf: string -> string, repos: seq<string>, n: string)
    ensures RootsOf(rootOf, repos + [n]) ==
            if rootOf(n) in RootsOf(rootOf, repos) then RootsOf(rootOf, repos) else RootsOf(rootOf, repos) + [rootOf(n)]
  {
    assert (repos + [n])[..|repos|] == repos;
  }

  lemma BucketGrows(rootOf: string -> string, front: seq<string>, n: string, roots: seq<string>,
                    buckets: map<string, seq<string>>)
    requires Bucketed(rootOf, front, roots, buckets) && rootOf(n) in buckets
    ensures Bucketed(rootOf, front + [n], roots, buckets[rootOf(n) := buckets[rootOf(n)] + [n]])
  {
    RootsAppend(rootOf, front, n);
    forall r | r in buckets
      ensures buckets[rootOf(n) := buckets[rootOf(n)] + [n]][r] == MembersOf(rootOf, front + [n], r)
    {
      MembersAppend(rootOf, front, n, r);
    }
  }

  lemma BucketStarts(rootOf: string -> string, front: seq<string>, n: string, roots: seq<string>,
                     buckets: map<string, seq<string>>)
    requires Bucketed(rootOf, front, roots, buckets) && rootOf(n) !in buckets
    ensures Bucketed(rootOf, front + [n], roots + [rootOf(n)], buckets[rootOf(n) := [n]])
  {
    RootsAppend(rootOf, front, n);
    NoMembers(rootOf, front, rootOf(n));
    forall r | r in buckets[rootOf(n) := [n]]
      ensures buckets[rootOf(n) := [n]][r] == MembersOf(rootOf, front + [n], r)
    {
      MembersAppend(rootOf, front, n, r);
    }
  }

  /** The buckets of a dictionary that keeps the order of its first insertions. */
  method FillBuckets(rootOf: string -> string, repos: seq<string>)
    returns (roots: seq<string>, buckets: map<string, seq<string>>)
    ensures Bucketed(rootOf, repos, roots, buckets)
  {
    roots, buckets := [], map[];
    for i := 0 to |repos|
      invariant Bucketed(rootOf, repos[..i], roots, buckets)
    {
      var root := rootOf(repos[i]);
      assert repos[..i + 1] == repos[..i] + [repos[i]];
      if root !in buckets {
        BucketStarts(rootOf, repos[..i], repos[i], roots, buckets);
        roots := roots + [root];
        buckets := buckets[root := [repos[i]]];
      } else {
        BucketGrows(rootOf, repos[..i], repos[i], roots, buckets);
        buckets := buckets[root := buckets[root] + [repos[i]]];
      }
    }
    assert repos[..|repos|] == repos;
  }

  /** None is the error of mixed bases. */
  method BuildPrGroups(c: Config, repos: seq<string>, bases: map<string, Base>) returns (groups: Option<seq<PRGroup>>)
    ensures groups.Some? <==> Groupable(RootIn(c), repos, bases)
    ensures groups.Some? ==> groups.value == GroupsOf(RootIn(c), repos, bases)
  {
    var rootOf := RootIn(c);
    var roots, buckets := FillBuckets(rootOf, repos);
    RootsHaveMembers(rootOf, repos);
    groups := GroupBuckets(bases, roots, buckets);
  }

  method GroupBuckets(bases: map<string, Base>, roots: seq<string>, buckets: map<string, seq<string>>)
    returns (groups: Option<seq<PRGroup>>)
    requires forall root | root in roots :: root in buckets && buckets[root] != []
    ensures groups.Some? <==> forall root | root in roots :: OneBase(bases, buckets[root])
    ensures groups.Some? ==> |groups.value| == |roots|
    ensures groups.Some?
            ==> forall i | 0 <= i < |roots| :: groups.value[i] == GroupOf(bases, roots[i], buckets[roots[i]])
  {
    var built: seq<PRGroup> := [];
    for i := 0 to |roots|
      invariant |built| == i && forall k | 0 <= k < i :: built[k] == GroupOf(bases, roots[k], buckets[roots[k]])
      invariant forall k | 0 <= k < i :: OneBase(bases, buckets[roots[k]])
    {
      var members := buckets[roots[i]];
      assert roots[i] in roots;
      if !OneBase(bases, members) { return None; }
      var rep := if roots[i] in members then roots[i] else members[0];
      built := built + [PRGroup(rep, members, BaseOf(bases, members[0]))];
    }
    groups := Some(built);
  }

  // ---------------------------------------------------------------- what the groups are

  lemma {:induction false} MembersInOrder(rootOf: string -> string, repos: seq<string>, root: string)
    ensures InOrder(repos, MembersOf(rootOf, repos, root))
  {
    if repos != [] {
      MembersInOrder(rootOf, repos[1..], root);
      var rest := MembersOf(rootOf, repos[1..], root);
      assert ([repos[0]] + rest)[1..] == rest && [] + rest == rest;
    }
  }

  /** What one group has to be: its members have one root and base, and the root represents them if it can. */
  ghost predicate Coherent(rootOf: string -> string, repos: seq<string>, bases: map<string, Base>, g: PRGroup) {
    && g.members != [] && InOrder(repos, g.members) && g.rep in g.members
    && (forall n | n in g.members :: n in repos && BaseOf(bases, n) == g.base && rootOf(n) == rootOf(g.rep))
    && (rootOf(g.rep) in g.members ==> g.rep == rootOf(g.rep))
    && (rootOf(g.rep) !in g.members ==> g.rep == g.members[0])
  }

  lemma GroupIsCoherent(rootOf: string -> string, repos: seq<string>, bases: map<string, Base>, root: string,
                        g: PRGroup)
    requires g == GroupOf(bases, root, MembersOf(rootOf, repos, root)) && g.members != []
    requires OneBase(bases, MembersOf(rootOf, repos, root))
    ensures Coherent(rootOf, repos, bases, g) && rootOf(g.rep) == root
  {
    MembersInOrder(rootOf, repos, root);
    MembersAre(rootOf, repos, root);
    assert g.members[0] in g.members;
  }

  /**
   The groups split the repositories: every one is in the group of its root, that is in exactly one, and
   each group is coherent.
   */
  lemma GroupsPartition(rootOf: string -> string, repos: seq<string>, bases: map<string, Base>)
    requires Groupable(rootOf, repos, bases)
    ensures var groups := GroupsOf(rootOf, repos, bases);
            && (forall i | 0 <= i < |groups| :: Coherent(rootOf, repos, bases, groups[i]))
            && (forall i, j | 0 <= i < j < |groups| :: rootOf(groups[i].rep) != rootOf(groups[j].rep))
            && (forall n | n in repos :: exists i :: 0 <= i < |groups| && n in groups[i].members)
  {
    var roots, groups := RootsOf(rootOf, repos), GroupsOf(rootOf, repos, bases);
    RootsAre(rootOf, repos);
    RootsHaveMembers(rootOf, repos);
    forall i | 0 <= i < |groups|
      ensures Coherent(rootOf, repos, bases, groups[i]) && rootOf(groups[i].rep) == roots[i]
    {
      GroupIsCoherent(rootOf, repos, bases, roots[i], groups[i]);
    }
    forall n | n in repos ensures exists i :: 0 <= i < |groups| && n in groups[i].members {
      var i :| 0 <= i < |roots| && roots[i] == rootOf(n);
      MembersAre(rootOf, repos, roots[i]);
      assert groups[i].members == MembersOf(rootOf, repos, roots[i]);
    }
  }

  /** Stands for itself: no directory of another checkout. */
  predicate OwnCheckout(c: Config, name: string) {
    name in c.repos ==> c.repos[name].gitRoot.None?
  }

  /**
   A repository that is a directory of another one shares its group, which the other one represents, and two
   that are checkouts of their own never share one.
   */
  lemma GroupsFollowCheckouts(c: Config, repos: seq<string>, bases: map<string, Base>, a: string, b: string)
    requires Groupable(RootIn(c), repos, bases) && a in repos && b in repos && a != b && OwnCheckout(c, b)
    ensures a in c.repos && c.repos[a].gitRoot == Some(b) ==>
              exists g | g in GroupsOf(RootIn(c), repos, bases) :: a in g.members && b in g.members && g.rep == b
    ensures OwnCheckout(c, a) ==>
              !exists g | g in GroupsOf(RootIn(c), repos, bases) :: a in g.members && b in g.members
  {
    var groups := GroupsOf(RootIn(c), repos, bases);
    GroupsPartition(RootIn(c), repos, bases);
    if a in c.repos && c.repos[a].gitRoot == Some(b) {
      var i :| 0 <= i < |groups| && a in groups[i].members;
      MembersAre(RootIn(c), repos, RootsOf(RootIn(c), repos)[i]);
      assert groups[i] in groups;
    }
  }
}
