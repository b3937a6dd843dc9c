/** internal/scanner/gcp/projects.go: breadth-first search of the folders of an organisation, without
    a visited set, then the search for projects under each of them. */
module ProjectDiscovery {
  import opened Base

  datatype Folder = Folder(name: string, active: bool)

  datatype Project = Project(id: string, displayName: string, state: string)

  const ACTIVE := "ACTIVE"

  datatype ProjectInfo = ProjectInfo(id: string, name: string, state: string)

  /** An answer of the Resource Manager, after any retries. */
  datatype Answer<+T> = Answered(items: seq<T>) | Refused(message: string)

  datatype Result = Found(projects: seq<ProjectInfo>) | FoldersRefused(parent: string) | ProjectsRefused(parent: string)

  type ListFolders = string -> Answer<Folder>
  type SearchProjects = string -> Answer<Project>

  // ------------------------------------------------------------ the hierarchy

  /** An organisation or folder with its active folders. */
  datatype Tree = Node(name: string, children: seq<Tree>)

  function Names(f: seq<Tree>): seq<string> { seq(|f|, i requires 0 <= i < |f| => f[i].name) }

  function ActiveNames(folders: seq<Folder>): seq<string>
  {
    if folders == [] then []
    else ActiveNames(folders[..|folders| - 1]) + if folders[|folders| - 1].active then [folders[|folders| - 1].name]
      else []
  }

  lemma {:induction false} ActiveNamesAppend(a: seq<Folder>, b: seq<Folder>)
    ensures ActiveNames(a + b) == ActiveNames(a) + ActiveNames(b)
  {
    if b == [] {
      assert a + b == a;
    } else {
      assert (a + b)[..|a + b| - 1] == a + b[..|b| - 1];
      ActiveNamesAppend(a, b[..|b| - 1]);
    }
  }

  /** The names of the active folders and no others, in the order of the folders and as often. */
  lemma {:induction false} OnlyActiveFolders(a: seq<Folder>, f: Folder, b: seq<Folder>)
    ensures ActiveNames([]) == []
    ensures ActiveNames(a + [f] + b) == ActiveNames(a) + (if f.active then [f.name] else []) + ActiveNames(b)
  {
    ActiveNamesAppend(a + [f], b);
    ActiveNamesAppend(a, [f]);
    assert [f][..0] == [];
  }

  /** The trees show what the listings answer; a refused listing ends its branch. */
  predicate Shows(list: ListFolders, f: seq<Tree>)
    decreases f
  {
    f == [] ||
    (&& Names(f[0].children) == (if list(f[0].name).Answered? then ActiveNames(list(f[0].name).items) else [])
     && Shows(list, f[0].children) && Shows(list, f[1..]))
  }

  function Size(f: seq<Tree>): nat
    decreases f
  {
    if f == [] then 0 else 1 + Size(f[0].children) + Size(f[1..])
  }

  /** All names of the trees, each node before its descendants. */
  function AllNames(f: seq<Tree>): seq<string>
    decreases f
  {
    if f == [] then [] else [f[0].name] + AllNames(f[0].children) + AllNames(f[1..])
  }

  lemma {:induction false} ShowsAppends(list: ListFolders, a: seq<Tree>, b: seq<Tree>)
    requires Shows(list, a) && Shows(list, b)
    ensures Shows(list, a + b)
  {
    hide Names, ActiveNames;
    if a == [] {
      assert a + b == b;
    } else {
      assert (a + b)[1..] == a[1..] + b;
      ShowsAppends(list, a[1..], b);
    }
  }

  lemma {:induction false} SizeAppends(a: seq<Tree>, b: seq<Tree>)
    ensures Size(a + b) == Size(a) + Size(b)
  {
    if a == [] {
      assert a + b == b;
    } else {
      assert (a + b)[1..] == a[1..] + b;
      SizeAppends(a[1..], b);
    }
  }

  lemma {:induction false} AllNamesAppends(a: seq<Tree>, b: seq<Tree>)
    ensures multiset(AllNames(a + b)) == multiset(AllNames(a)) + multiset(AllNames(b))
  {
    if a == [] {
      assert a + b == b;
    } else {
      assert (a + b)[1..] == a[1..] + b;
      AllNamesAppends(a[1..], b);
    }
  }

  /** The order of the queue. */
  function Visits(f: seq<Tree>): seq<string>
    decreases Size(f)
  {
    if f == [] then []
    else
      SizeAppends(f[1..], f[0].children);
      [f[0].name] + Visits(f[1..] + f[0].children)
  }

  /** The queue visits each node of the trees exactly as often as the trees have it. */
  lemma {:induction false} EachNodeIsVisited(f: seq<Tree>)
    ensures multiset(Visits(f)) == multiset(AllNames(f))
    decreases Size(f)
  {
    if f != [] {
      SizeAppends(f[1..], f[0].children);
      AllNamesAppends(f[1..], f[0].children);
      EachNodeIsVisited(f[1..] + f[0].children);
      assert AllNames(f) == [f[0].name] + AllNames(f[0].children) + AllNames(f[1..]);
    }
  }

  // ------------------------------------------------------------ projects

  function Info(p: Project): ProjectInfo { ProjectInfo(p.id, p.displayName, p.state) }

  /** The information kept of a project: its ID, its display name and its state. */
  predicate Describes(x: ProjectInfo, p: Project) { x.id == p.id && x.name == p.displayName && x.state == p.state }

  function Ids(infos: seq<ProjectInfo>): set<string> { set i | 0 <= i < |infos| :: infos[i].id }

  /** The active projects, the first with each ID. */
  function Kept(ps: seq<Project>): seq<ProjectInfo>
  {
    if ps == [] then []
    else
      var before, p := Kept(ps[..|ps| - 1]), ps[|ps| - 1];
      if p.state != ACTIVE || p.id in Ids(before) then before else before + [Info(p)]
  }

  /** What the searches under `parents` answer, up to the first refusal. */
  function Under(search: SearchProjects, parents: seq<string>): seq<Project>
  {
    if parents == [] then []
    else
      var a := search("parent:" + parents[|parents| - 1]);
      Under(search, parents[..|parents| - 1]) + if a.Answered? then a.items else []
  }

  lemma {:induction false} IdsSnoc(infos: seq<ProjectInfo>, x: ProjectInfo)
    ensures Ids(infos + [x]) == Ids(infos) + {x.id}
  {
    forall id | id in Ids(infos) + {x.id}
      ensures id in Ids(infos + [x])
    {
      if id == x.id {
        assert (infos + [x])[|infos|].id == id;
      } else {
        var i :| 0 <= i < |infos| && infos[i].id == id;
        assert (infos + [x])[i].id == id;
      }
    }
  }

  /** Exactly the IDs of the active projects, each once, each with the details of an active project. */
  lemma {:induction false} KeptExactly(ps: seq<Project>)
    ensures forall i, j | 0 <= i < j < |Kept(ps)| :: Kept(ps)[i].id != Kept(ps)[j].id
    ensures forall i | 0 <= i < |ps| && ps[i].state == "ACTIVE" :: ps[i].id in Ids(Kept(ps))
    ensures forall x | x in Kept(ps) :: exists i :: 0 <= i < |ps| && ps[i].state == "ACTIVE" && Describes(x, ps[i])
  {
    if ps != [] {
      var n := |ps| - 1;
      KeptExactly(ps[..n]);
      var before := Kept(ps[..n]);
      IdsSnoc(before, Info(ps[n]));
      forall i | 0 <= i < |ps| && ps[i].state == ACTIVE
        ensures ps[i].id in Ids(Kept(ps))
      {
        assert i < n ==> ps[..n][i] == ps[i];
      }
      forall x | x in Kept(ps)
        ensures exists i :: 0 <= i < |ps| && ps[i].state == "ACTIVE" && Describes(x, ps[i])
      {
        if x in before {
          var i :| 0 <= i < n && ps[..n][i].state == "ACTIVE" && Describes(x, ps[..n][i]);
          assert ps[i] == ps[..n][i];
        } else {
          assert x == Info(ps[n]) && Describes(x, ps[n]);
        }
      }
    }
  }

  // ------------------------------------------------------------ the program

  ghost predicate AllListed(list: ListFolders, names: seq<string>) { forall n | n in names :: list(n).Answered? }

  ghost predicate AllSearched(search: SearchProjects, names: seq<string>)
  {
    forall n | n in names :: search("parent:" + n).Answered?
  }

  method ActiveFolders(folders: seq<Folder>) returns (names: seq<string>)
    ensures names == ActiveNames(folders)
  {
    names := [];
    for i := 0 to |folders|
      invariant names == ActiveNames(folders[..i])
    {
      assert folders[..i + 1][..i] == folders[..i];
      if folders[i].active {
        names := names + [folders[i].name];
      }
    }
    assert folders[..|folders|] == folders;
  }

  lemma {:induction false} NamesAppend(a: seq<Tree>, b: seq<Tree>)
    ensures Names(a + b) == Names(a) + Names(b)
  {
  }

  lemma {:induction false} TailGrows<T>(s: seq<T>, k: nat, more: seq<T>)
    requires k < |s|
    ensures (s + more)[k + 1..] == s[k..][1..] + more
    ensures forall i | 0 <= i <= k :: (s + more)[i] == s[i]
  {
  }

  lemma {:induction false} SameLengths(f: seq<Tree>)
    ensures |Names(f)| == |f|
  {
  }

  /** The trees queued after the front one has been listed. */
  function Next(forest: seq<Tree>): seq<Tree>
    requires forest != []
  {
    forest[1..] + forest[0].children
  }

  /** The queue after its front has been listed. */
  function Turn(list: ListFolders, queue: seq<string>): seq<string>
    requires queue != []
  {
    queue[1..] + if list(queue[0]).Answered? then ActiveNames(list(queue[0]).items) else []
  }

  /** The loop over `queue` ends within `n` turns: the queue runs empty or a listing is refused. */
  predicate Ends(list: ListFolders, queue: seq<string>, n: nat)
    decreases n
  {
    queue == [] || (n > 0 && (list(queue[0]).Refused? || Ends(list, Turn(list, queue), n - 1)))
  }

  /** It ends because the queue runs empty. */
  predicate EndsCleanly(list: ListFolders, queue: seq<string>, n: nat)
    decreases n
  {
    queue == [] || (n > 0 && list(queue[0]).Answered? && EndsCleanly(list, Turn(list, queue), n - 1))
  }

  /** The names taken from the queue in the first `n` turns; a refused name is the last of them. */
  function Visited(list: ListFolders, queue: seq<string>, n: nat): seq<string>
    decreases n
  {
    if queue == [] || n == 0 then []
    else [queue[0]] + if list(queue[0]).Refused? then [] else Visited(list, Turn(list, queue), n - 1)
  }

  lemma {:induction false} TurnFacts(list: ListFolders, queue: seq<string>, n: nat)
    requires queue != [] && n > 0
    ensures list(queue[0]).Refused? ==>
      Ends(list, queue, n) && !EndsCleanly(list, queue, n) && Visited(list, queue, n) == [queue[0]]
    ensures list(queue[0]).Answered? ==>
      && (Ends(list, queue, n) <==> Ends(list, Turn(list, queue), n - 1))
      && (EndsCleanly(list, queue, n) <==> EndsCleanly(list, Turn(list, queue), n - 1))
      && Visited(list, queue, n) == [queue[0]] + Visited(list, Turn(list, queue), n - 1)
      && Turn(list, queue) == queue[1..] + ActiveNames(list(queue[0]).items)
  {
  }

  lemma {:induction false} EndFacts(list: ListFolders, n: nat)
    ensures Ends(list, [], n) && EndsCleanly(list, [], n) && Visited(list, [], n) == []
    ensures forall queue | queue != [] :: !Ends(list, queue, 0)
  {
  }

  lemma {:induction false} TreesTakeATurn(list: ListFolders, forest: seq<Tree>)
    requires Shows(list, forest) && forest != []
    ensures Shows(list, Next(forest)) && Size(Next(forest)) < Size(forest)
    ensures Names(Next(forest)) == Turn(list, Names(forest)) && Names(forest)[0] == forest[0].name
  {
    ShowsAppends(list, forest[1..], forest[0].children);
    SizeAppends(forest[1..], forest[0].children);
    NamesAppend(forest[1..], forest[0].children);
    assert Names(forest[1..]) == Names(forest)[1..];
  }

  /** When trees show the listings the loop ends within their size, and it visits their nodes in the order of the
      queue, all of them unless a listing is refused. */
  lemma {:induction false} TreesEnd(list: ListFolders, forest: seq<Tree>, n: nat)
    requires Shows(list, forest) && n >= Size(forest)
    ensures Ends(list, Names(forest), n) && Visited(list, Names(forest), n) <= Visits(forest)
    ensures EndsCleanly(list, Names(forest), n) <==> AllListed(list, Visits(forest))
    ensures EndsCleanly(list, Names(forest), n) ==> Visited(list, Names(forest), n) == Visits(forest)
    decreases n
  {
    if forest == [] {
      assert Names(forest) == [];
    } else {
      TreesTakeATurn(list, forest);
      TreesEnd(list, Next(forest), n - 1);
      SameLengths(forest);
      assert Visits(forest) == [forest[0].name] + Visits(Next(forest));
      TurnFacts(list, Names(forest), n);
      hide Ends, EndsCleanly, Visited, Visits, Names, Shows, Turn, Size;
    }
  }

  /** The trees whose queue ran empty. */
  function Regrown(list: ListFolders, queue: seq<string>, n: nat): (f: seq<Tree>)
    requires EndsCleanly(list, queue, n)
    ensures |f| == |queue|
    decreases n
  {
    if queue == [] then []
    else
      var g := Regrown(list, Turn(list, queue), n - 1);
      [Node(queue[0], g[|queue| - 1..])] + g[..|queue| - 1]
  }

  lemma {:induction false} ShowsSplits(list: ListFolders, f: seq<Tree>, k: nat)
    requires Shows(list, f) && k <= |f|
    ensures Shows(list, f[..k]) && Shows(list, f[k..])
  {
    if k > 0 {
      ShowsSplits(list, f[1..], k - 1);
      assert f[..k][1..] == f[1..][..k - 1] && f[k..] == f[1..][k - 1..];
    }
  }

  lemma {:induction false} TurnSplits(list: ListFolders, queue: seq<string>, names: seq<string>)
    requires queue != [] && list(queue[0]).Answered? && names == Turn(list, queue)
    ensures |names| >= |queue| - 1
    ensures names[..|queue| - 1] == queue[1..] && names[|queue| - 1..] == ActiveNames(list(queue[0]).items)
  {
    hide ActiveNames;
  }

  lemma {:induction false} NamesOne(t: Tree, rest: seq<Tree>)
    ensures Names([t] + rest) == [t.name] + Names(rest)
  {
  }

  /** Trees for the queue after one turn give trees for the queue before it. */
  lemma {:induction false} GraftShows(list: ListFolders, queue: seq<string>, t: Tree, rest: seq<Tree>)
    requires queue != [] && list(queue[0]).Answered? && t.name == queue[0]
    requires Names(rest) == queue[1..] && Names(t.children) == ActiveNames(list(queue[0]).items)
    requires Shows(list, t.children) && Shows(list, rest)
    ensures Names([t] + rest) == queue && Shows(list, [t] + rest)
  {
    hide Names, ActiveNames, Shows;
    NamesOne(t, rest);
    ShowsCons(list, t, rest);
  }

  lemma {:induction false} ShowsCons(list: ListFolders, t: Tree, rest: seq<Tree>)
    requires Names(t.children) == (if list(t.name).Answered? then ActiveNames(list(t.name).items) else [])
    requires Shows(list, t.children) && Shows(list, rest)
    ensures Shows(list, [t] + rest)
  {
    hide Names, ActiveNames;
    assert ([t] + rest)[1..] == rest;
  }

  lemma {:induction false} NamesSplit(f: seq<Tree>, k: nat)
    requires k <= |f|
    ensures |Names(f)| == |f| && Names(f[..k]) == Names(f)[..k] && Names(f[k..]) == Names(f)[k..]
  {
  }

  lemma {:induction false} RegrownShows(list: ListFolders, queue: seq<string>, n: nat)
    requires EndsCleanly(list, queue, n)
    ensures Names(Regrown(list, queue, n)) == queue && Shows(list, Regrown(list, queue, n))
    decreases n
  {
    if queue != [] {
      RegrownShows(list, Turn(list, queue), n - 1);
      var k, g := |queue| - 1, Regrown(list, Turn(list, queue), n - 1);
      TurnSplits(list, queue, Names(g));
      NamesSplit(g, k);
      ShowsSplits(list, g, k);
      assert Regrown(list, queue, n) == [Node(queue[0], g[k..])] + g[..k];
      hide Names, Shows, Turn, Regrown, ActiveNames;
      GraftShows(list, queue, Node(queue[0], g[k..]), g[..k]);
    }
  }

  /** A longer bound changes nothing once the loop has ended. */
  lemma {:induction false} MoreTurns(list: ListFolders, queue: seq<string>, n: nat, m: nat)
    requires Ends(list, queue, n) && n <= m
    ensures Ends(list, queue, m) && Visited(list, queue, m) == Visited(list, queue, n)
    ensures EndsCleanly(list, queue, m) <==> EndsCleanly(list, queue, n)
    decreases n
  {
    if queue != [] && list(queue[0]).Answered? {
      MoreTurns(list, Turn(list, queue), n - 1, m - 1);
    }
  }

  /** The organisation's tree, with every listing in it answered. */
  ghost predicate ShownBy(list: ListFolders, root: string, org: Tree)
  {
    org.name == root && Shows(list, [org]) && AllListed(list, Visits([org]))
  }

  /** The loop empties its queue after some number of turns exactly when a finite tree shows the listings and all
      listings in it are answered. */
  lemma {:induction false} EndsCleanlyIff(list: ListFolders, root: string)
    ensures (exists n: nat :: EndsCleanly(list, [root], n)) <==> (exists org :: ShownBy(list, root, org))
  {
    if n: nat :| EndsCleanly(list, [root], n) {
      var f := Regrown(list, [root], n);
      RegrownShows(list, [root], n);
      assert f == [f[0]] && Names(f)[0] == f[0].name;
      var m := n + Size(f);
      CleanEnds(list, [root], n);
      MoreTurns(list, [root], n, m);
      TreesEnd(list, f, m);
      assert ShownBy(list, root, f[0]);
    }
    if org :| ShownBy(list, root, org) {
      TreesEnd(list, [org], Size([org]));
      assert Names([org]) == [root];
    }
  }

  lemma {:induction false} CleanEnds(list: ListFolders, queue: seq<string>, n: nat)
    requires EndsCleanly(list, queue, n)
    ensures Ends(list, queue, n)
    decreases n
  {
    if queue != [] {
      CleanEnds(list, Turn(list, queue), n - 1);
    }
  }

  lemma {:induction false} VisitedIsForest(list: ListFolders, f: seq<Tree>, n: nat)
    requires Shows(list, f) && Ends(list, Names(f), n)
    ensures Visited(list, Names(f), n) <= Visits(f)
    ensures EndsCleanly(list, Names(f), n) <==> AllListed(list, Visits(f))
    ensures EndsCleanly(list, Names(f), n) ==> Visited(list, Names(f), n) == Visits(f)
  {
    hide *;
    MoreTurns(list, Names(f), n, n + Size(f));
    TreesEnd(list, f, n + Size(f));
  }

  /** What is visited is what the tree holds, however the bound on the turns was chosen. */
  lemma {:induction false} VisitedIsTree(list: ListFolders, root: string, org: Tree, n: nat)
    requires org.name == root && Shows(list, [org]) && Ends(list, [root], n)
    ensures Visited(list, [root], n) <= Visits([org])
    ensures EndsCleanly(list, [root], n) <==> AllListed(list, Visits([org]))
    ensures EndsCleanly(list, [root], n) ==> Visited(list, [root], n) == Visits([org])
  {
    NamesOne(org, []);
    assert Names([]) == [] && [org] + [] == [org];
    hide *;
    VisitedIsForest(list, [org], n);
  }

  /** A queued folder that is listed under itself keeps the queue from ever running empty. */
  lemma {:induction false} SelfListedNeverEndsCleanly(list: ListFolders, queue: seq<string>, n: nat, a: string)
    requires a in queue && list(a).Answered? && a in ActiveNames(list(a).items)
    ensures !EndsCleanly(list, queue, n)
    decreases n
  {
    if n > 0 && list(queue[0]).Answered? {
      assert a in Turn(list, queue);
      SelfListedNeverEndsCleanly(list, Turn(list, queue), n - 1, a);
    }
  }

  /** The loop ends without a tree only by a refusal: with every listing answered it ends exactly when it ends
      cleanly. */
  lemma {:induction false} OnlyRefusalsEndEarly(list: ListFolders, queue: seq<string>, n: nat)
    requires Ends(list, queue, n)
    ensures EndsCleanly(list, queue, n)
            || (Visited(list, queue, n) != [] && list(Last(Visited(list, queue, n))).Refused?)
    ensures EndsCleanly(list, queue, n) ==> AllListed(list, Visited(list, queue, n))
    decreases n
  {
    if queue != [] && list(queue[0]).Answered? {
      OnlyRefusalsEndEarly(list, Turn(list, queue), n - 1);
    }
  }

  function Last(names: seq<string>): string
    requires names != []
  {
    names[|names| - 1]
  }

  /** A refusal ends the loop although no tree shows the listings: `a` is listed under itself, but `b`, queued
      behind it, is refused. */
  lemma {:induction false} RefusalEndsWithoutTree(list: ListFolders, root: string, a: string, b: string)
    requires list(root).Answered? && ActiveNames(list(root).items) == [a, b]
    requires list(a).Answered? && ActiveNames(list(a).items) == [a] && list(b).Refused?
    ensures Ends(list, [root], 3) && Visited(list, [root], 3) == [root, a, b]
    ensures forall org: Tree | org.name == root :: !Shows(list, [org])
  {
    assert Turn(list, [root]) == [a, b];
    assert Turn(list, [a, b]) == [b, a];
    assert Ends(list, [b, a], 1) && Ends(list, [a, b], 2);
    assert Visited(list, [b, a], 1) == [b] && Visited(list, [a, b], 2) == [a, b];
    forall org: Tree | org.name == root
      ensures !Shows(list, [org])
    {
      SelfListedHasNoTree(list, org.children, a);
      assert Names(org.children) == [a, b] ==> a in Names(org.children);
    }
  }

  /** The folder loop, for any bound on its turns: it visits exactly the names the bound admits, and reports the
      first refused one. */
  method CollectParents(list: ListFolders, root: string, ghost turns: nat)
      returns (parents: seq<string>, refused: Option<string>)
    requires Ends(list, [root], turns)
    ensures refused.None? <==> EndsCleanly(list, [root], turns)
    ensures refused.None? ==> parents == Visited(list, [root], turns) && AllListed(list, parents)
    ensures refused.Some? ==> list(refused.value).Refused?
    ensures refused.Some? ==> Visited(list, [root], turns) != [] && refused.value == Last(Visited(list, [root], turns))
  {
    parents := [root];
    var queue := [root];
    refused := None;
    ghost var listed, left: nat := 0, turns;
    hide Ends, EndsCleanly, Visited, Turn, ActiveNames;
    while |queue| > 0
      invariant Ends(list, queue, left)
      invariant EndsCleanly(list, queue, left) <==> EndsCleanly(list, [root], turns)
      invariant listed <= |parents| && parents[listed..] == queue
      invariant parents[..listed] + Visited(list, queue, left) == Visited(list, [root], turns)
      invariant forall i | 0 <= i < listed :: list(parents[i]).Answered?
      decreases left
    {
      var current := queue[0];
      EndFacts(list, left);
      TurnFacts(list, queue, left);
      assert current == parents[listed] && parents[..listed + 1] == parents[..listed] + [current];
      ghost var before := queue;
      queue := queue[1..];
      var folders := list(current);
      if folders.Refused? {
        return parents, Some(current);
      }
      var names := ActiveFolders(folders.items);
      TailGrows(parents, listed, names);
      assert (parents + names)[..listed + 1] == parents[..listed] + [current];
      parents := parents + names;
      queue := queue + names;
      assert queue == Turn(list, before);
      listed, left := listed + 1, left - 1;
    }
    EndFacts(list, left);
    assert parents[listed..] == [] && parents[..listed] == parents;
  }

  /** Adds the active projects of one answer to what is already kept of `before`. */
  method KeepActive(projects: seq<Project>, kept: seq<ProjectInfo>, seen: set<string>, ghost before: seq<Project>)
    returns (result: seq<ProjectInfo>, nowSeen: set<string>)
    requires kept == Kept(before) && seen == Ids(kept)
    ensures result == Kept(before + projects) && nowSeen == Ids(result)
  {
    result, nowSeen := kept, seen;
    assert before + projects[..0] == before;
    for j := 0 to |projects|
      invariant result == Kept(before + projects[..j]) && nowSeen == Ids(result)
    {
      var p := projects[j];
      ghost var ps := before + projects[..j + 1];
      assert ps[..|ps| - 1] == before + projects[..j] && ps[|ps| - 1] == p;
      if p.state != ACTIVE {
        continue;
      }
      if p.id in nowSeen {
        continue;
      }
      IdsSnoc(result, Info(p));
      nowSeen := nowSeen + {p.id};
      result := result + [Info(p)];
    }
    assert projects[..|projects|] == projects;
  }

  method SearchAll(search: SearchProjects, parents: seq<string>)
      returns (result: seq<ProjectInfo>, refused: Option<string>)
    ensures refused.None? ==> result == Kept(Under(search, parents)) && AllSearched(search, parents)
    ensures refused.Some? ==> refused.value in parents && search("parent:" + refused.value).Refused?
  {
    result := [];
    var seen: set<string> := {};
    refused := None;
    assert Kept([]) == [] && Ids([]) == {};
    hide Kept, Ids;
    for i := 0 to |parents|
      invariant result == Kept(Under(search, parents[..i])) && seen == Ids(result)
      invariant AllSearched(search, parents[..i])
    {
      var projects := search("parent:" + parents[i]);
      if projects.Refused? {
        return result, Some(parents[i]);
      }
      assert parents[..i + 1][..i] == parents[..i];
      result, seen := KeepActive(projects.items, result, seen, Under(search, parents[..i]));
    }
    assert parents[..|parents|] == parents;
  }

  /** The search succeeds exactly when no listing and no search is refused; then it returns what is kept of the
      projects under every visited name. */
  method DiscoverProjects(list: ListFolders, search: SearchProjects, orgID: string, ghost turns: nat)
      returns (r: Result)
    requires Ends(list, ["organizations/" + orgID], turns)
    ensures var root, visited := "organizations/" + orgID, Visited(list, ["organizations/" + orgID], turns);
      && (r.Found? <==> EndsCleanly(list, [root], turns) && AllSearched(search, visited))
      && (r.Found? ==> r.projects == Kept(Under(search, visited)))
      && (r.FoldersRefused? ==> visited != [] && r.parent == Last(visited) && list(r.parent).Refused?)
      && (r.ProjectsRefused? ==> EndsCleanly(list, [root], turns) && r.parent in visited
                                 && search("parent:" + r.parent).Refused?)
  {
    var parents, refused := CollectParents(list, "organizations/" + orgID, turns);
    if refused.Some? {
      return FoldersRefused(refused.value);
    }
    var projects;
    projects, refused := SearchAll(search, parents);
    if refused.Some? {
      return ProjectsRefused(refused.value);
    }
    r := Found(projects);
  }

  // ------------------------------------------------------------ what it means

  lemma {:induction false} UnderHolds(search: SearchProjects, parents: seq<string>, p: Project)
    ensures p in Under(search, parents) <==>
            exists n :: n in parents && search("parent:" + n).Answered? && p in search("parent:" + n).items
  {
    if parents != [] {
      var k := |parents| - 1;
      UnderHolds(search, parents[..k], p);
      assert parents == parents[..k] + [parents[k]];
    }
  }

  /** A project is found exactly when an active project with its ID is answered for some node of the
      tree, and the organisation's node and every reachable active folder count as such. */
  lemma {:induction false} FoundExactly(search: SearchProjects, org: Tree, id: string)
    ensures id in Ids(Kept(Under(search, Visits([org])))) <==>
            exists n, p :: && n in AllNames([org]) && search("parent:" + n).Answered?
                           && p in search("parent:" + n).items && p.state == "ACTIVE" && p.id == id
  {
    EachNodeIsVisited([org]);
    var ps := Under(search, Visits([org]));
    KeptExactly(ps);
    assert forall n :: n in Visits([org]) <==> n in AllNames([org]) by {
      forall n
        ensures n in Visits([org]) <==> n in AllNames([org])
      {
        assert n in multiset(Visits([org])) <==> n in multiset(AllNames([org]));
      }
    }
    if id in Ids(Kept(ps)) {
      var k :| 0 <= k < |Kept(ps)| && Kept(ps)[k].id == id;
      assert Kept(ps)[k] in Kept(ps);
      var i :| 0 <= i < |ps| && ps[i].state == "ACTIVE" && Describes(Kept(ps)[k], ps[i]);
      assert ps[i] in ps;
      UnderHolds(search, Visits([org]), ps[i]);
    }
    if n, p :| && n in AllNames([org]) && search("parent:" + n).Answered?
               && p in search("parent:" + n).items && p.state == ACTIVE && p.id == id {
      UnderHolds(search, Visits([org]), p);
      var i :| 0 <= i < |ps| && ps[i] == p;
    }
  }

  /** A folder that is listed under itself belongs to no finite tree. */
  lemma {:induction false} SelfListedHasNoTree(list: ListFolders, f: seq<Tree>, a: string)
    requires list(a).Answered? && a in ActiveNames(list(a).items)
    ensures Shows(list, f) ==> a !in Names(f)
    decreases f
  {
    if f != [] {
      SelfListedHasNoTree(list, f[0].children, a);
      SelfListedHasNoTree(list, f[1..], a);
      assert Names(f) == [f[0].name] + Names(f[1..]);
    }
  }

  /** When names are distinct each parent is searched once. */
  lemma {:induction false} EachFolderOnce(org: Tree)
    requires Distinct(AllNames([org]))
    ensures Distinct(Visits([org]))
  {
    EachNodeIsVisited([org]);
    DistinctPermutes(Visits([org]), AllNames([org]));
  }
}
