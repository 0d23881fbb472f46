/**
 The in-memory authorization evaluator. Directory graphs may be cyclic or name directories that are
 not listed; the two loops guard against both. Their answers are stated against closures of the
 parent relation, which is what the SQL evaluator computes recursively.
 */
module Authorization {
  import opened Options

  type Id = nat

  datatype Action =
    | DirectoryList | ContentRead | ContentWrite | EntryDelete | SnapshotPublish | AclManage
    | TokenIssue | DriverUse | DriverManage | GcRun | AuditRead | SystemManage

  datatype Subject = Principal(id: Id) | Group(id: Id)
  datatype Directory = Directory(parent: Option<Id>, aclInherits: bool)
  datatype Grant = Grant(directory: Id, subject: Subject, action: Action)

  datatype Graph = Graph(
    activePrincipals: set<Id>,
    directories: map<Id, Directory>,
    groupMembers: map<Id, set<Id>>,
    grants: seq<Grant>)

  datatype TokenScope = TokenScope(
    principal: Id, root: Id, actions: set<Action>, drivers: Option<set<Id>>,
    snapshot: Option<Id>, expiresAt: nat, revoked: bool)

  datatype AccessRequest = AccessRequest(
    target: Id, action: Action, driver: Option<Id>, snapshot: Option<Id>, now: nat)

  datatype Denial =
    | PrincipalInactive | TokenInactive | TokenAction | TokenDirectory | TokenDriver | TokenSnapshot
    | DirectoryGraph | Acl

  /** A directory graph that is cyclic, or names a directory it does not list. */
  datatype GraphError = BrokenGraph

  datatype Decision = Allowed | Denied(denial: Denial)

  // ---------------------------------------------------------------- the closures

  /** One step up; the inherited closure stops where inheritance is off. */
  function Up(directories: map<Id, Directory>, d: Id, inherited: bool): Option<Id> {
    if d !in directories || (inherited && !directories[d].aclInherits) then None else directories[d].parent
  }

  /** The directory `n` steps up, listed or not. */
  function Walk(directories: map<Id, Directory>, from: Id, inherited: bool, n: nat): Option<Id> {
    if n == 0 then Some(from)
    else
      var below := Walk(directories, from, inherited, n - 1);
      if below.None? then None else Up(directories, below.value, inherited)
  }

  /** What the recursive queries return: everything listed that a walk reaches. */
  ghost predicate InClosure(directories: map<Id, Directory>, from: Id, inherited: bool, d: Id) {
    d in directories && exists n: nat :: Walk(directories, from, inherited, n) == Some(d)
  }

  ghost predicate Closed(directories: map<Id, Directory>, inherited: bool, s: set<Id>) {
    forall d | d in s && d in directories ::
      var up := Up(directories, d, inherited); up.Some? && up.value in directories ==> up.value in s
  }

  /** The closure is the least set that holds the start and one step up of everything in it. */
  lemma {:induction false} ClosureIsLeast(directories: map<Id, Directory>, from: Id, inherited: bool, s: set<Id>, n: nat)
    requires from in s && Closed(directories, inherited, s)
    ensures var reached := Walk(directories, from, inherited, n);
            reached.Some? && reached.value in directories ==> reached.value in s
    decreases n
  {
    if n > 0 { ClosureIsLeast(directories, from, inherited, s, n - 1); }
  }

  lemma ClosureIsClosed(directories: map<Id, Directory>, from: Id, inherited: bool, d: Id)
    requires InClosure(directories, from, inherited, d)
    ensures var up := Up(directories, d, inherited);
            up.Some? && up.value in directories ==> InClosure(directories, from, inherited, up.value)
  {
    var n: nat :| Walk(directories, from, inherited, n) == Some(d);
    assert Walk(directories, from, inherited, n + 1) == Up(directories, d, inherited);
  }

  /** Once a walk comes back to where it was, it never reaches anything new. */
  lemma {:induction false} WalkRepeats(directories: map<Id, Directory>, from: Id, inherited: bool, j: nat, k: nat, n: nat)
    requires j < k && Walk(directories, from, inherited, j) == Walk(directories, from, inherited, k)
    ensures exists m: nat :: m < k && Walk(directories, from, inherited, n) == Walk(directories, from, inherited, m)
    decreases n
  {
    if n >= k {
      WalkRepeats(directories, from, inherited, j, k, n - 1);
      var m: nat :| m < k && Walk(directories, from, inherited, n - 1) == Walk(directories, from, inherited, m);
      assert Walk(directories, from, inherited, n) == Walk(directories, from, inherited, m + 1);
      if m + 1 == k { assert Walk(directories, from, inherited, n) == Walk(directories, from, inherited, j); }
    }
  }

  /** A walk that has ended stays ended. */
  lemma {:induction false} WalkEnds(directories: map<Id, Directory>, from: Id, inherited: bool, k: nat, n: nat)
    requires k <= n && Walk(directories, from, inherited, k) == None
    ensures Walk(directories, from, inherited, n) == None
    decreases n
  {
    if n > k { WalkEnds(directories, from, inherited, k, n - 1); }
  }

  lemma {:induction false} WalkJoins(directories: map<Id, Directory>, from: Id, inherited: bool, n: nat, m: nat)
    requires Walk(directories, from, inherited, n).Some?
    ensures Walk(directories, from, inherited, n + m)
            == Walk(directories, Walk(directories, from, inherited, n).value, inherited, m)
    decreases m
  {
    if m > 0 { WalkJoins(directories, from, inherited, n, m - 1); }
  }

  // ---------------------------------------------------------------- in_subtree

  /** A walk from `target` meets `root`, which need not be listed. */
  ghost predicate Meets(directories: map<Id, Directory>, root: Id, target: Id) {
    exists n: nat :: Walk(directories, target, false, n) == Some(root)
  }

  method InSubtree(directories: map<Id, Directory>, root: Id, target: Id) returns (inside: bool)
    ensures inside <==> Meets(directories, root, target)
  {
    hide Walk, Meets;
    WalkStarts(directories, target, false);
    var current := Some(target);
    var visited := {};
    ghost var n := 0;
    while current.Some?
      invariant current == Walk(directories, target, false, n)
      invariant forall v | v in visited :: MetBefore(directories, target, false, n, v)
      invariant visited <= directories.Keys
      invariant forall i :: 0 <= i < n ==> Walk(directories, target, false, i).Some?
      invariant forall i :: 0 <= i < n ==> Walk(directories, target, false, i) != Some(root)
      decreases |directories.Keys - visited|, current.Some?
    {
      var d := current.value;
      WalkStep(directories, target, false, n);
      if d in visited {
        ghost var j: nat :| j < n && Walk(directories, target, false, j) == Some(d);
        forall k: nat ensures Walk(directories, target, false, k) != Some(root) {
          WalkRepeats(directories, target, false, j, n, k);
        }
        NeverMeets(directories, root, target);
        return false;
      }
      if d == root {
        MeetsAt(directories, root, target, n);
        return true;
      }
      if d !in directories {
        EndedWalkMisses(directories, target, false, n + 1, root);
        NeverMeets(directories, root, target);
        return false;
      }
      visited := visited + {d};
      current := directories[d].parent;
      n := n + 1;
    }
    EndedWalkMisses(directories, target, false, n, root);
    NeverMeets(directories, root, target);
    return false;
  }

  lemma WalkStarts(directories: map<Id, Directory>, from: Id, inherited: bool)
    ensures Walk(directories, from, inherited, 0) == Some(from)
  {
  }

  lemma WalkStep(directories: map<Id, Directory>, from: Id, inherited: bool, n: nat)
    requires Walk(directories, from, inherited, n).Some?
    ensures Walk(directories, from, inherited, n + 1)
            == Up(directories, Walk(directories, from, inherited, n).value, inherited)
  {
  }

  lemma MeetsAt(directories: map<Id, Directory>, root: Id, target: Id, n: nat)
    requires Walk(directories, target, false, n) == Some(root)
    ensures Meets(directories, root, target)
  {
  }

  lemma NeverMeets(directories: map<Id, Directory>, root: Id, target: Id)
    requires forall n: nat :: Walk(directories, target, false, n) != Some(root)
    ensures !Meets(directories, root, target)
  {
  }

  ghost predicate MetBefore(directories: map<Id, Directory>, from: Id, inherited: bool, n: nat, d: Id) {
    exists i: nat :: i < n && Walk(directories, from, inherited, i) == Some(d)
  }

  lemma EndedWalkMisses(directories: map<Id, Directory>, from: Id, inherited: bool, k: nat, d: Id)
    requires Walk(directories, from, inherited, k) == None
    requires forall i :: 0 <= i < k ==> Walk(directories, from, inherited, i) != Some(d)
    ensures forall n :: Walk(directories, from, inherited, n) != Some(d)
  {
    forall n: nat ensures Walk(directories, from, inherited, n) != Some(d) {
      if n >= k { WalkEnds(directories, from, inherited, k, n); }
    }
  }

  /** The loop and the recursive `ancestors` query disagree exactly about roots that are not listed. */
  lemma SubtreeIsClosureWhenListed(directories: map<Id, Directory>, root: Id, target: Id)
    ensures InClosure(directories, target, false, root) <==> Meets(directories, root, target) && root in directories
  {
  }

  /** For example, a dangling parent is accepted as a token root by the loop, never by the query. */
  lemma DanglingRootIsAccepted()
    ensures var directories := map[1 := Directory(Some(2), true)];
            Meets(directories, 2, 1) && !InClosure(directories, 1, false, 2)
  {
    var directories := map[1 := Directory(Some(2), true)];
    assert Walk(directories, 1, false, 0) == Some(1);
    assert Walk(directories, 1, false, 1) == Some(2);
  }

  // ---------------------------------------------------------------- acl_allows

  function GroupsFor(graph: Graph, principal: Id): set<Id> {
    set g | g in graph.groupMembers && principal in graph.groupMembers[g]
  }

  predicate SubjectMatches(subject: Subject, principal: Id, groups: set<Id>) {
    match subject
    case Principal(id) => id == principal
    case Group(id) => id in groups
  }

  predicate Granted(graph: Graph, principal: Id, d: Id, action: Action) {
    exists i :: 0 <= i < |graph.grants| && graph.grants[i].directory == d && graph.grants[i].action == action
      && SubjectMatches(graph.grants[i].subject, principal, GroupsFor(graph, principal))
  }

  /** A matching grant lies in the inherited closure. */
  ghost predicate GrantInClosure(graph: Graph, principal: Id, target: Id, action: Action) {
    exists d :: InClosure(graph.directories, target, true, d) && Granted(graph, principal, d, action)
  }

  ghost predicate Cyclic(directories: map<Id, Directory>, from: Id) {
    exists i: nat, j: nat :: i < j && Walk(directories, from, true, i).Some?
      && Walk(directories, from, true, i) == Walk(directories, from, true, j)
  }

  ghost predicate Dangling(directories: map<Id, Directory>, from: Id) {
    exists n: nat, d :: Walk(directories, from, true, n) == Some(d) && d !in directories
  }

  /** What the loop answers on any graph whatsoever. */
  ghost function AclAnswer(graph: Graph, principal: Id, target: Id, action: Action): Result<bool, GraphError> {
    if GrantInClosure(graph, principal, target, action) then Ok(true)
    else if Cyclic(graph.directories, target) || Dangling(graph.directories, target) then Err(BrokenGraph)
    else Ok(false)
  }

  // ---------------------------------------------------------------- the same in terms of single grants

  /** `path` goes up from listed directory to parent, and where `inherited`, only from directories that inherit. */
  predicate GoesUp(directories: map<Id, Directory>, path: seq<Id>, inherited: bool) {
    && path != []
    && forall i :: 0 <= i < |path| - 1 ==>
         && path[i] in directories && directories[path[i]].parent == Some(path[i + 1])
         && (inherited ==> directories[path[i]].aclInherits)
  }

  lemma {:induction false} WalkHasPath(directories: map<Id, Directory>, from: Id, inherited: bool, n: nat) returns (path: seq<Id>)
    requires Walk(directories, from, inherited, n).Some?
    ensures GoesUp(directories, path, inherited) && |path| == n + 1 && path[0] == from
    ensures forall i :: 0 <= i <= n ==> Walk(directories, from, inherited, i) == Some(path[i])
  {
    if n == 0 {
      path := [from];
    } else {
      path := WalkHasPath(directories, from, inherited, n - 1);
      path := path + [Walk(directories, from, inherited, n).value];
    }
  }

  lemma {:induction false} PathIsWalked(directories: map<Id, Directory>, path: seq<Id>, inherited: bool, i: nat)
    requires GoesUp(directories, path, inherited) && i < |path|
    ensures Walk(directories, path[0], inherited, i) == Some(path[i])
  {
    if i > 0 { PathIsWalked(directories, path, inherited, i - 1); }
  }

  /** The grant names the principal, or a group that lists it as a member. */
  predicate Names(graph: Graph, grant: Grant, principal: Id) {
    || grant.subject == Principal(principal)
    || exists g :: g in graph.groupMembers && principal in graph.groupMembers[g] && grant.subject == Group(g)
  }

  /** The grant is for the action, names the principal and lies on the listed directory at the end of the path. */
  predicate GrantsAt(graph: Graph, grant: Grant, principal: Id, action: Action, path: seq<Id>) {
    && path != [] && path[|path| - 1] in graph.directories && grant.directory == path[|path| - 1]
    && grant in graph.grants && grant.action == action && Names(graph, grant, principal)
  }

  ghost predicate IsGranted(graph: Graph, principal: Id, target: Id, action: Action) {
    exists path, grant ::
      GoesUp(graph.directories, path, true) && path[0] == target && GrantsAt(graph, grant, principal, action, path)
  }

  /** Going up by inheritance ends at a directory that is not listed, or comes back to one it has passed. */
  ghost predicate IsBroken(directories: map<Id, Directory>, target: Id) {
    exists path ::
      && GoesUp(directories, path, true) && path[0] == target
      && (path[|path| - 1] !in directories || path[|path| - 1] in path[..|path| - 1])
  }

  lemma GrantedByOne(graph: Graph, principal: Id, d: Id, action: Action)
    ensures Granted(graph, principal, d, action) <==>
              exists grant :: grant in graph.grants && grant.directory == d && grant.action == action && Names(graph, grant, principal)
  {
    if Granted(graph, principal, d, action) {
      var i :| 0 <= i < |graph.grants| && graph.grants[i].directory == d && graph.grants[i].action == action
        && SubjectMatches(graph.grants[i].subject, principal, GroupsFor(graph, principal));
      assert graph.grants[i] in graph.grants && Names(graph, graph.grants[i], principal);
    }
    if grant :| grant in graph.grants && grant.directory == d && grant.action == action && Names(graph, grant, principal) {
      var i :| 0 <= i < |graph.grants| && graph.grants[i] == grant;
      assert SubjectMatches(graph.grants[i].subject, principal, GroupsFor(graph, principal));
    }
  }

  lemma ClosureByPath(directories: map<Id, Directory>, from: Id, inherited: bool, d: Id)
    ensures InClosure(directories, from, inherited, d) <==>
              d in directories && exists path :: GoesUp(directories, path, inherited) && path[0] == from && path[|path| - 1] == d
  {
    if InClosure(directories, from, inherited, d) {
      var n: nat :| Walk(directories, from, inherited, n) == Some(d);
      var path := WalkHasPath(directories, from, inherited, n);
    }
    if path :| GoesUp(directories, path, inherited) && path[0] == from && path[|path| - 1] == d {
      PathIsWalked(directories, path, inherited, |path| - 1);
    }
  }

  lemma GrantedByPath(graph: Graph, principal: Id, target: Id, action: Action)
    ensures GrantInClosure(graph, principal, target, action) <==> IsGranted(graph, principal, target, action)
  {
    hide Granted, Names;
    if GrantInClosure(graph, principal, target, action) {
      var d :| InClosure(graph.directories, target, true, d) && Granted(graph, principal, d, action);
      ClosureByPath(graph.directories, target, true, d);
      GrantedByOne(graph, principal, d, action);
      var path :| GoesUp(graph.directories, path, true) && path[0] == target && path[|path| - 1] == d;
      var grant :| grant in graph.grants && grant.directory == d && grant.action == action && Names(graph, grant, principal);
      assert GrantsAt(graph, grant, principal, action, path);
    }
    if path, grant :| GoesUp(graph.directories, path, true) && path[0] == target
                      && GrantsAt(graph, grant, principal, action, path) {
      ClosureByPath(graph.directories, target, true, grant.directory);
      GrantedByOne(graph, principal, grant.directory, action);
    }
  }

  lemma BrokenByPath(directories: map<Id, Directory>, target: Id)
    ensures Cyclic(directories, target) || Dangling(directories, target) <==> IsBroken(directories, target)
  {
    if Cyclic(directories, target) {
      var i: nat, j: nat :| i < j && Walk(directories, target, true, i).Some?
        && Walk(directories, target, true, i) == Walk(directories, target, true, j);
      var path := WalkHasPath(directories, target, true, j);
      assert path[..|path| - 1][i] == path[|path| - 1];
    }
    if Dangling(directories, target) {
      var n: nat, d :| Walk(directories, target, true, n) == Some(d) && d !in directories;
      var path := WalkHasPath(directories, target, true, n);
    }
    if path :| GoesUp(directories, path, true) && path[0] == target
               && (path[|path| - 1] !in directories || path[|path| - 1] in path[..|path| - 1]) {
      var n := |path| - 1;
      PathIsWalked(directories, path, true, n);
      if path[n] in directories {
        var i :| 0 <= i < n && path[..n][i] == path[n];
        PathIsWalked(directories, path, true, i);
      }
    }
  }

  /** What the loop answers, said of grants and of paths of directories alone. */
  lemma AnswerByGrants(graph: Graph, principal: Id, target: Id, action: Action)
    ensures var answer := AclAnswer(graph, principal, target, action);
            && (answer == Ok(true) <==> IsGranted(graph, principal, target, action))
            && (answer.Err? <==> !IsGranted(graph, principal, target, action) && IsBroken(graph.directories, target))
  {
    GrantedByPath(graph, principal, target, action);
    BrokenByPath(graph.directories, target);
  }

  /** `direct` has the grants of `graph` that name a principal, and none that names a group. */
  ghost predicate HasDirectGrants(graph: Graph, direct: Graph) {
    && direct == graph.(grants := direct.grants)
    && forall g :: g in direct.grants <==> g in graph.grants && g.subject.Principal?
  }

  /** Who is in no group is answered as if there were no grants to groups. */
  lemma GroupsAreForMembers(graph: Graph, direct: Graph, principal: Id, target: Id, action: Action)
    requires HasDirectGrants(graph, direct)
    requires forall g | g in graph.groupMembers :: principal !in graph.groupMembers[g]
    ensures AclAnswer(graph, principal, target, action) == AclAnswer(direct, principal, target, action)
  {
    AnswerByGrants(graph, principal, target, action);
    AnswerByGrants(direct, principal, target, action);
    forall path, grant
      ensures GrantsAt(graph, grant, principal, action, path) <==> GrantsAt(direct, grant, principal, action, path)
    {
      assert Names(graph, grant, principal) ==> grant.subject.Principal?;
    }
  }

  method AclAllows(graph: Graph, principal: Id, target: Id, action: Action) returns (answer: Result<bool, GraphError>)
    ensures answer == Ok(true) <==> IsGranted(graph, principal, target, action)
    ensures answer.Err? <==> !IsGranted(graph, principal, target, action) && IsBroken(graph.directories, target)
    ensures answer == AclAnswer(graph, principal, target, action)
  {
    hide Walk, AclAnswer, Granted, Searched, IsGranted, IsBroken;
    AnswerByGrants(graph, principal, target, action);
    SearchedNothing(graph, principal, target, action);
    var directories := graph.directories;
    WalkStarts(directories, target, true);
    var current := Some(target);
    var visited := {};
    ghost var n := 0;
    while current.Some?
      invariant current == Walk(directories, target, true, n)
      invariant forall v | v in visited :: MetBefore(directories, target, true, n, v)
      invariant visited <= directories.Keys
      invariant Searched(graph, principal, target, action, n)
      decreases |directories.Keys - visited|, current.Some?
    {
      var d := current.value;
      WalkStep(directories, target, true, n);
      if d in visited {
        ghost var j: nat :| j < n && Walk(directories, target, true, j) == Some(d);
        CycleFindsNothing(graph, principal, target, action, j, n);
        return Err(BrokenGraph);
      }
      if d !in directories {
        DanglingFindsNothing(graph, principal, target, action, n);
        return Err(BrokenGraph);
      }
      if Granted(graph, principal, d, action) {
        GrantFound(graph, principal, target, action, n, d);
        return Ok(true);
      }
      if !directories[d].aclInherits {
        SearchedMore(graph, principal, target, action, n);
        EndFindsNothing(graph, principal, target, action, n + 1);
        return Ok(false);
      }
      SearchedMore(graph, principal, target, action, n);
      visited := visited + {d};
      current := directories[d].parent;
      n := n + 1;
    }
    EndFindsNothing(graph, principal, target, action, n);
    return Ok(false);
  }

  lemma GrantFound(graph: Graph, principal: Id, target: Id, action: Action, n: nat, d: Id)
    requires Walk(graph.directories, target, true, n) == Some(d) && d in graph.directories
    requires Granted(graph, principal, d, action)
    ensures AclAnswer(graph, principal, target, action) == Ok(true)
  {
    assert InClosure(graph.directories, target, true, d);
  }

  /** The first `n` directories of the walk are listed and carry no matching grant. */
  ghost predicate Searched(graph: Graph, principal: Id, target: Id, action: Action, n: nat) {
    forall i :: 0 <= i < n ==>
      var d := Walk(graph.directories, target, true, i);
      d.Some? && d.value in graph.directories && !Granted(graph, principal, d.value, action)
  }

  lemma SearchedNothing(graph: Graph, principal: Id, target: Id, action: Action)
    ensures Searched(graph, principal, target, action, 0)
  {
  }

  lemma SearchedMore(graph: Graph, principal: Id, target: Id, action: Action, n: nat)
    requires Searched(graph, principal, target, action, n)
    requires var d := Walk(graph.directories, target, true, n);
             d.Some? && d.value in graph.directories && !Granted(graph, principal, d.value, action)
    ensures Searched(graph, principal, target, action, n + 1)
  {
  }

  lemma NothingBeyond(graph: Graph, principal: Id, target: Id, action: Action, k: nat)
    requires Searched(graph, principal, target, action, k)
    requires forall n :: n >= k ==>
               var d := Walk(graph.directories, target, true, n);
               d.Some? && d.value in graph.directories ==> !Granted(graph, principal, d.value, action)
    ensures !GrantInClosure(graph, principal, target, action)
  {
    forall d: Id | InClosure(graph.directories, target, true, d) ensures !Granted(graph, principal, d, action) {
      var n: nat :| Walk(graph.directories, target, true, n) == Some(d);
    }
  }

  lemma CycleFindsNothing(graph: Graph, principal: Id, target: Id, action: Action, j: nat, k: nat)
    requires j < k && Searched(graph, principal, target, action, k)
    requires Walk(graph.directories, target, true, j) == Walk(graph.directories, target, true, k)
    ensures AclAnswer(graph, principal, target, action) == Err(BrokenGraph)
  {
    forall n: nat | n >= k
      ensures var d := Walk(graph.directories, target, true, n);
              d.Some? && d.value in graph.directories ==> !Granted(graph, principal, d.value, action)
    {
      WalkRepeats(graph.directories, target, true, j, k, n);
    }
    NothingBeyond(graph, principal, target, action, k);
    assert Cyclic(graph.directories, target);
  }

  lemma DanglingFindsNothing(graph: Graph, principal: Id, target: Id, action: Action, k: nat)
    requires Searched(graph, principal, target, action, k)
    requires Walk(graph.directories, target, true, k).Some? && Walk(graph.directories, target, true, k).value !in graph.directories
    ensures AclAnswer(graph, principal, target, action) == Err(BrokenGraph)
  {
    assert Walk(graph.directories, target, true, k + 1) == None;
    forall n: nat | n >= k
      ensures var d := Walk(graph.directories, target, true, n); d.Some? ==> d.value !in graph.directories
    {
      if n > k { WalkEnds(graph.directories, target, true, k + 1, n); }
    }
    NothingBeyond(graph, principal, target, action, k);
    assert Dangling(graph.directories, target);
  }

  lemma EndFindsNothing(graph: Graph, principal: Id, target: Id, action: Action, k: nat)
    requires Walk(graph.directories, target, true, k) == None && Searched(graph, principal, target, action, k)
    ensures AclAnswer(graph, principal, target, action) == Ok(false)
  {
    forall n: nat | n >= k ensures Walk(graph.directories, target, true, n) == None {
      WalkEnds(graph.directories, target, true, k, n);
    }
    NothingBeyond(graph, principal, target, action, k);
    forall i: nat, j: nat | i < j && Walk(graph.directories, target, true, i).Some?
      ensures Walk(graph.directories, target, true, i) != Walk(graph.directories, target, true, j)
    {
      if Walk(graph.directories, target, true, i) == Walk(graph.directories, target, true, j) {
        WalkRepeats(graph.directories, target, true, i, j, k);
      }
    }
  }
}
