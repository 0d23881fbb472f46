/** The decision over one request, and what narrowing a token or widening an ACL may do to it. */
module TokenAttenuation {
  import opened Options
  import opened Authorization

  predicate DriverScopeAllows(token: TokenScope, request: AccessRequest) {
    if request.action.DriverUse? && request.driver.None? then false
    else token.drivers.Some? && request.driver.Some? ==> request.driver.value in token.drivers.value
  }

  /** The checks in order, with the closures in place of the two loops. */
  ghost function Decide(graph: Graph, principal: Id, token: TokenScope, request: AccessRequest): Decision {
    if principal !in graph.activePrincipals then Denied(PrincipalInactive)
    else if token.principal != principal || token.revoked || token.expiresAt <= request.now then Denied(TokenInactive)
    else if request.action !in token.actions then Denied(TokenAction)
    else if !Meets(graph.directories, token.root, request.target) then Denied(TokenDirectory)
    else if !DriverScopeAllows(token, request) then Denied(TokenDriver)
    else if token.snapshot.Some? && token.snapshot != request.snapshot then Denied(TokenSnapshot)
    else
      match AclAnswer(graph, principal, request.target, request.action)
      case Ok(allowed) => if allowed then Allowed else Denied(Acl)
      case Err(_) => Denied(DirectoryGraph)
  }

  method Authorize(graph: Graph, principal: Id, token: TokenScope, request: AccessRequest) returns (decision: Decision)
    ensures decision == Decide(graph, principal, token, request)
    ensures decision == Allowed <==> forall d :: Passes(graph, principal, token, request, d)
  {
    DecidesByFirstReason(graph, principal, token, request, Acl);
    hide Passes, Meets, AclAnswer;
    if principal !in graph.activePrincipals { return Denied(PrincipalInactive); }
    if token.principal != principal || token.revoked || token.expiresAt <= request.now { return Denied(TokenInactive); }
    if request.action !in token.actions { return Denied(TokenAction); }
    var inside := InSubtree(graph.directories, token.root, request.target);
    if !inside { return Denied(TokenDirectory); }
    if !DriverScopeAllows(token, request) { return Denied(TokenDriver); }
    if token.snapshot.Some? && token.snapshot != request.snapshot { return Denied(TokenSnapshot); }
    var answer := AclAllows(graph, principal, request.target, request.action);
    match answer
    case Ok(allowed) => return if allowed then Allowed else Denied(Acl);
    case Err(_) => return Denied(DirectoryGraph);
  }

  /** Allowed is the conjunction of what the token may do and what the ACL grants now. */
  lemma AllowedExactly(graph: Graph, principal: Id, token: TokenScope, request: AccessRequest)
    ensures Decide(graph, principal, token, request) == Allowed <==>
              && principal in graph.activePrincipals && token.principal == principal
              && !token.revoked && request.now < token.expiresAt && request.action in token.actions
              && Meets(graph.directories, token.root, request.target) && DriverScopeAllows(token, request)
              && (token.snapshot.Some? ==> token.snapshot == request.snapshot)
              && GrantInClosure(graph, principal, request.target, request.action)
  {
  }

  // ---------------------------------------------------------------- the decision in terms of paths and grants

  /** A path of parents leads from the target to the root, which need not be listed. */
  ghost predicate IsBelow(directories: map<Id, Directory>, root: Id, target: Id) {
    exists path :: GoesUp(directories, path, false) && path[0] == target && path[|path| - 1] == root
  }

  lemma MeetsByPath(directories: map<Id, Directory>, root: Id, target: Id)
    ensures Meets(directories, root, target) <==> IsBelow(directories, root, target)
  {
    if Meets(directories, root, target) {
      var n: nat :| Walk(directories, target, false, n) == Some(root);
      var path := WalkHasPath(directories, target, false, n);
    }
    if path :| GoesUp(directories, path, false) && path[0] == target && path[|path| - 1] == root {
      PathIsWalked(directories, path, false, |path| - 1);
    }
  }

  /** What a request must satisfy not to be denied for this reason. */
  ghost predicate Passes(graph: Graph, principal: Id, token: TokenScope, request: AccessRequest, denial: Denial) {
    match denial
    case PrincipalInactive => principal in graph.activePrincipals
    case TokenInactive => token.principal == principal && !token.revoked && request.now < token.expiresAt
    case TokenAction => request.action in token.actions
    case TokenDirectory => IsBelow(graph.directories, token.root, request.target)
    case TokenDriver =>
      && (request.action == DriverUse ==> request.driver.Some?)
      && (token.drivers.Some? && request.driver.Some? ==> request.driver.value in token.drivers.value)
    case TokenSnapshot => token.snapshot.Some? ==> request.snapshot == token.snapshot
    case DirectoryGraph =>
      IsGranted(graph, principal, request.target, request.action) || !IsBroken(graph.directories, request.target)
    case Acl => IsGranted(graph, principal, request.target, request.action)
  }

  /** The order in which the reasons are looked at. */
  function Rank(denial: Denial): nat {
    match denial
    case PrincipalInactive => 0
    case TokenInactive => 1
    case TokenAction => 2
    case TokenDirectory => 3
    case TokenDriver => 4
    case TokenSnapshot => 5
    case DirectoryGraph => 6
    case Acl => 7
  }

  /** A request is allowed if it gives no reason to deny it, and else denied for the first reason that it gives. */
  lemma DecidesByFirstReason(graph: Graph, principal: Id, token: TokenScope, request: AccessRequest, denial: Denial)
    ensures Decide(graph, principal, token, request) == Allowed <==>
              forall d :: Passes(graph, principal, token, request, d)
    ensures Decide(graph, principal, token, request) == Denied(denial) <==>
              !Passes(graph, principal, token, request, denial)
              && forall d :: Rank(d) < Rank(denial) ==> Passes(graph, principal, token, request, d)
  {
    hide AclAnswer, IsGranted, IsBroken, IsBelow, Meets;
    MeetsByPath(graph.directories, token.root, request.target);
    AnswerByGrants(graph, principal, request.target, request.action);
    var graphOk, aclOk := Passes(graph, principal, token, request, DirectoryGraph), Passes(graph, principal, token, request, Acl);
    assert Decide(graph, principal, token, request) == Allowed <==>
             && Passes(graph, principal, token, request, PrincipalInactive)
             && Passes(graph, principal, token, request, TokenInactive)
             && Passes(graph, principal, token, request, TokenAction)
             && Passes(graph, principal, token, request, TokenDirectory)
             && Passes(graph, principal, token, request, TokenDriver)
             && Passes(graph, principal, token, request, TokenSnapshot) && graphOk && aclOk;
  }

  /** `narrow` was issued from `wide`: fewer actions, a root below, fewer drivers, at most its snapshot, an earlier end. */
  ghost predicate Attenuates(graph: Graph, narrow: TokenScope, wide: TokenScope) {
    && narrow.principal == wide.principal && narrow.actions <= wide.actions
    && Meets(graph.directories, wide.root, narrow.root)
    && (wide.drivers.Some? ==> narrow.drivers.Some? && narrow.drivers.value <= wide.drivers.value)
    && (wide.snapshot.Some? ==> narrow.snapshot == wide.snapshot)
    && narrow.expiresAt <= wide.expiresAt && (wide.revoked ==> narrow.revoked)
  }

  /** Subtrees nest: the cycle guard of the loop does not spoil transitivity. */
  lemma MeetsIsTransitive(directories: map<Id, Directory>, high: Id, middle: Id, low: Id)
    requires Meets(directories, high, middle) && Meets(directories, middle, low)
    ensures Meets(directories, high, low)
  {
    var n: nat :| Walk(directories, low, false, n) == Some(middle);
    var m: nat :| Walk(directories, middle, false, m) == Some(high);
    WalkJoins(directories, low, false, n, m);
  }

  /** Whatever a narrowed token is allowed, the token it came from is allowed. */
  lemma AttenuationIsMonotone(graph: Graph, principal: Id, narrow: TokenScope, wide: TokenScope, request: AccessRequest)
    requires Attenuates(graph, narrow, wide) && Decide(graph, principal, narrow, request) == Allowed
    ensures Decide(graph, principal, wide, request) == Allowed
  {
    MeetsIsTransitive(graph.directories, wide.root, narrow.root, request.target);
  }

  /** So attenuation composes along a whole chain of tokens. */
  lemma {:induction false} ChainIsMonotone(graph: Graph, principal: Id, tokens: seq<TokenScope>, request: AccessRequest)
    requires tokens != [] && forall i :: 0 <= i < |tokens| - 1 ==> Attenuates(graph, tokens[i + 1], tokens[i])
    requires Decide(graph, principal, tokens[|tokens| - 1], request) == Allowed
    ensures forall i :: 0 <= i < |tokens| ==> Decide(graph, principal, tokens[i], request) == Allowed
    decreases |tokens|
  {
    if |tokens| > 1 {
      var n := |tokens| - 1;
      AttenuationIsMonotone(graph, principal, tokens[n], tokens[n - 1], request);
      ChainIsMonotone(graph, principal, tokens[..n], request);
      forall i | 0 <= i < |tokens| ensures Decide(graph, principal, tokens[i], request) == Allowed {
        if i < n { assert tokens[i] == tokens[..n][i]; }
      }
    }
  }

  /** The same directories with more grants. */
  predicate MoreGrants(fewer: Graph, more: Graph) {
    && more == fewer.(grants := more.grants)
    && forall g | g in fewer.grants :: g in more.grants
  }

  /** Adding grants never takes an allowed request back. */
  lemma GrantsOnlyAllow(fewer: Graph, more: Graph, principal: Id, token: TokenScope, request: AccessRequest)
    requires MoreGrants(fewer, more) && Decide(fewer, principal, token, request) == Allowed
    ensures Decide(more, principal, token, request) == Allowed
  {
    var d :| InClosure(fewer.directories, request.target, true, d) && Granted(fewer, principal, d, request.action);
    var i :| 0 <= i < |fewer.grants| && fewer.grants[i].directory == d && fewer.grants[i].action == request.action
      && SubjectMatches(fewer.grants[i].subject, principal, GroupsFor(fewer, principal));
    assert fewer.grants[i] in more.grants;
    var j :| 0 <= j < |more.grants| && more.grants[j] == fewer.grants[i];
    assert GroupsFor(more, principal) == GroupsFor(fewer, principal);
    assert Granted(more, principal, d, request.action);
  }
}
