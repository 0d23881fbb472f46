/**
 Bulk delivery of a whole catalog: `eligible_checkpoint` proves authority over an entire subtree with
 one query about its root, and `authorized` is the evaluator for one directory that it must agree with.
 */
module CatalogDelivery {
  import opened Options
  import opened Authorization

  datatype DirectoryRow = DirectoryRow(filesystem: Id, parent: Option<Id>, aclInherits: bool, active: bool, dataRoot: nat)

  datatype TokenRow = TokenRow(
    parent: Option<Id>, principal: Id, root: Id, actions: set<Action>,
    isSealed: bool, revoked: bool, expiresAt: nat, snapshot: Option<Id>)

  /** A published head as its joins see it: revision and artifact published and agreeing. */
  datatype PublishedHead = PublishedHead(rootDataRoot: nat, artifactAgrees: bool)

  datatype Database = Database(
    directories: map<Id, DirectoryRow>,
    tokens: map<Id, TokenRow>,
    activePrincipals: set<Id>,
    groupMembers: map<Id, set<Id>>,
    grants: seq<Grant>,
    heads: map<Id, PublishedHead>,
    now: nat)

  /** The foreign key `(parent_id, filesystem_id)`: a parent exists, in the same filesystem. */
  predicate ForeignKeys(db: Database) {
    forall d | d in db.directories && db.directories[d].parent.Some? ::
      var p := db.directories[d].parent.value;
      p in db.directories && db.directories[p].filesystem == db.directories[d].filesystem
  }

  /** The rows as the parent relation of the closures. */
  function Tree(db: Database): map<Id, Directory> {
    map d | d in db.directories :: Directory(db.directories[d].parent, db.directories[d].aclInherits)
  }

  /** `acl_directories` in the delivery query follows active rows only. */
  function ActiveTree(db: Database): map<Id, Directory> {
    map d | d in db.directories && db.directories[d].active ::
      Directory(db.directories[d].parent, db.directories[d].aclInherits)
  }

  function TokenTree(db: Database): map<Id, Directory> {
    map t | t in db.tokens :: Directory(db.tokens[t].parent, true)
  }

  ghost predicate TokenChainHolds(db: Database, token: Id)
    requires token in db.tokens
  {
    forall t | InClosure(TokenTree(db), token, false, t) ::
      var row := db.tokens[t];
      row.isSealed && !row.revoked && row.expiresAt > db.now && row.principal == db.tokens[token].principal
  }

  predicate Live(db: Database, row: TokenRow) {
    row.isSealed && !row.revoked && row.expiresAt > db.now && row.snapshot.None? && row.principal in db.activePrincipals
  }

  function Evaluator(db: Database): Graph {
    Graph(db.activePrincipals, Tree(db), db.groupMembers, db.grants)
  }

  ghost predicate GrantedThrough(db: Database, tree: map<Id, Directory>, principal: Id, d: Id, action: Action) {
    exists g :: InClosure(tree, d, true, g) && Granted(Evaluator(db), principal, g, action)
  }

  /** `authorized`: one directory, one action. */
  ghost predicate Authorized(db: Database, token: Id, d: Id, action: Action) {
    && token in db.tokens && Live(db, db.tokens[token]) && TokenChainHolds(db, token)
    && d in db.directories && db.directories[d].active
    && InClosure(Tree(db), d, false, db.tokens[token].root)
    && action in db.tokens[token].actions
    && GrantedThrough(db, Tree(db), db.tokens[token].principal, d, action)
  }

  /** Below the root through active children: what the delivered catalog contains. */
  ghost predicate ActivePath(db: Database, path: seq<Id>) {
    && |path| > 0 && path[|path| - 1] in db.directories && db.directories[path[|path| - 1]].active
    && forall i :: 0 <= i < |path| - 1 ==> StepsDown(db, path[i], path[i + 1])
  }

  predicate StepsDown(db: Database, child: Id, parent: Id) {
    child in db.directories && db.directories[child].active && db.directories[child].parent == Some(parent)
  }

  ghost predicate Delivered(db: Database, root: Id, d: Id) {
    exists path :: ActivePath(db, path) && path[0] == d && path[|path| - 1] == root
  }

  /** No directory of the subtree but its root stops inheriting. */
  ghost predicate NoBoundaryBelow(db: Database, root: Id) {
    forall b | b in db.directories && Delivered(db, root, b) && b != root :: db.directories[b].aclInherits
  }

  /** The shortcut for a filesystem root: no active directory of the filesystem stops inheriting. */
  predicate NoBoundaryAnywhere(db: Database, root: Id)
    requires root in db.directories
  {
    forall b | b in db.directories && db.directories[b].filesystem == db.directories[root].filesystem
               && b != root && db.directories[b].active ::
      db.directories[b].aclInherits
  }

  /** `eligible_checkpoint` returns a row. */
  ghost predicate Eligible(db: Database, token: Id) {
    && token in db.tokens && Live(db, db.tokens[token]) && TokenChainHolds(db, token)
    && var row := db.tokens[token];
       && row.root in db.directories && db.directories[row.root].active
       && PublishedFor(db, db.directories[row.root].filesystem)
       && DirectoryList in row.actions && ContentRead in row.actions
       && GrantedThrough(db, ActiveTree(db), row.principal, row.root, DirectoryList)
       && GrantedThrough(db, ActiveTree(db), row.principal, row.root, ContentRead)
       && (if db.directories[row.root].parent.None? then NoBoundaryAnywhere(db, row.root) else NoBoundaryBelow(db, row.root))
  }

  /** The filesystem root is active and its content is the one of the published head. */
  ghost predicate PublishedFor(db: Database, filesystem: Id) {
    filesystem in db.heads && db.heads[filesystem].artifactAgrees
    && exists r :: r in db.directories && db.directories[r].filesystem == filesystem && db.directories[r].parent.None?
         && db.directories[r].active && db.directories[r].dataRoot == db.heads[filesystem].rootDataRoot
  }

  // ---------------------------------------------------------------- paths are walks

  lemma {:induction false} PathIsWalk(db: Database, path: seq<Id>, i: nat)
    requires ActivePath(db, path) && i < |path|
    ensures Walk(Tree(db), path[0], false, i) == Some(path[i])
  {
    if i > 0 {
      PathIsWalk(db, path, i - 1);
      assert StepsDown(db, path[i - 1], path[i]);
    }
  }

  lemma {:induction false} PathIsInheritedWalk(db: Database, path: seq<Id>, i: nat)
    requires ActivePath(db, path) && i < |path|
    requires forall j :: 0 <= j < i ==> path[j] in db.directories && db.directories[path[j]].aclInherits
    ensures Walk(Tree(db), path[0], true, i) == Some(path[i])
  {
    if i > 0 {
      PathIsInheritedWalk(db, path, i - 1);
      assert StepsDown(db, path[i - 1], path[i]);
    }
  }

  lemma PathSuffix(db: Database, path: seq<Id>, i: nat)
    requires ActivePath(db, path) && i < |path|
    ensures Delivered(db, path[|path| - 1], path[i])
  {
    forall j | 0 <= j < |path[i..]| - 1 ensures StepsDown(db, path[i..][j], path[i..][j + 1]) {
      assert StepsDown(db, path[i + j], path[i + j + 1]);
    }
    assert ActivePath(db, path[i..]);
  }

  lemma {:induction false} PathStaysInFilesystem(db: Database, path: seq<Id>, i: nat)
    requires ForeignKeys(db) && ActivePath(db, path) && i < |path|
    ensures path[i] in db.directories && db.directories[path[i]].active
    ensures db.directories[path[i]].filesystem == db.directories[path[|path| - 1]].filesystem
    decreases |path| - i
  {
    if i < |path| - 1 {
      assert StepsDown(db, path[i], path[i + 1]);
      PathStaysInFilesystem(db, path, i + 1);
    }
  }

  /** A path may be taken without passing its own end in between. */
  lemma {:induction false} FirstArrival(db: Database, path: seq<Id>) returns (short: seq<Id>)
    requires ActivePath(db, path)
    ensures ActivePath(db, short) && short[0] == path[0] && short[|short| - 1] == path[|path| - 1]
    ensures forall i :: 0 <= i < |short| - 1 ==> short[i] != path[|path| - 1]
    decreases |path|
  {
    if i: nat :| i < |path| - 1 && path[i] == path[|path| - 1] {
      var cut := path[..i + 1];
      forall j | 0 <= j < |cut| - 1 ensures StepsDown(db, cut[j], cut[j + 1]) {
        assert StepsDown(db, path[j], path[j + 1]);
      }
      short := FirstArrival(db, cut);
    } else {
      short := path;
    }
  }

  // ---------------------------------------------------------------- the two evaluators agree

  /** Following only active rows finds no more than following all of them. */
  lemma {:induction false} ActiveWalkIsWalk(db: Database, from: Id, n: nat)
    requires Walk(ActiveTree(db), from, true, n).Some?
    ensures Walk(Tree(db), from, true, n) == Walk(ActiveTree(db), from, true, n)
  {
    if n > 0 { ActiveWalkIsWalk(db, from, n - 1); }
  }

  /** A grant that reaches the top of an inherited walk reaches its bottom. */
  lemma GrantComesDown(db: Database, d: Id, root: Id, n: nat, principal: Id, action: Action)
    requires Walk(Tree(db), d, true, n) == Some(root)
    requires GrantedThrough(db, ActiveTree(db), principal, root, action)
    ensures GrantedThrough(db, Tree(db), principal, d, action)
  {
    var g: Id :| InClosure(ActiveTree(db), root, true, g) && Granted(Evaluator(db), principal, g, action);
    var m: nat :| Walk(ActiveTree(db), root, true, m) == Some(g);
    ActiveWalkIsWalk(db, root, m);
    WalkJoins(Tree(db), d, true, n, m);
    assert InClosure(Tree(db), d, true, g);
  }

  /**
   When a whole catalog is delivered to a token, that token is authorized to list and read every
   directory in it, for a filesystem root and for a subtree alike.
   */
  lemma DeliveryIsAuthorized(db: Database, token: Id, d: Id)
    requires ForeignKeys(db) && Eligible(db, token) && Delivered(db, db.tokens[token].root, d)
    ensures Authorized(db, token, d, DirectoryList) && Authorized(db, token, d, ContentRead)
  {
    hide TokenChainHolds, PublishedFor;
    var root := db.tokens[token].root;
    var path :| ActivePath(db, path) && path[0] == d && path[|path| - 1] == root;
    var short := FirstArrival(db, path);
    var n := |short| - 1;
    forall j | 0 <= j < n ensures short[j] in db.directories && db.directories[short[j]].aclInherits {
      PathStaysInFilesystem(db, short, j);
      PathSuffix(db, short, j);
    }
    PathStaysInFilesystem(db, short, 0);
    PathIsWalk(db, short, n);
    PathIsInheritedWalk(db, short, n);
    assert InClosure(Tree(db), d, false, root);
    GrantComesDown(db, d, root, n, db.tokens[token].principal, DirectoryList);
    GrantComesDown(db, d, root, n, db.tokens[token].principal, ContentRead);
  }

  /** Why a boundary refuses delivery: what does not inherit is authorized by its own grants only. */
  lemma {:induction false} BoundaryNeedsItsOwnGrant(db: Database, token: Id, b: Id, action: Action)
    requires Authorized(db, token, b, action) && !db.directories[b].aclInherits
    ensures Granted(Evaluator(db), db.tokens[token].principal, b, action)
  {
    var g: Id :| InClosure(Tree(db), b, true, g) && Granted(Evaluator(db), db.tokens[token].principal, g, action);
    var n: nat :| Walk(Tree(db), b, true, n) == Some(g);
    if n > 0 {
      assert Walk(Tree(db), b, true, 1) == None;
      WalkEnds(Tree(db), b, true, 1, n);
    }
  }

  /** The in-memory evaluator and the query agree on one directory when the token root is listed. */
  lemma EvaluatorsAgree(db: Database, token: Id, d: Id, action: Action)
    requires token in db.tokens && Live(db, db.tokens[token]) && TokenChainHolds(db, token)
    requires d in db.directories && db.directories[d].active && db.tokens[token].root in db.directories
    requires action in db.tokens[token].actions
    ensures Authorized(db, token, d, action) <==>
              && Meets(Tree(db), db.tokens[token].root, d)
              && AclAnswer(Evaluator(db), db.tokens[token].principal, d, action) == Ok(true)
  {
    SubtreeIsClosureWhenListed(Tree(db), db.tokens[token].root, d);
  }

  // ---------------------------------------------------------------- the same in terms of rows and single grants

  /** `path` goes up from row to parent row, and where `inherited`, only from rows that inherit. */
  predicate RowsGoUp(db: Database, path: seq<Id>, inherited: bool) {
    && path != []
    && forall i :: 0 <= i < |path| - 1 ==>
         && path[i] in db.directories && db.directories[path[i]].parent == Some(path[i + 1])
         && (inherited ==> db.directories[path[i]].aclInherits)
  }

  predicate TokensGoUp(db: Database, path: seq<Id>) {
    && path != []
    && forall i :: 0 <= i < |path| - 1 ==> path[i] in db.tokens && db.tokens[path[i]].parent == Some(path[i + 1])
  }

  /** A token is in force: sealed, not revoked, not expired, and of this principal. */
  predicate InForce(db: Database, t: Id, principal: Id) {
    && t in db.tokens && db.tokens[t].isSealed && !db.tokens[t].revoked && db.tokens[t].expiresAt > db.now
    && db.tokens[t].principal == principal
  }

  /** The token and all it was issued from are in force, for an active principal and no snapshot. */
  ghost predicate TokenIsGood(db: Database, token: Id) {
    && token in db.tokens && db.tokens[token].snapshot.None? && db.tokens[token].principal in db.activePrincipals
    && forall path | TokensGoUp(db, path) && path[0] == token && path[|path| - 1] in db.tokens ::
         InForce(db, path[|path| - 1], db.tokens[token].principal)
  }

  /** A grant for the action names the principal, or a group that lists it. */
  predicate GrantNames(db: Database, grant: Grant, principal: Id, action: Action) {
    && grant in db.grants && grant.action == action
    && (grant.subject == Principal(principal)
        || exists g :: g in db.groupMembers && principal in db.groupMembers[g] && grant.subject == Group(g))
  }

  /** Such a grant lies on the row at the end of a path that inherits. */
  predicate GrantsRow(db: Database, path: seq<Id>, grant: Grant, principal: Id, d: Id, action: Action) {
    && RowsGoUp(db, path, true) && path[0] == d && path[|path| - 1] in db.directories
    && grant.directory == path[|path| - 1] && GrantNames(db, grant, principal, action)
  }

  ghost predicate RowIsGranted(db: Database, principal: Id, d: Id, action: Action) {
    exists path, grant :: GrantsRow(db, path, grant, principal, d, action)
  }

  ghost predicate RowIsBelow(db: Database, root: Id, d: Id) {
    root in db.directories && exists path :: RowsGoUp(db, path, false) && path[0] == d && path[|path| - 1] == root
  }

  lemma RowsAreTree(db: Database, path: seq<Id>, inherited: bool)
    ensures RowsGoUp(db, path, inherited) <==> GoesUp(Tree(db), path, inherited)
  {
  }

  lemma RowsByPath(db: Database, root: Id, d: Id)
    ensures InClosure(Tree(db), d, false, root) <==> RowIsBelow(db, root, d)
  {
    ClosureByPath(Tree(db), d, false, root);
    forall path ensures RowsGoUp(db, path, false) <==> GoesUp(Tree(db), path, false) { RowsAreTree(db, path, false); }
  }

  lemma TokensByPath(db: Database, token: Id)
    requires token in db.tokens && Live(db, db.tokens[token])
    ensures TokenChainHolds(db, token) <==> TokenIsGood(db, token)
  {
    forall path ensures TokensGoUp(db, path) <==> GoesUp(TokenTree(db), path, false) {}
    forall t ensures InClosure(TokenTree(db), token, false, t) <==>
                       t in db.tokens && exists path :: TokensGoUp(db, path) && path[0] == token && path[|path| - 1] == t
    {
      ClosureByPath(TokenTree(db), token, false, t);
    }
  }

  lemma GrantsRowByPath(db: Database, path: seq<Id>, grant: Grant, principal: Id, d: Id, action: Action)
    ensures GrantsRow(db, path, grant, principal, d, action) <==>
              GoesUp(Tree(db), path, true) && path[0] == d && GrantsAt(Evaluator(db), grant, principal, action, path)
  {
    RowsAreTree(db, path, true);
  }

  lemma GrantsByPath(db: Database, principal: Id, d: Id, action: Action)
    ensures GrantedThrough(db, Tree(db), principal, d, action) <==> RowIsGranted(db, principal, d, action)
  {
    GrantedByPath(Evaluator(db), principal, d, action);
    hide GrantsAt, GrantsRow;
    forall path, grant
      ensures GrantsRow(db, path, grant, principal, d, action) <==>
                GoesUp(Tree(db), path, true) && path[0] == d && GrantsAt(Evaluator(db), grant, principal, action, path)
    {
      GrantsRowByPath(db, path, grant, principal, d, action);
    }
  }

  /** `authorized`, said of rows and of single grants. */
  lemma AuthorizedByGrants(db: Database, token: Id, d: Id, action: Action)
    ensures Authorized(db, token, d, action) <==>
              && TokenIsGood(db, token) && action in db.tokens[token].actions
              && d in db.directories && db.directories[d].active && RowIsBelow(db, db.tokens[token].root, d)
              && RowIsGranted(db, db.tokens[token].principal, d, action)
  {
    hide GrantedThrough, RowIsGranted, RowIsBelow, TokenChainHolds;
    if token in db.tokens {
      if TokenIsGood(db, token) {
        assert TokensGoUp(db, [token]);
        assert [token][|[token]| - 1] == token;
        assert InForce(db, token, db.tokens[token].principal);
      }
      hide TokenIsGood;
      if Live(db, db.tokens[token]) { TokensByPath(db, token); }
      RowsByPath(db, db.tokens[token].root, d);
      GrantsByPath(db, db.tokens[token].principal, d, action);
    }
  }

  // ---------------------------------------------------------------- when a catalog is delivered

  /** The rows above an active row are active. */
  predicate ActiveAbove(db: Database) {
    forall d | d in db.directories && db.directories[d].active && db.directories[d].parent.Some? ::
      var p := db.directories[d].parent.value;
      p in db.directories && db.directories[p].active
  }

  lemma {:induction false} ActiveWalkIsWhole(db: Database, from: Id, n: nat)
    requires ActiveAbove(db) && from in db.directories && db.directories[from].active
    ensures Walk(ActiveTree(db), from, true, n) == Walk(Tree(db), from, true, n)
    ensures var d := Walk(Tree(db), from, true, n); d.Some? ==> d.value in db.directories && db.directories[d.value].active
  {
    if n > 0 { ActiveWalkIsWhole(db, from, n - 1); }
  }

  /** No active row below the root stops inheriting; for a filesystem's root none of the filesystem does. */
  ghost predicate NothingStopsInheriting(db: Database, root: Id)
    requires root in db.directories
  {
    forall b | b in db.directories && b != root && db.directories[b].active ::
      (if db.directories[root].parent.None? then db.directories[b].filesystem == db.directories[root].filesystem
       else Delivered(db, root, b))
      ==> db.directories[b].aclInherits
  }

  lemma GrantedAtRoot(db: Database, principal: Id, root: Id, action: Action)
    requires ActiveAbove(db) && root in db.directories && db.directories[root].active
    ensures GrantedThrough(db, ActiveTree(db), principal, root, action) <==> GrantedThrough(db, Tree(db), principal, root, action)
  {
    hide Granted;
    forall g: Id ensures InClosure(ActiveTree(db), root, true, g) <==> InClosure(Tree(db), root, true, g) {
      forall n: nat ensures Walk(ActiveTree(db), root, true, n) == Walk(Tree(db), root, true, n) { ActiveWalkIsWhole(db, root, n); }
      if n: nat :| Walk(Tree(db), root, true, n) == Some(g) { ActiveWalkIsWhole(db, root, n); }
    }
  }

  /** The one row without parent of a filesystem. */
  predicate IsFilesystemRoot(db: Database, r: Id, filesystem: Id) {
    r in db.directories && db.directories[r].filesystem == filesystem && db.directories[r].parent == None
  }

  /** The filesystem's head has an agreeing artifact and is the content of an active root. */
  ghost predicate HeadIsCurrent(db: Database, filesystem: Id) {
    filesystem in db.heads && db.heads[filesystem].artifactAgrees
    && exists r :: IsFilesystemRoot(db, r, filesystem) && db.directories[r].active
                   && db.directories[r].dataRoot == db.heads[filesystem].rootDataRoot
  }

  lemma PublishedIsCurrent(db: Database, filesystem: Id)
    ensures PublishedFor(db, filesystem) <==> HeadIsCurrent(db, filesystem)
  {
    if PublishedFor(db, filesystem) {
      var r :| r in db.directories && db.directories[r].filesystem == filesystem && db.directories[r].parent.None?
        && db.directories[r].active && db.directories[r].dataRoot == db.heads[filesystem].rootDataRoot;
      assert IsFilesystemRoot(db, r, filesystem);
    }
    if HeadIsCurrent(db, filesystem) {
      var r :| IsFilesystemRoot(db, r, filesystem) && db.directories[r].active
        && db.directories[r].dataRoot == db.heads[filesystem].rootDataRoot;
      assert db.directories[r].parent.None?;
    }
  }

  /** A catalog is delivered exactly when it is published and its token may list and read its root, and nothing stops inheriting. */
  lemma EligibleExactly(db: Database, token: Id)
    requires ActiveAbove(db) && token in db.tokens
    ensures Eligible(db, token) <==>
              && Authorized(db, token, db.tokens[token].root, DirectoryList)
              && Authorized(db, token, db.tokens[token].root, ContentRead)
              && HeadIsCurrent(db, db.directories[db.tokens[token].root].filesystem)
              && NothingStopsInheriting(db, db.tokens[token].root)
  {
    hide PublishedFor, HeadIsCurrent, TokenChainHolds, GrantedThrough, Live;
    var root := db.tokens[token].root;
    if root in db.directories { PublishedIsCurrent(db, db.directories[root].filesystem); }
    if root in db.directories && db.directories[root].active {
      assert Walk(Tree(db), root, false, 0) == Some(root);
      GrantedAtRoot(db, db.tokens[token].principal, root, DirectoryList);
      GrantedAtRoot(db, db.tokens[token].principal, root, ContentRead);
      BoundariesAreActive(db, root);
    }
  }

  lemma BoundariesAreActive(db: Database, root: Id)
    requires root in db.directories
    ensures (if db.directories[root].parent.None? then NoBoundaryAnywhere(db, root) else NoBoundaryBelow(db, root))
            <==> NothingStopsInheriting(db, root)
  {
    forall b | b in db.directories && Delivered(db, root, b) ensures db.directories[b].active {
      var path :| ActivePath(db, path) && path[0] == b && path[|path| - 1] == root;
      if |path| > 1 { assert StepsDown(db, path[0], path[1]); }
    }
  }
}
