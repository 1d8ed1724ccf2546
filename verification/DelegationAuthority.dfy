/**
 The ceiling a delegation contract puts on its child: a child's tools, scopes and
 budget never exceed its parent's, along chains of any depth.
 */
module DelegationAuthority {
  import opened Wrappers
  import opened PathNames

  type DelegationId = string

  datatype Authority = Authority(
    paths: seq<string>, effects: set<string>, network: set<string>, remote: set<string>, secrets: set<string>)

  datatype Budget = Budget(seconds: real, iterations: int, tokens: int)

  datatype Workspace = Workspace(mode: string, access: string, root: string, exclusive: bool)

  datatype Scope = Scope(
    parent: Option<DelegationId>, tools: set<string>, authority: Authority, budget: Budget, workspace: Workspace)

  predicate PathSubset(child: seq<string>, parent: seq<string>) {
    forall i | 0 <= i < |child| :: Inside(child[i], parent)
  }

  predicate Inside(path: string, roots: seq<string>) {
    exists j | 0 <= j < |roots| :: Under(path, roots[j])
  }

  predicate Narrower(child: Authority, parent: Authority, childTools: set<string>, parentTools: set<string>) {
    && childTools <= parentTools
    && PathSubset(child.paths, parent.paths)
    && child.effects <= parent.effects && child.network <= parent.network
    && child.remote <= parent.remote && child.secrets <= parent.secrets
  }

  predicate Within(child: Budget, parent: Budget) {
    child.seconds <= parent.seconds && child.iterations <= parent.iterations && child.tokens <= parent.tokens
  }

  predicate Below(child: Scope, parent: Scope) {
    Narrower(child.authority, parent.authority, child.tools, parent.tools) && Within(child.budget, parent.budget)
  }

  /** An action as a child asks for it; `path` is the canonical form of `target`. */
  datatype Action = Action(tool: string, effect: string, target: string, path: string)

  /** The immutable ceiling, checked before the ordinary tool policy. */
  predicate Permits(s: Scope, a: Action) {
    && a.tool in s.tools
    && a.effect in s.authority.effects
    && (a.effect in {"read", "write", "execute", "destructive"} && a.target != "" ==>
          PathSubset([a.path], s.authority.paths))
    && (a.effect == "network" ==> a.target in s.authority.network)
    && (a.effect == "remote" ==> a.target in s.authority.remote)
  }

  /** What each kind of effect needs beside the tool and the effect itself: a path under a
      granted one for the file effects, a listed target for the network and remotes. */
  lemma PermitsByEffect(s: Scope, a: Action)
    requires a.tool in s.tools && a.effect in s.authority.effects
    ensures a.effect == "network" ==> (Permits(s, a) <==> a.target in s.authority.network)
    ensures a.effect == "remote" ==> (Permits(s, a) <==> a.target in s.authority.remote)
    ensures a.effect in {"read", "write", "execute", "destructive"} ==>
      (Permits(s, a) <==> a.target == "" || exists j | 0 <= j < |s.authority.paths| :: Under(a.path, s.authority.paths[j]))
    ensures a.effect !in {"network", "remote", "read", "write", "execute", "destructive"} ==> Permits(s, a)
  {
    assert PathSubset([a.path], s.authority.paths) <==> Inside([a.path][0], s.authority.paths);
  }

  lemma PermitsListed(s: Scope, a: Action)
    requires a.tool !in s.tools || a.effect !in s.authority.effects
    ensures !Permits(s, a)
  {
  }

  /** A scope is as narrow as another exactly if each of its six parts is. */
  lemma NarrowerByParts(child: Authority, parent: Authority, childTools: set<string>, parentTools: set<string>)
    ensures Narrower(child, parent, childTools, parentTools) <==>
      && (forall t | t in childTools :: t in parentTools)
      && (forall p | p in child.paths :: exists j | 0 <= j < |parent.paths| :: Under(p, parent.paths[j]))
      && (forall e | e in child.effects :: e in parent.effects)
      && (forall n | n in child.network :: n in parent.network)
      && (forall r | r in child.remote :: r in parent.remote)
      && (forall x | x in child.secrets :: x in parent.secrets)
  {
    if PathSubset(child.paths, parent.paths) {
      forall p | p in child.paths ensures Inside(p, parent.paths) {
        var i :| 0 <= i < |child.paths| && child.paths[i] == p;
      }
    } else {
      var i :| 0 <= i < |child.paths| && !Inside(child.paths[i], parent.paths);
      assert child.paths[i] in child.paths;
    }
  }

  /** A budget is exceeded by exceeding any one of its parts, and by nothing else. */
  lemma ExceedsByParts(child: Budget, parent: Budget)
    ensures !Within(child, parent) <==>
      child.seconds > parent.seconds || child.iterations > parent.iterations || child.tokens > parent.tokens
  {
  }

  lemma PathSubsetTransitive(a: seq<string>, b: seq<string>, c: seq<string>)
    requires PathSubset(a, b) && PathSubset(b, c)
    ensures PathSubset(a, c)
  {
    forall i | 0 <= i < |a| ensures Inside(a[i], c) {
      assert Inside(a[i], b);
      var j :| 0 <= j < |b| && Under(a[i], b[j]);
      assert Inside(b[j], c);
      var k :| 0 <= k < |c| && Under(b[j], c[k]);
      UnderTransitive(a[i], b[j], c[k]);
    }
  }

  lemma BelowTransitive(a: Scope, b: Scope, c: Scope)
    requires Below(a, b) && Below(b, c)
    ensures Below(a, c)
  {
    PathSubsetTransitive(a.authority.paths, b.authority.paths, c.authority.paths);
  }

  lemma BelowPermits(child: Scope, parent: Scope, a: Action)
    requires Below(child, parent) && Permits(child, a)
    ensures Permits(parent, a)
  {
    if a.effect in {"read", "write", "execute", "destructive"} && a.target != "" {
      PathSubsetTransitive([a.path], child.authority.paths, parent.authority.paths);
    }
  }

  /** A permitted file action stays inside a granted directory, component by component. */
  lemma PermittedPathIsInside(s: Scope, a: Action, path: seq<string>, roots: seq<seq<string>>)
    requires Permits(s, a) && a.effect in {"read", "write", "execute", "destructive"} && a.target != ""
    requires Resolved(path) && a.path == Render(path)
    requires |roots| == |s.authority.paths|
    requires forall j | 0 <= j < |roots| :: Resolved(roots[j]) && s.authority.paths[j] == Render(roots[j])
    ensures exists j | 0 <= j < |roots| :: roots[j] <= path
  {
    assert Inside([a.path][0], s.authority.paths);
    var j :| 0 <= j < |s.authority.paths| && Under(a.path, s.authority.paths[j]);
    UnderIsAncestry(path, roots[j]);
  }

  // ---------------------------------------------------------------- chains

  ghost predicate Narrowing(scopes: map<DelegationId, Scope>) {
    forall d | d in scopes && scopes[d].parent.Some? ::
      scopes[d].parent.value in scopes && Below(scopes[d], scopes[scopes[d].parent.value])
  }

  /** A chain of contracts, each the child of the next. */
  ghost predicate Chain(scopes: map<DelegationId, Scope>, chain: seq<DelegationId>) {
    && (forall i | 0 <= i < |chain| :: chain[i] in scopes)
    && (forall i | 0 <= i < |chain| - 1 :: scopes[chain[i]].parent == Some(chain[i + 1]))
  }

  /** Whatever a descendant may do, and spend, every ancestor may too. */
  lemma {:induction false} AncestorsPermit(scopes: map<DelegationId, Scope>, chain: seq<DelegationId>, k: nat)
    requires Narrowing(scopes) && Chain(scopes, chain) && 0 < k < |chain|
    ensures Below(scopes[chain[0]], scopes[chain[k]])
    ensures forall a | Permits(scopes[chain[0]], a) :: Permits(scopes[chain[k]], a)
  {
    assert Below(scopes[chain[k - 1]], scopes[chain[k]]);
    if k > 1 {
      AncestorsPermit(scopes, chain, k - 1);
      BelowTransitive(scopes[chain[0]], scopes[chain[k - 1]], scopes[chain[k]]);
    }
    forall a | Permits(scopes[chain[0]], a) ensures Permits(scopes[chain[k]], a) {
      BelowPermits(scopes[chain[0]], scopes[chain[k]], a);
    }
  }

  // ---------------------------------------------------------------- granting

  /** What a caller asks for; absent fields take the defaults. */
  datatype Request = Request(
    tools: set<string>, authority: Authority,
    seconds: Option<real>, iterations: Option<int>, tokens: Option<int>,
    mode: Option<string>, access: Option<string>, root: string, exclusive: Option<bool>)

  function NormalBudget(r: Request): (b: Budget)
    ensures b.seconds >= 1.0 && b.iterations >= 1 && b.tokens >= 1
    ensures r.seconds.Some? && r.seconds.value >= 1.0 ==> b.seconds == r.seconds.value
    ensures r.iterations.Some? && r.iterations.value >= 1 ==> b.iterations == r.iterations.value
    ensures r.tokens.Some? && r.tokens.value >= 1 ==> b.tokens == r.tokens.value
    ensures r.seconds.Some? && r.seconds.value < 1.0 ==> b.seconds == 1.0
    ensures r.iterations.Some? && r.iterations.value < 1 ==> b.iterations == 1
    ensures r.tokens.Some? && r.tokens.value < 1 ==> b.tokens == 1
    ensures (r.seconds.None? ==> b.seconds == 3600.0) && (r.iterations.None? ==> b.iterations == 50)
    ensures r.tokens.None? ==> b.tokens == 32768
  {
    var seconds := r.seconds.GetOr(3600.0);
    var iterations := r.iterations.GetOr(50);
    var tokens := r.tokens.GetOr(32768);
    Budget(if seconds > 1.0 then seconds else 1.0,
           if iterations > 1 then iterations else 1,
           if tokens > 1 then tokens else 1)
  }

  function NormalWorkspace(r: Request): (w: Workspace)
    ensures w.root == r.root
    ensures w.mode == match r.mode case None => "isolated" case Some(mode) => mode
    ensures w.access == match r.access case None => "read-only" case Some(access) => access
    ensures r.exclusive.Some? ==> w.exclusive == r.exclusive.value
    ensures r.exclusive.None? ==> (w.exclusive <==> r.access == Some("read-write"))
  {
    var access := r.access.GetOr("read-only");
    Workspace(r.mode.GetOr("isolated"), access, r.root, r.exclusive.GetOr(access == "read-write"))
  }

  /** What the child may be given: the parent contract's scope, or the explicit one of a root. */
  datatype Ceiling = Ceiling(tools: set<string>, authority: Authority, budget: Option<Budget>)

  datatype Grant = Granted(scope: Scope) | ExceedsAuthority | ExceedsBudget | BadWorkspace

  /** The workspace policy is a known one, and its root lies in the child's own paths. */
  predicate UsableWorkspace(r: Request) {
    && NormalWorkspace(r).mode in {"isolated", "shared"} && NormalWorkspace(r).access in {"read-only", "read-write"}
    && (r.root != "" ==> r.root in r.authority.paths || PathSubset([r.root], r.authority.paths))
  }

  /** A root that is listed lies under itself, so one test decides. */
  lemma RootUnderPaths(r: Request)
    ensures UsableWorkspace(r) <==>
      && r.mode in {None, Some("isolated"), Some("shared")} && r.access in {None, Some("read-only"), Some("read-write")}
      && (r.root == "" || exists j | 0 <= j < |r.authority.paths| :: Under(r.root, r.authority.paths[j]))
  {
    assert PathSubset([r.root], r.authority.paths) <==> Inside([r.root][0], r.authority.paths);
    if r.root in r.authority.paths {
      RootInside(r.root, r.authority.paths);
    }
  }

  /** Grants a request exactly if it fits under the ceiling and its workspace can be used.
      The result is what was asked for and never wider. */
  function Granting(parent: Option<DelegationId>, ceiling: Ceiling, r: Request): (g: Grant)
    ensures g.ExceedsAuthority? <==> !Narrower(r.authority, ceiling.authority, r.tools, ceiling.tools)
    ensures g.ExceedsBudget? <==>
      && Narrower(r.authority, ceiling.authority, r.tools, ceiling.tools)
      && ceiling.budget.Some? && !Within(NormalBudget(r), ceiling.budget.value)
    ensures g.BadWorkspace? <==>
      && Narrower(r.authority, ceiling.authority, r.tools, ceiling.tools)
      && (ceiling.budget.Some? ==> Within(NormalBudget(r), ceiling.budget.value)) && !UsableWorkspace(r)
    ensures g.Granted? ==>
      && g.scope == Scope(parent, r.tools, r.authority, NormalBudget(r), NormalWorkspace(r))
      && (g.scope.workspace.root != "" ==> PathSubset([g.scope.workspace.root], ceiling.authority.paths))
  {
    var budget, workspace := NormalBudget(r), NormalWorkspace(r);
    if !Narrower(r.authority, ceiling.authority, r.tools, ceiling.tools) then ExceedsAuthority
    else if ceiling.budget.Some? && !Within(budget, ceiling.budget.value) then ExceedsBudget
    else if workspace.mode !in {"isolated", "shared"} || workspace.access !in {"read-only", "read-write"} then BadWorkspace
    else if r.root != "" && r.root !in r.authority.paths && !PathSubset([r.root], r.authority.paths) then BadWorkspace
    else
      assert r.root != "" ==> PathSubset([r.root], ceiling.authority.paths) by {
        if r.root != "" {
          RootInside(r.root, r.authority.paths);
          PathSubsetTransitive([r.root], r.authority.paths, ceiling.authority.paths);
        }
      }
      Granted(Scope(parent, r.tools, r.authority, budget, workspace))
  }

  lemma RootInside(root: string, paths: seq<string>)
    requires root in paths || PathSubset([root], paths)
    ensures PathSubset([root], paths)
  {
    if root in paths {
      var j :| 0 <= j < |paths| && paths[j] == root;
      assert Under([root][0], paths[j]);
    }
  }
}
