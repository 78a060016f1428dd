/** The `requireWorkspaceMember` middleware (src/middleware/workspace.js): an ordered chain of
    early returns that answers 400, then 404, then 403, or admits the caller and attaches the workspace. */
module WorkspaceGate {
  import opened Wrappers
  import opened Models

  /** `req.params.workspaceId || req.body.workspaceId || req.query.workspaceId`: the first truthy source wins. */
  function ResolveWorkspaceId(params: Option<string>, body: Option<string>, query: Option<string>): (r: Option<Id>)
    ensures r.None? <==> !Truthy(params) && !Truthy(body) && !Truthy(query)
    ensures r.Some? ==> r.value != ""
    ensures Truthy(params) ==> r == params
    ensures !Truthy(params) && Truthy(body) ==> r == body
    ensures !Truthy(params) && !Truthy(body) ==> r == (if Truthy(query) then query else None)
  {
    if Truthy(params) then params
    else if Truthy(body) then body
    else if Truthy(query) then query
    else None
  }

  /** `Workspace.findById`: the workspace with that id, if the collection has one. */
  function FindWorkspace(workspaces: seq<Workspace>, id: Id): (r: Option<Workspace>)
    ensures r.Some? ==> r.value in workspaces && r.value.id == id
    ensures r.None? <==> forall w | w in workspaces :: w.id != id
  {
    if workspaces == [] then None
    else if workspaces[0].id == id then Some(workspaces[0])
    else FindWorkspace(workspaces[1..], id)
  }

  /** Some stored membership carries exactly the caller's email (no case folding at compare time). */
  predicate ListedMember(actor: Actor, w: Workspace)
    ensures ListedMember(actor, w) ==>
      actor.email.Some? && ((forall m | m in w.members :: IsLower(m.userEmail)) ==> IsLower(actor.email.value))
  {
    actor.email.Some? && exists m | m in w.members :: m.userEmail == actor.email.value
  }

  /** The gate: BadRequest without an id, NotFound without a workspace, Forbidden unless the caller has
      an email and is the owner or a listed member; otherwise the workspace is attached to the request. */
  function RequireWorkspaceMember(workspaces: seq<Workspace>, actor: Actor,
                                  params: Option<string>, body: Option<string>, query: Option<string>)
    : (r: Result<Workspace, Error>)
    ensures r == Failure(BadRequest) <==> ResolveWorkspaceId(params, body, query).None?
    ensures r == Failure(NotFound) <==>
      ResolveWorkspaceId(params, body, query).Some? &&
      forall w | w in workspaces :: w.id != ResolveWorkspaceId(params, body, query).value
    ensures r.Success? <==>
      && ResolveWorkspaceId(params, body, query).Some?
      && FindWorkspace(workspaces, ResolveWorkspaceId(params, body, query).value).Some?
      && Truthy(actor.email)
      && (FindWorkspace(workspaces, ResolveWorkspaceId(params, body, query).value).value.ownerId == actor.userId
          || ListedMember(actor, FindWorkspace(workspaces, ResolveWorkspaceId(params, body, query).value).value))
    ensures r.Success? ==>
      r.value in workspaces && Some(r.value.id) == ResolveWorkspaceId(params, body, query) &&
      Truthy(actor.email) && (r.value.ownerId == actor.userId || ListedMember(actor, r.value))
    ensures r.Failure? ==> r.error == BadRequest || r.error == NotFound || r.error == Forbidden
  {
    var id :- ResolveWorkspaceId(params, body, query).ToResult(BadRequest);
    var ws :- FindWorkspace(workspaces, id).ToResult(NotFound);
    var isMember := Truthy(actor.email) && (ws.ownerId == actor.userId || ListedMember(actor, ws));
    if !isMember then Failure(Forbidden) else Success(ws)
  }

  /** The gate as every workspace-scoped route runs it: the id comes from the path. */
  function PathGate(workspaces: seq<Workspace>, actor: Actor, workspaceId: Id): (r: Result<Workspace, Error>)
    ensures r == Failure(BadRequest) <==> workspaceId == ""
    ensures r == Failure(NotFound) <==> workspaceId != "" && forall w | w in workspaces :: w.id != workspaceId
    ensures r.Success? <==>
      && workspaceId != "" && FindWorkspace(workspaces, workspaceId).Some? && Truthy(actor.email)
      && (FindWorkspace(workspaces, workspaceId).value.ownerId == actor.userId
          || ListedMember(actor, FindWorkspace(workspaces, workspaceId).value))
    ensures r.Success? ==> r == FindWorkspace(workspaces, workspaceId).ToResult(NotFound) && r.value.id == workspaceId
  {
    RequireWorkspaceMember(workspaces, actor, Some(workspaceId), None, None)
  }

  // ---------------------------------------------------------------- the decision, case by case

  /** NotFound does not depend on who asks: existence is decided before membership. */
  lemma NotFoundBeforeMembership(workspaces: seq<Workspace>, a1: Actor, a2: Actor, id: Id)
    requires id != "" && FindWorkspace(workspaces, id).None?
    ensures PathGate(workspaces, a1, id) == PathGate(workspaces, a2, id) == Failure(NotFound)
  {
  }

  /** The owner is admitted, provided the token carries an email. */
  lemma OwnerAllowed(workspaces: seq<Workspace>, actor: Actor, w: Workspace)
    requires UniqueWorkspaceIds(workspaces) && w in workspaces && w.id != ""
    requires Truthy(actor.email) && w.ownerId == actor.userId
    ensures PathGate(workspaces, actor, w.id) == Success(w)
  {
    FoundIsUnique(workspaces, w);
  }

  /** A member whose stored email equals the caller's email is admitted. */
  lemma MemberAllowed(workspaces: seq<Workspace>, actor: Actor, w: Workspace, m: Membership)
    requires UniqueWorkspaceIds(workspaces) && w in workspaces && w.id != ""
    requires Truthy(actor.email) && m in w.members && m.userEmail == actor.email.value
    ensures PathGate(workspaces, actor, w.id) == Success(w)
  {
    FoundIsUnique(workspaces, w);
  }

  /** No email, no access: even the owner is refused when the token has no (or an empty) email. */
  lemma NoEmailNoAccess(workspaces: seq<Workspace>, actor: Actor, w: Workspace)
    requires w in workspaces && w.id != "" && !Truthy(actor.email)
    ensures PathGate(workspaces, actor, w.id) == Failure(Forbidden)
  {
  }

  /** Anyone else is refused with Forbidden, never with NotFound. */
  lemma OutsiderForbidden(workspaces: seq<Workspace>, actor: Actor, w: Workspace)
    requires UniqueWorkspaceIds(workspaces) && w in workspaces && w.id != ""
    requires w.ownerId != actor.userId
    requires forall m | m in w.members :: Some(m.userEmail) != actor.email
    ensures PathGate(workspaces, actor, w.id) == Failure(Forbidden)
  {
    FoundIsUnique(workspaces, w);
  }

  /** With unique ids, `findById` returns the one workspace that has the id. */
  lemma {:induction false} FoundIsUnique(workspaces: seq<Workspace>, w: Workspace)
    requires UniqueWorkspaceIds(workspaces) && w in workspaces
    ensures FindWorkspace(workspaces, w.id) == Some(w)
  {
    if workspaces[0] != w {
      assert workspaces[0].id != w.id by {
        var j :| 0 <= j < |workspaces| && workspaces[j] == w;
      }
      FoundIsUnique(workspaces[1..], w);
    }
  }
}
