/** The workspace router (src/routes/workspace.routes.js): creating a workspace, listing the caller's
    workspaces, and the home summary with its workspace-wide totals and recent-activity window. */
module WorkspaceRoutes {
  import opened Wrappers
  import opened Models
  import opened Ordering
  import opened Balances
  import opened WorkspaceGate

  // ---------------------------------------------------------------- create

  /** `members.map((email) => ({ userEmail: email, role: 'member' }))`, stored through the schema's lower-casing. */
  function NewMembers(emails: seq<string>): (ms: seq<Membership>)
    ensures |ms| == |emails|
    ensures forall i :: 0 <= i < |ms| ==> ms[i].role == Member && ms[i].userEmail == Lower(emails[i])
    ensures forall m | m in ms :: IsLower(m.userEmail)
  {
    if emails == [] then [] else [Membership(Lower(emails[0]), Member)] + NewMembers(emails[1..])
  }

  /** The body schema: `name` is a required string at least two UTF-16 code units long; `members`
      defaults to []. */
  function ValidateWorkspace(name: Option<string>, members: Option<seq<string>>): (r: Result<(string, seq<string>), Error>)
    ensures r.Success? <==> name.Some? && Utf16Length(name.value) >= 2
    ensures r.Failure? ==> r.error == BadRequest
    ensures r.Success? ==> r.value.0 == name.value && r.value.1 == (if members.Some? then members.value else [])
  {
    if name.None? || Utf16Length(name.value) < 2 then Failure(BadRequest)
    else Success((name.value, if members.Some? then members.value else []))
  }

  /** The length rule counts code units: a name made of one character beyond U+FFFF is long enough,
      one made of a single character below it is not. */
  lemma SurrogatePairNameAccepted(c: char, d: char)
    requires c as int > 0xFFFF && d as int <= 0xFFFF
    ensures ValidateWorkspace(Some([c]), None).Success?
    ensures ValidateWorkspace(Some([d]), None) == Failure(BadRequest)
  {
    assert Utf16Length([c]) == 2 by { assert [c][1..] == []; }
    assert Utf16Length([d]) == 1 by { assert [d][1..] == []; }
  }

  /** The document `Workspace.create` stores: the caller becomes the owner, every listed email a member. */
  function NewWorkspace(id: Id, name: string, ownerId: Id, emails: seq<string>, createdAt: int): (w: Workspace)
    ensures w.id == id && w.ownerId == ownerId && w.name == name && w.createdAt == createdAt
    ensures |w.members| == |emails|
    ensures forall i :: 0 <= i < |emails| ==> w.members[i] == Membership(Lower(emails[i]), Member)
  {
    Workspace(id, name, ownerId, NewMembers(emails), createdAt)
  }

  /** Who may enter a freshly created workspace: the creator, and every caller whose (stored, lower-case)
      email equals the lower-cased form of one of the invited addresses; nobody else. */
  lemma {:induction false} CreatedWorkspaceAccess(id: Id, name: string, creator: Id, emails: seq<string>, createdAt: int, actor: Actor)
    requires id != "" && Truthy(actor.email)
    ensures PathGate([NewWorkspace(id, name, creator, emails, createdAt)], actor, id).Success?
        <==> actor.userId == creator || exists i :: 0 <= i < |emails| && Lower(emails[i]) == actor.email.value
  {
    var w := NewWorkspace(id, name, creator, emails, createdAt);
    if exists i :: 0 <= i < |emails| && Lower(emails[i]) == actor.email.value {
      var i :| 0 <= i < |emails| && Lower(emails[i]) == actor.email.value;
      assert w.members[i] in w.members;
    }
    if ListedMember(actor, w) {
      var m :| m in w.members && m.userEmail == actor.email.value;
      var i :| 0 <= i < |w.members| && w.members[i] == m;
      assert Lower(emails[i]) == actor.email.value;
    }
  }

  /** Emails are compared exactly, yet membership is case-insensitive in effect: the schemas lower-case
      both the registered email and every invited address, so a registered user other than the creator
      is admitted to a freshly created workspace exactly when some invited address agrees with the one
      they registered up to ASCII case. */
  lemma CaseInsensitiveMembership(uid: Id, registered: string, userName: string,
                                  id: Id, name: string, creator: Id, emails: seq<string>, createdAt: int)
    requires id != "" && registered != "" && uid != creator
    ensures PathGate([NewWorkspace(id, name, creator, emails, createdAt)], ActorOf(StoredUser(uid, registered, userName)), id).Success?
        <==> exists i :: 0 <= i < |emails| && Lower(emails[i]) == Lower(registered)
  {
    CreatedWorkspaceAccess(id, name, creator, emails, createdAt, ActorOf(StoredUser(uid, registered, userName)));
  }

  /** The create handler: the body schema, then the insert, which a taken id refuses; the caller owns the
      stored workspace. */
  function CreateWorkspaceOutcome(workspaces: seq<Workspace>, actor: Actor, newId: Id, name: Option<string>,
                                  members: Option<seq<string>>, now: int): (r: Result<Workspace, Error>)
    ensures r == Failure(BadRequest) <==> ValidateWorkspace(name, members).Failure?
    ensures r == Failure(Conflict) <==> ValidateWorkspace(name, members).Success? && exists w | w in workspaces :: w.id == newId
    ensures ValidateWorkspace(name, members).Success? && (forall w | w in workspaces :: w.id != newId) ==> r.Success?
    ensures r.Success? ==>
      && (forall w | w in workspaces :: w.id != newId)
      && r.value.id == newId && r.value.ownerId == actor.userId && r.value.name == name.value && r.value.createdAt == now
      && r.value == NewWorkspace(newId, name.value, actor.userId, ValidateWorkspace(name, members).value.1, now)
  {
    var (nm, emails) :- ValidateWorkspace(name, members);
    if exists w | w in workspaces :: w.id == newId then Failure(Conflict)
    else Success(NewWorkspace(newId, nm, actor.userId, emails, now))
  }

  /** Once stored under a fresh id, a workspace admits through the gate exactly whom it admits on its own
      (so `CreatedWorkspaceAccess` describes the live store). */
  lemma GateAfterCreate(workspaces: seq<Workspace>, w: Workspace, actor: Actor)
    requires forall v | v in workspaces :: v.id != w.id
    ensures PathGate(workspaces + [w], actor, w.id) == PathGate([w], actor, w.id)
  {
    if w.id != "" {
      var f := FindWorkspace(workspaces + [w], w.id);
      assert w in workspaces + [w];
      assert f.value == w;
    }
  }

  // ---------------------------------------------------------------- mine

  datatype WorkspaceRef = WorkspaceRef(id: Id, name: string)

  /** The `$or` of the query: the caller owns the workspace or some member has exactly the caller's email. */
  predicate MineMatch(actor: Actor, w: Workspace)
    ensures actor.email.None? ==> (MineMatch(actor, w) <==> w.ownerId == actor.userId)
    ensures w.ownerId == actor.userId ==> MineMatch(actor, w)
  {
    w.ownerId == actor.userId || ListedMember(actor, w)
  }

  /** The workspaces the query matches, in collection order. */
  function MineFilter(workspaces: seq<Workspace>, actor: Actor): (r: seq<Workspace>)
    ensures forall w :: multiset(r)[w] == if MineMatch(actor, w) then multiset(workspaces)[w] else 0
    ensures forall w :: w in r <==> w in workspaces && MineMatch(actor, w)
  {
    if workspaces == [] then []
    else
      assert workspaces == [workspaces[0]] + workspaces[1..];
      (if MineMatch(actor, workspaces[0]) then [workspaces[0]] else []) + MineFilter(workspaces[1..], actor)
  }

  /** "My workspaces": exactly the matching workspaces, newest first. */
  function MyWorkspaces(workspaces: seq<Workspace>, actor: Actor): (r: seq<Workspace>)
    ensures SortedDesc(r, WorkspaceCreatedAt)
    ensures forall w :: multiset(r)[w] == if MineMatch(actor, w) then multiset(workspaces)[w] else 0
    ensures forall w :: w in r <==> w in workspaces && MineMatch(actor, w)
  {
    SortDesc(MineFilter(workspaces, actor), WorkspaceCreatedAt)
  }

  /** The response of `GET /mine`: `{ id, name }` of each workspace of `MyWorkspaces`, in that order. */
  function Mine(workspaces: seq<Workspace>, actor: Actor): (r: seq<WorkspaceRef>)
    ensures |r| == |MyWorkspaces(workspaces, actor)|
    ensures forall i :: 0 <= i < |r| ==>
      r[i] == WorkspaceRef(MyWorkspaces(workspaces, actor)[i].id, MyWorkspaces(workspaces, actor)[i].name)
  {
    var ws := MyWorkspaces(workspaces, actor);
    seq(|ws|, i requires 0 <= i < |ws| => WorkspaceRef(ws[i].id, ws[i].name))
  }

  /** For a caller whose token carries an email, a workspace is listed exactly when the gate admits them to it. */
  lemma MineAgreesWithGate(workspaces: seq<Workspace>, actor: Actor, w: Workspace)
    requires UniqueWorkspaceIds(workspaces) && w in workspaces && w.id != ""
    requires Truthy(actor.email)
    ensures w in MyWorkspaces(workspaces, actor) <==> PathGate(workspaces, actor, w.id).Success?
  {
    FoundIsUnique(workspaces, w);
  }

  /** The listing has no email guard: an owner whose token lacks an email sees the workspace listed,
      but the gate refuses them. */
  lemma MineListsOwnerTheGateRefuses(workspaces: seq<Workspace>, actor: Actor, w: Workspace)
    requires w in workspaces && w.id != "" && w.ownerId == actor.userId && actor.email.None?
    ensures w in MyWorkspaces(workspaces, actor)
    ensures PathGate(workspaces, actor, w.id) == Failure(Forbidden)
  {
  }

  // ---------------------------------------------------------------- home summary

  /** The window size of `.limit(20)`. */
  const RecentLimit: nat := 20

  datatype Summary = Summary(totals: Totals, recent: seq<Transaction>)

  /** `Party.find({ workspaceId })`. */
  function WorkspaceParties(store: seq<Party>, ws: Id): (r: seq<Party>)
    ensures forall p :: multiset(r)[p] == if p.workspaceId == ws then multiset(store)[p] else 0
    ensures forall p :: p in r <==> p in store && p.workspaceId == ws
  {
    if store == [] then []
    else
      assert store == [store[0]] + store[1..];
      (if store[0].workspaceId == ws then [store[0]] else []) + WorkspaceParties(store[1..], ws)
  }

  /** `Transaction.find({ workspaceId })`, before sorting. */
  function WorkspaceTxs(store: seq<Transaction>, ws: Id): (r: seq<Transaction>)
    ensures forall t :: multiset(r)[t] == if t.workspaceId == ws then multiset(store)[t] else 0
    ensures forall t :: t in r <==> t in store && t.workspaceId == ws
  {
    if store == [] then []
    else
      assert store == [store[0]] + store[1..];
      (if store[0].workspaceId == ws then [store[0]] else []) + WorkspaceTxs(store[1..], ws)
  }

  /** `new Map(parties.map((p) => [id, type]))`: later entries overwrite earlier ones. */
  function TypeById(parties: seq<Party>): (r: map<Id, PartyType>)
    ensures forall id :: id in r <==> exists p | p in parties :: p.id == id
    ensures UniquePartyIds(parties) ==> forall p | p in parties :: p.id in r && r[p.id] == p.ptype
  {
    if parties == [] then map[]
    else
      var init := parties[..|parties| - 1];
      var last := parties[|parties| - 1];
      assert parties == init + [last];
      UniqueFront(parties);
      TypeById(init)[last.id := last.ptype]
  }

  /** With unique ids, dropping the last party keeps ids unique, and no other party shares the last one's id. */
  lemma UniqueFront(parties: seq<Party>)
    requires parties != []
    ensures UniquePartyIds(parties) ==> UniquePartyIds(parties[..|parties| - 1])
    ensures UniquePartyIds(parties) ==> forall p | p in parties[..|parties| - 1] :: p.id != parties[|parties| - 1].id
  {
    var init := parties[..|parties| - 1];
    if UniquePartyIds(parties) {
      forall p | p in init ensures p.id != parties[|parties| - 1].id {
        var j :| 0 <= j < |init| && init[j] == p;
        assert parties[j] == p;
      }
    }
  }

  /** `Transaction.find({ workspaceId }).sort({ date: -1 }).limit(20)`. */
  function RecentWindow(store: seq<Transaction>, ws: Id): (r: seq<Transaction>)
    ensures |r| <= RecentLimit && SortedDesc(r, DateOf)
  {
    Take(SortDesc(WorkspaceTxs(store, ws), DateOf), RecentLimit)
  }

  /** The window holds exactly the newest transactions of the workspace: at most twenty of them, newest
      first, all of this workspace, and none left out is newer than one kept. */
  lemma RecentWindowIsNewest(store: seq<Transaction>, ws: Id)
    ensures var all, w := WorkspaceTxs(store, ws), RecentWindow(store, ws);
      && |w| == (if |all| < RecentLimit then |all| else RecentLimit)
      && SortedDesc(w, DateOf)
      && multiset(w) <= multiset(all)
      && (forall t | t in w :: t in store && t.workspaceId == ws)
      && (forall x, y | x in w && y in multiset(all) - multiset(w) :: y.date <= x.date)
  {
    var sorted := SortDesc(WorkspaceTxs(store, ws), DateOf);
    NewestWindow(sorted, DateOf, RecentLimit);
    forall t | t in RecentWindow(store, ws) ensures t in store && t.workspaceId == ws {
      assert t in multiset(sorted);
    }
  }

  /** Every transaction's party resolves in the map. */
  predicate AllResolved(types: map<Id, PartyType>, txs: seq<Transaction>) {
    forall i :: 0 <= i < |txs| ==> txs[i].partyId in types
  }

  /** The workspace-wide totals over `txs`: each transaction whose party type resolves is credited to the
      bucket the sign table picks for that type; one whose party does not resolve is skipped. */
  function WorkspaceTotals(types: map<Id, PartyType>, txs: seq<Transaction>): (r: Totals)
    ensures AllResolved(types, txs) ==> r.willGive + r.willGet == AmountSum(txs)
  {
    if txs == [] then Zero
    else
      assert AllResolved(types, txs) ==> AllResolved(types, txs[1..]) && txs[0].partyId in types;
      var rest := WorkspaceTotals(types, txs[1..]);
      if txs[0].partyId in types then Credit(rest, BucketFor(types[txs[0].partyId], txs[0].direction), txs[0].amount)
      else rest
  }

  /** One more transaction in the window: a customer's `gave` adds to willGet and its `got` to willGive,
      a supplier's the other way round, and one whose party does not resolve changes nothing. */
  lemma {:induction false} WorkspaceTotalsAppend(types: map<Id, PartyType>, txs: seq<Transaction>, t: Transaction)
    ensures var before, after := WorkspaceTotals(types, txs), WorkspaceTotals(types, txs + [t]);
      && (t.partyId !in types ==> after == before)
      && (t.partyId in types && types[t.partyId] == Customer ==>
            after == if t.direction == Gave then before.(willGet := before.willGet + t.amount)
                     else before.(willGive := before.willGive + t.amount))
      && (t.partyId in types && types[t.partyId] == Supplier ==>
            after == if t.direction == Gave then before.(willGive := before.willGive + t.amount)
                     else before.(willGet := before.willGet + t.amount))
  {
    if txs != [] {
      assert (txs + [t])[1..] == txs[1..] + [t];
      WorkspaceTotalsAppend(types, txs[1..], t);
    }
  }

  /** The transactions whose party resolves, in the map, to type `ty`. */
  function OfType(types: map<Id, PartyType>, txs: seq<Transaction>, ty: PartyType): seq<Transaction> {
    if txs == [] then []
    else (if txs[0].partyId in types && types[txs[0].partyId] == ty then [txs[0]] else []) + OfType(types, txs[1..], ty)
  }

  /** The per-party rule over the transactions of one type, after one more transaction at the front:
      credited by it when it is of that type, unchanged otherwise. */
  lemma OfTypeHead(types: map<Id, PartyType>, txs: seq<Transaction>, ty: PartyType)
    requires txs != []
    ensures var t := txs[0];
      PartyBalance(ty, OfType(types, txs, ty))
      == if t.partyId in types && types[t.partyId] == ty
         then Credit(PartyBalance(ty, OfType(types, txs[1..], ty)), BucketFor(ty, t.direction), t.amount)
         else PartyBalance(ty, OfType(types, txs[1..], ty))
  {
    var t, rest := txs[0], OfType(types, txs[1..], ty);
    if t.partyId in types && types[t.partyId] == ty {
      assert OfType(types, txs, ty) == [t] + rest;
      assert ([t] + rest)[1..] == rest;
    } else {
      assert OfType(types, txs, ty) == rest;
    }
  }

  /** Reference definition: the workspace totals are the per-party rule's totals over the customer
      transactions plus those over the supplier transactions; unresolved transactions are in neither. */
  lemma {:induction false} WorkspaceTotalsByType(types: map<Id, PartyType>, txs: seq<Transaction>)
    ensures WorkspaceTotals(types, txs)
         == Add(PartyBalance(Customer, OfType(types, txs, Customer)), PartyBalance(Supplier, OfType(types, txs, Supplier)))
  {
    if txs != [] {
      var t, rest := txs[0], txs[1..];
      WorkspaceTotalsByType(types, rest);
      var pc, ps := PartyBalance(Customer, OfType(types, rest, Customer)), PartyBalance(Supplier, OfType(types, rest, Supplier));
      OfTypeHead(types, txs, Customer);
      OfTypeHead(types, txs, Supplier);
      if t.partyId in types && types[t.partyId] == Customer {
        var b := BucketFor(Customer, t.direction);
        assert WorkspaceTotals(types, txs) == Credit(Add(pc, ps), b, t.amount);
        AddCredit(pc, ps, b, t.amount);
      } else if t.partyId in types {
        var b := BucketFor(Supplier, t.direction);
        assert WorkspaceTotals(types, txs) == Credit(Add(pc, ps), b, t.amount);
        AddCredit(ps, pc, b, t.amount);
      } else {
        assert WorkspaceTotals(types, txs) == Add(pc, ps);
      }
    }
  }

  /** The totals never exceed the window's amount sum, and (amounts being positive) they reach it
      exactly when every transaction's party resolves. */
  lemma {:induction false} WorkspaceTotalsBound(types: map<Id, PartyType>, txs: seq<Transaction>)
    requires PositiveAmounts(txs)
    ensures WorkspaceTotals(types, txs).willGive + WorkspaceTotals(types, txs).willGet <= AmountSum(txs)
    ensures WorkspaceTotals(types, txs).willGive + WorkspaceTotals(types, txs).willGet == AmountSum(txs)
        <==> AllResolved(types, txs)
  {
    if txs != [] {
      var t, rest := txs[0], txs[1..];
      WorkspaceTotalsBound(types, rest);
      assert t.amount > 0.0;
      assert AllResolved(types, txs) <==> t.partyId in types && AllResolved(types, rest);
    }
  }

  /** The handler's `txs.forEach` loop: `totalGive` and `totalGet` accumulated over the window. */
  method AccumulateTotals(partyTypeById: map<Id, PartyType>, txs: seq<Transaction>) returns (totals: Totals)
    ensures totals == WorkspaceTotals(partyTypeById, txs)
  {
    var totalGive, totalGet := 0.0, 0.0;
    var i := 0;
    while i < |txs|
      invariant 0 <= i <= |txs|
      invariant Totals(totalGive, totalGet) == WorkspaceTotals(partyTypeById, txs[..i])
    {
      var t := txs[i];
      WorkspaceTotalsAppend(partyTypeById, txs[..i], t);
      assert txs[..i + 1] == txs[..i] + [t];
      var partyType := if t.partyId in partyTypeById then Some(partyTypeById[t.partyId]) else None;
      if partyType == Some(Customer) {
        if t.direction == Gave { totalGet := totalGet + t.amount; } else { totalGive := totalGive + t.amount; }
      } else if partyType == Some(Supplier) {
        if t.direction == Gave { totalGive := totalGive + t.amount; } else { totalGet := totalGet + t.amount; }
      }
      i := i + 1;
    }
    assert txs[..|txs|] == txs;
    totals := Totals(totalGive, totalGet);
  }

  /** The home handler: the window of the twenty newest transactions, returned unchanged, and the totals
      accumulated over that window only. */
  method HomeSummary(partyStore: seq<Party>, txStore: seq<Transaction>, ws: Id) returns (s: Summary)
    ensures s.recent == RecentWindow(txStore, ws)
    ensures s.totals == WorkspaceTotals(TypeById(WorkspaceParties(partyStore, ws)), s.recent)
    ensures s == HomeView(partyStore, txStore, ws)
  {
    var partyTypeById := TypeById(WorkspaceParties(partyStore, ws));
    var txs := RecentWindow(txStore, ws);
    var totals := AccumulateTotals(partyTypeById, txs);
    s := Summary(totals, txs);
  }

  // ---------------------------------------------------------------- who may read the home summary

  /** The summary the home handler computes, as a value: the window of at most twenty transactions,
      newest first, and totals that (amounts being positive) never exceed the window's amount sum. */
  function HomeView(partyStore: seq<Party>, txStore: seq<Transaction>, ws: Id): (r: Summary)
    ensures r.recent == RecentWindow(txStore, ws) && |r.recent| <= RecentLimit && SortedDesc(r.recent, DateOf)
    ensures PositiveAmounts(r.recent) ==> r.totals.willGive + r.totals.willGet <= AmountSum(r.recent)
  {
    var recent := RecentWindow(txStore, ws);
    var types := TypeById(WorkspaceParties(partyStore, ws));
    assert PositiveAmounts(recent) ==> WorkspaceTotals(types, recent).willGive + WorkspaceTotals(types, recent).willGet <= AmountSum(recent) by {
      if PositiveAmounts(recent) { WorkspaceTotalsBound(types, recent); }
    }
    Summary(WorkspaceTotals(types, recent), recent)
  }

  /** The home route as mounted: the workspace router installs only the authentication check, never the
      membership gate, so any signed-in caller gets the summary of any workspace id. */
  function HomeRouteAsWritten(workspaces: seq<Workspace>, actor: Actor, partyStore: seq<Party>, txStore: seq<Transaction>, ws: Id)
    : (r: Result<Summary, Error>)
    ensures r.Success? && r.value.recent == RecentWindow(txStore, ws)
  {
    Success(HomeView(partyStore, txStore, ws))
  }

  /** A caller the gate forbids still reads the workspace's totals and its recent transactions. */
  lemma OutsiderReadsHomeAsWritten(t: Transaction)
    requires t.workspaceId == "w1"
    ensures var w := Workspace("w1", "Shop", "u1", [], 0);
      var outsider := Actor("u2", Some("eve@example.com"));
      && PathGate([w], outsider, "w1") == Failure(Forbidden)
      && HomeRouteAsWritten([w], outsider, [], [t], "w1").Success?
      && HomeRouteAsWritten([w], outsider, [], [t], "w1").value.recent == [t]
  {
    var w := Workspace("w1", "Shop", "u1", [], 0);
    assert FindWorkspace([w], "w1") == Some(w);
    assert WorkspaceTxs([t], "w1") == [t];
    assert SortDesc([t], DateOf) == [t];
  }

  /** The home route as the other workspace routes are guarded: the membership gate first, then the
      summary. */
  function HomeRoute(workspaces: seq<Workspace>, actor: Actor, partyStore: seq<Party>, txStore: seq<Transaction>, ws: Id)
    : (r: Result<Summary, Error>)
    ensures r.Failure? <==> PathGate(workspaces, actor, ws).Failure?
    ensures r.Failure? ==> r.error == PathGate(workspaces, actor, ws).error
    ensures r.Success? ==>
      && (exists w | w in workspaces :: w.id == ws && (w.ownerId == actor.userId || ListedMember(actor, w)))
      && r.value == HomeView(partyStore, txStore, ws)
  {
    var w :- PathGate(workspaces, actor, ws);
    assert w in workspaces && w.id == ws;
    Success(HomeView(partyStore, txStore, ws))
  }

  /** With the gate, only the owner or a listed member reads the summary: the outsider above is refused. */
  lemma OutsiderRefusedHome(workspaces: seq<Workspace>, actor: Actor, partyStore: seq<Party>, txStore: seq<Transaction>, w: Workspace)
    requires w in workspaces && UniqueWorkspaceIds(workspaces)
    requires w.ownerId != actor.userId && !ListedMember(actor, w)
    ensures HomeRoute(workspaces, actor, partyStore, txStore, w.id).Failure?
  {
  }
}
