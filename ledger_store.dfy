/** The database the handlers write to: the workspace, party and transaction collections, and the
    handlers that change them (workspace create, party create, and the transaction create, update and
    delete), each guarded as its route is. The class invariant is what those handlers keep. */
module LedgerStore {
  import opened Wrappers
  import opened Models
  import opened WorkspaceGate
  import opened WorkspaceRoutes
  import opened PartyRoutes
  import opened TransactionRoutes

  class Ledger {
    var workspaces: seq<Workspace>
    var parties: seq<Party>
    var transactions: seq<Transaction>

    /** Unique ids in every collection, member emails stored lower-case, every party in an existing
        workspace, and every transaction positive and attached to a party of its own workspace. */
    predicate Valid()
      reads this
    {
      && UniqueWorkspaceIds(workspaces)
      && (forall w, m | w in workspaces && m in w.members :: IsLower(m.userEmail))
      && UniquePartyIds(parties)
      && (forall p | p in parties :: exists w | w in workspaces :: w.id == p.workspaceId)
      && TxsWellFormed(parties, transactions)
    }

    constructor()
      ensures Valid()
      ensures workspaces == [] && parties == [] && transactions == []
    {
      workspaces, parties, transactions := [], [], [];
    }

    /** `POST /api/workspaces`. */
    method CreateWorkspace(actor: Actor, newId: Id, name: Option<string>, members: Option<seq<string>>, now: int)
      returns (r: Result<Id, Error>)
      requires Valid()
      modifies this
      ensures Valid()
      ensures var outcome := CreateWorkspaceOutcome(old(workspaces), actor, newId, name, members, now);
        && (r.Success? <==> outcome.Success?)
        && (r.Success? ==> r.value == newId && workspaces == old(workspaces) + [outcome.value])
        && (r.Failure? ==> r.error == outcome.error && workspaces == old(workspaces))
      ensures parties == old(parties) && transactions == old(transactions)
    {
      var outcome := CreateWorkspaceOutcome(workspaces, actor, newId, name, members, now);
      if outcome.Failure? {
        return Failure(outcome.error);
      }
      var w := outcome.value;
      assert forall m | m in w.members :: IsLower(m.userEmail);
      assert UniqueWorkspaceIds(workspaces + [w]) by {
        var s := workspaces + [w];
        forall i, j | 0 <= i < j < |s| ensures s[i].id != s[j].id {
          if j == |workspaces| { assert s[i] in workspaces; } else { assert s[i] == workspaces[i] && s[j] == workspaces[j]; }
        }
      }
      workspaces := workspaces + [w];
      r := Success(newId);
    }

    /** `POST /api/workspaces/:workspaceId/parties`. */
    method CreateParty(actor: Actor, ws: Id, newId: Id, name: Option<string>, phone: Option<string>,
                       ptype: Option<string>, now: int) returns (r: Result<Id, Error>)
      requires Valid()
      modifies this
      ensures Valid()
      ensures var outcome := CreatePartyOutcome(old(workspaces), old(parties), actor, ws, newId, name, phone, ptype, now);
        && (r.Success? <==> outcome.Success?)
        && (r.Success? ==> r.value == newId && parties == old(parties) + [outcome.value])
        && (r.Failure? ==> r.error == outcome.error && parties == old(parties))
      ensures workspaces == old(workspaces) && transactions == old(transactions)
    {
      var outcome := CreatePartyOutcome(workspaces, parties, actor, ws, newId, name, phone, ptype, now);
      if outcome.Failure? {
        return Failure(outcome.error);
      }
      var p := outcome.value;
      assert UniquePartyIds(parties + [p]) by {
        var s := parties + [p];
        forall i, j | 0 <= i < j < |s| ensures s[i].id != s[j].id {
          if j == |parties| { assert s[i] in parties; } else { assert s[i] == parties[i] && s[j] == parties[j]; }
        }
      }
      MorePartiesKeepWellFormed(parties, transactions, p);
      parties := parties + [p];
      r := Success(newId);
    }

    /** `POST /api/workspaces/:workspaceId/parties/:partyId/transactions`. */
    method CreateTransaction(actor: Actor, ws: Id, partyId: Id, newId: Id, input: TxInput) returns (r: Result<Id, Error>)
      requires Valid()
      modifies this
      ensures Valid()
      ensures var outcome := CreateTxOutcome(old(workspaces), old(parties), old(transactions), actor, ws, partyId, newId, input);
        && (r.Success? <==> outcome.Success?)
        && (r.Success? ==> r.value == newId && transactions == old(transactions) + [outcome.value])
        && (r.Failure? ==> r.error == outcome.error && transactions == old(transactions))
      ensures workspaces == old(workspaces) && parties == old(parties)
    {
      var outcome := CreateTxOutcome(workspaces, parties, transactions, actor, ws, partyId, newId, input);
      if outcome.Failure? {
        return Failure(outcome.error);
      }
      CreateKeepsWellFormed(parties, transactions, newId, ws, partyId, actor, input);
      transactions := transactions + [outcome.value];
      r := Success(newId);
    }

    /** `GET /api/workspaces/:workspaceId/home`, behind the membership gate (see `HomeRouteAsWritten` for
        the route as mounted). */
    method Home(actor: Actor, ws: Id) returns (r: Result<Summary, Error>)
      ensures r == HomeRoute(workspaces, actor, parties, transactions, ws)
    {
      var gate := PathGate(workspaces, actor, ws);
      if gate.Failure? {
        return Failure(gate.error);
      }
      var s := HomeSummary(parties, transactions, ws);
      r := Success(s);
    }

    /** `GET /api/workspaces/:workspaceId/parties`: the gate, then the list handler. */
    method ListParties(actor: Actor, ws: Id, typeFilter: Option<string>) returns (r: Result<seq<PartyRow>, Error>)
      ensures PathGate(workspaces, actor, ws).Failure? ==> r == Failure(PathGate(workspaces, actor, ws).error)
      ensures PathGate(workspaces, actor, ws).Success? ==>
        && r.Success? && |r.value| == |ListedParties(parties, ws, typeFilter)|
        && forall i :: 0 <= i < |r.value| ==> r.value[i].id == ListedParties(parties, ws, typeFilter)[i].id
    {
      var gate := PathGate(workspaces, actor, ws);
      if gate.Failure? {
        return Failure(gate.error);
      }
      var rows := ListPartiesWithTotals(parties, transactions, ws, typeFilter);
      r := Success(rows);
    }

    /** `GET /api/workspaces/:workspaceId/parties/:partyId`: the gate, then the detail handler. */
    method PartyDetailRoute(actor: Actor, ws: Id, partyId: Id) returns (r: Result<PartyDetail, Error>)
      ensures PathGate(workspaces, actor, ws).Failure? ==> r == Failure(PathGate(workspaces, actor, ws).error)
      ensures PathGate(workspaces, actor, ws).Success? ==> r == GetPartyDetail(parties, transactions, ws, partyId)
    {
      var gate := PathGate(workspaces, actor, ws);
      if gate.Failure? {
        return Failure(gate.error);
      }
      r := GetPartyDetail(parties, transactions, ws, partyId);
    }

    /** `GET /api/workspaces/:workspaceId/transactions/:transactionId`. */
    method GetTransaction(actor: Actor, ws: Id, id: Id) returns (r: Result<Transaction, Error>)
      ensures r == GetTxOutcome(workspaces, transactions, actor, ws, id)
    {
      var gate := PathGate(workspaces, actor, ws);
      if gate.Failure? {
        return Failure(gate.error);
      }
      var k := LocateScoped(transactions, ws, id);
      if k.None? {
        return Failure(NotFound);
      }
      r := Success(transactions[k.value]);
    }

    /** `PUT /api/workspaces/:workspaceId/transactions/:transactionId`: the matched record is overwritten
        in place, every other record is kept. */
    method UpdateTransaction(actor: Actor, ws: Id, id: Id, raw: TxPatch) returns (r: Result<Transaction, Error>)
      requires Valid()
      modifies this
      ensures Valid()
      ensures r == UpdateTxOutcome(old(workspaces), old(transactions), actor, ws, id, raw)
      ensures r.Success? ==> transactions == old(transactions)[FindScoped(old(transactions), ws, id).value := r.value]
      ensures r.Failure? ==> transactions == old(transactions)
      ensures workspaces == old(workspaces) && parties == old(parties)
    {
      var gate := PathGate(workspaces, actor, ws);
      if gate.Failure? {
        return Failure(gate.error);
      }
      var patch := ValidatePatch(raw);
      if patch.Failure? {
        return Failure(BadRequest);
      }
      var k := LocateScoped(transactions, ws, id);
      if k.None? {
        return Failure(NotFound);
      }
      var updated := ApplyPatch(transactions[k.value], patch.value);
      UpdateKeepsWellFormed(parties, transactions, k.value, raw);
      transactions := transactions[k.value := updated];
      r := Success(updated);
    }

    /** `DELETE /api/workspaces/:workspaceId/transactions/:transactionId`: exactly the matched record is
        removed. */
    method DeleteTransaction(actor: Actor, ws: Id, id: Id) returns (r: Result<Transaction, Error>)
      requires Valid()
      modifies this
      ensures Valid()
      ensures r == DeleteTxOutcome(old(workspaces), old(transactions), actor, ws, id)
      ensures r.Success? ==> transactions == RemoveAt(old(transactions), FindScoped(old(transactions), ws, id).value)
      ensures r.Failure? ==> transactions == old(transactions)
      ensures workspaces == old(workspaces) && parties == old(parties)
    {
      var gate := PathGate(workspaces, actor, ws);
      if gate.Failure? {
        return Failure(gate.error);
      }
      var k := LocateScoped(transactions, ws, id);
      if k.None? {
        return Failure(NotFound);
      }
      r := Success(transactions[k.value]);
      DeleteKeepsWellFormed(parties, transactions, k.value);
      transactions := RemoveAt(transactions, k.value);
    }
  }
}
