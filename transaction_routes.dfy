/** The transaction router (src/routes/transaction.routes.js): the request checks, the record a create
    stores, the partial overwrite an update applies, the workspace-scoped lookup shared by get, update and
    delete, and the collection invariants these operations keep. The state-changing handlers themselves
    are methods of `LedgerStore.Ledger`. */
module TransactionRoutes {
  import opened Wrappers
  import opened Models
  import opened WorkspaceGate
  import opened PartyRoutes

  // ---------------------------------------------------------------- invariants

  /** The transaction refers to a party of its own workspace. */
  predicate PartyInWorkspace(parties: seq<Party>, t: Transaction) {
    exists p | p in parties :: p.id == t.partyId && p.workspaceId == t.workspaceId
  }

  /** What the transaction collection keeps: unique ids, a positive amount on every record, and every
      record attached to a party of its own workspace. */
  predicate TxsWellFormed(parties: seq<Party>, txs: seq<Transaction>) {
    && UniqueTxIds(txs)
    && PositiveAmounts(txs)
    && forall i :: 0 <= i < |txs| ==> PartyInWorkspace(parties, txs[i])
  }

  // ---------------------------------------------------------------- create

  /** The body of `POST .../parties/:partyId/transactions`; `None` is a field left out (or null). */
  datatype TxInput = TxInput(amount: Option<real>, direction: Option<string>, description: Option<string>,
                             date: Option<int>, billImageUrl: Option<string>)

  /** The create schema: a positive amount no larger than `Number.MAX_SAFE_INTEGER`, a direction of gave
      or got, and a date are required. */
  function ValidateCreate(input: TxInput): (r: Result<(real, Direction, int), Error>)
    ensures r.Success? <==> && input.amount.Some? && 0.0 < input.amount.value <= MaxSafeInteger
                            && input.direction.Some? && (input.direction.value == "gave" || input.direction.value == "got")
                            && input.date.Some?
    ensures r.Failure? ==> r.error == BadRequest
    ensures r.Success? ==> r.value.0 == input.amount.value && DirectionName(r.value.1) == input.direction.value
                           && r.value.2 == input.date.value
  {
    if || input.amount.None? || input.amount.value <= 0.0 || input.amount.value > MaxSafeInteger
       || input.direction.None? || input.date.None?
    then Failure(BadRequest)
    else
      var d :- ParseDirection(input.direction.value).ToResult(BadRequest);
      Success((input.amount.value, d, input.date.value))
  }

  /** The record `Transaction.create` stores: the path's workspace and party, the caller as creator, and
      `billImageUrl || undefined`, so an empty URL is stored as absent. */
  function NewTransaction(id: Id, ws: Id, partyId: Id, actor: Actor, input: TxInput): (r: Result<Transaction, Error>)
    ensures r.Success? <==> ValidateCreate(input).Success?
    ensures r.Failure? ==> r.error == BadRequest
    ensures r.Success? ==>
      && r.value.id == id && r.value.workspaceId == ws && r.value.partyId == partyId
      && r.value.createdBy == actor.userId
      && r.value.amount > 0.0 && r.value.amount == input.amount.value
      && DirectionName(r.value.direction) == input.direction.value
      && r.value.date == input.date.value
      && r.value.description == input.description
      && (r.value.billImageUrl.Some? <==> Truthy(input.billImageUrl))
      && (r.value.billImageUrl.Some? ==> r.value.billImageUrl == input.billImageUrl)
  {
    var (amount, direction, date) :- ValidateCreate(input);
    Success(Transaction(id, ws, partyId, amount, direction, input.description, date,
                        if Truthy(input.billImageUrl) then input.billImageUrl else None, actor.userId))
  }

  // ---------------------------------------------------------------- update

  /** The body of `PUT .../transactions/:transactionId`. An outer `None` is a field left out; for the two
      nullable fields an inner `None` is an explicit null, which clears the stored value. */
  datatype TxPatch = TxPatch(amount: Option<real>, direction: Option<string>, description: Option<Option<string>>,
                             date: Option<int>, billImageUrl: Option<Option<string>>)

  /** A patch that passed the schema, with its direction parsed. */
  datatype Patch = Patch(amount: Option<real>, direction: Option<Direction>, description: Option<Option<string>>,
                         date: Option<int>, billImageUrl: Option<Option<string>>)

  predicate Supplies(p: TxPatch) {
    p.amount.Some? || p.direction.Some? || p.description.Some? || p.date.Some? || p.billImageUrl.Some?
  }

  /** The update schema: every field optional, but at least one present (`.min(1)`); an amount, when
      given, positive and no larger than `Number.MAX_SAFE_INTEGER`; a direction, when given, gave or got. */
  function ValidatePatch(p: TxPatch): (r: Result<Patch, Error>)
    ensures r.Success? <==> && Supplies(p)
                            && (p.amount.Some? ==> 0.0 < p.amount.value <= MaxSafeInteger)
                            && (p.direction.Some? ==> p.direction.value == "gave" || p.direction.value == "got")
    ensures r.Failure? ==> r.error == BadRequest
    ensures r.Success? ==> && r.value.amount == p.amount && r.value.description == p.description
                           && r.value.date == p.date && r.value.billImageUrl == p.billImageUrl
                           && (r.value.direction.Some? <==> p.direction.Some?)
                           && (r.value.direction.Some? ==> DirectionName(r.value.direction.value) == p.direction.value)
  {
    if !Supplies(p) || (p.amount.Some? && (p.amount.value <= 0.0 || p.amount.value > MaxSafeInteger)) then Failure(BadRequest)
    else if p.direction.Some? then
      var d :- ParseDirection(p.direction.value).ToResult(BadRequest);
      Success(Patch(p.amount, Some(d), p.description, p.date, p.billImageUrl))
    else Success(Patch(p.amount, None, p.description, p.date, p.billImageUrl))
  }

  /** `findOneAndUpdate(filter, req.body)`: every supplied field is overwritten as given (an empty URL is
      stored as the empty string here, unlike create), every other field is kept. */
  function ApplyPatch(t: Transaction, p: Patch): (r: Transaction)
    ensures r.id == t.id && r.workspaceId == t.workspaceId && r.partyId == t.partyId && r.createdBy == t.createdBy
    ensures (p.amount.Some? ==> r.amount == p.amount.value) && (p.amount.None? ==> r.amount == t.amount)
    ensures (p.direction.Some? ==> r.direction == p.direction.value) && (p.direction.None? ==> r.direction == t.direction)
    ensures (p.description.Some? ==> r.description == p.description.value)
         && (p.description.None? ==> r.description == t.description)
    ensures (p.date.Some? ==> r.date == p.date.value) && (p.date.None? ==> r.date == t.date)
    ensures (p.billImageUrl.Some? ==> r.billImageUrl == p.billImageUrl.value)
         && (p.billImageUrl.None? ==> r.billImageUrl == t.billImageUrl)
  {
    Transaction(t.id, t.workspaceId, t.partyId,
                if p.amount.Some? then p.amount.value else t.amount,
                if p.direction.Some? then p.direction.value else t.direction,
                if p.description.Some? then p.description.value else t.description,
                if p.date.Some? then p.date.value else t.date,
                if p.billImageUrl.Some? then p.billImageUrl.value else t.billImageUrl,
                t.createdBy)
  }

  /** Reapplying an update changes nothing: an update is an overwrite, not an increment. */
  lemma ApplyPatchIdempotent(t: Transaction, p: Patch)
    ensures ApplyPatch(ApplyPatch(t, p), p) == ApplyPatch(t, p)
  {
  }

  /** A patch that supplies every field determines the result whatever the record held before, apart
      from the fields an update cannot reach. */
  lemma FullPatchOverwrites(t: Transaction, u: Transaction, p: Patch)
    requires p.amount.Some? && p.direction.Some? && p.description.Some? && p.date.Some? && p.billImageUrl.Some?
    requires t.id == u.id && t.workspaceId == u.workspaceId && t.partyId == u.partyId && t.createdBy == u.createdBy
    ensures ApplyPatch(t, p) == ApplyPatch(u, p)
  {
  }

  /** A validated patch keeps the amount positive. */
  lemma PatchKeepsAmountPositive(t: Transaction, raw: TxPatch)
    requires t.amount > 0.0 && ValidatePatch(raw).Success?
    ensures ApplyPatch(t, ValidatePatch(raw).value).amount > 0.0
  {
  }

  // ---------------------------------------------------------------- workspace-scoped lookup

  /** `findOne({ _id: transactionId, workspaceId })`: the position of the record with that id in that
      workspace, if any. */
  function FindScoped(txs: seq<Transaction>, ws: Id, id: Id): (k: Option<nat>)
    ensures k.Some? ==> k.value < |txs| && txs[k.value].id == id && txs[k.value].workspaceId == ws
    ensures k.Some? ==> forall i :: 0 <= i < k.value ==> !(txs[i].id == id && txs[i].workspaceId == ws)
    ensures k.None? <==> forall i :: 0 <= i < |txs| ==> !(txs[i].id == id && txs[i].workspaceId == ws)
  {
    if txs == [] then None
    else if txs[0].id == id && txs[0].workspaceId == ws then Some(0)
    else
      var k := FindScoped(txs[1..], ws, id);
      if k.Some? then Some(k.value + 1) else None
  }

  /** The get handler: 404 unless the workspace holds a transaction with that id. */
  function GetTx(txs: seq<Transaction>, ws: Id, id: Id): (r: Result<Transaction, Error>)
    ensures r.Failure? <==> forall t | t in txs :: !(t.id == id && t.workspaceId == ws)
    ensures r.Failure? ==> r.error == NotFound
    ensures r.Success? ==> r.value in txs && r.value.id == id && r.value.workspaceId == ws
  {
    var k :- FindScoped(txs, ws, id).ToResult(NotFound);
    Success(txs[k])
  }

  /** With unique ids, the record a lookup finds is the only one with that id. */
  lemma FoundIsTheRecord(txs: seq<Transaction>, ws: Id, k: nat)
    requires UniqueTxIds(txs) && k < |txs| && txs[k].workspaceId == ws
    ensures FindScoped(txs, ws, txs[k].id) == Some(k)
    ensures GetTx(txs, ws, txs[k].id) == Success(txs[k])
  {
    var f := FindScoped(txs, ws, txs[k].id);
    assert txs[f.value].id == txs[k].id;
  }

  /** Workspace scoping: with unique ids, a transaction of another workspace is invisible to get,
      update and delete in this one. */
  lemma OtherWorkspaceInvisible(txs: seq<Transaction>, ws: Id, k: nat)
    requires UniqueTxIds(txs) && k < |txs| && txs[k].workspaceId != ws
    ensures FindScoped(txs, ws, txs[k].id).None?
    ensures GetTx(txs, ws, txs[k].id) == Failure(NotFound)
  {
    forall i | 0 <= i < |txs| && txs[i].id == txs[k].id ensures i == k {
    }
  }

  // ---------------------------------------------------------------- the collection after each operation

  function RemoveAt(txs: seq<Transaction>, k: nat): (r: seq<Transaction>)
    requires k < |txs|
    ensures |r| == |txs| - 1
    ensures multiset(r) == multiset(txs) - multiset{txs[k]}
    ensures forall i :: 0 <= i < |r| ==> r[i] == if i < k then txs[i] else txs[i + 1]
  {
    assert txs == txs[..k] + [txs[k]] + txs[k + 1..];
    txs[..k] + txs[k + 1..]
  }

  /** Adding a record that passed create keeps the collection well formed, provided its id is new and
      its party was found in its workspace. */
  lemma CreateKeepsWellFormed(parties: seq<Party>, txs: seq<Transaction>, id: Id, ws: Id, partyId: Id, actor: Actor, input: TxInput)
    requires TxsWellFormed(parties, txs)
    requires forall t | t in txs :: t.id != id
    requires exists p | p in parties :: p.id == partyId && p.workspaceId == ws
    requires NewTransaction(id, ws, partyId, actor, input).Success?
    ensures TxsWellFormed(parties, txs + [NewTransaction(id, ws, partyId, actor, input).value])
  {
    var t := NewTransaction(id, ws, partyId, actor, input).value;
    var s := txs + [t];
    forall i, j | 0 <= i < j < |s| ensures s[i].id != s[j].id {
      if j == |txs| { assert s[i] in txs; } else { assert s[i] == txs[i] && s[j] == txs[j]; }
    }
    forall i | 0 <= i < |s| ensures PartyInWorkspace(parties, s[i]) && s[i].amount > 0.0 {
      if i < |txs| { assert s[i] == txs[i]; }
    }
  }

  /** Overwriting a found record with a validated patch keeps the collection well formed: the id, the
      workspace and the party cannot change, and any new amount is positive. */
  lemma UpdateKeepsWellFormed(parties: seq<Party>, txs: seq<Transaction>, k: nat, raw: TxPatch)
    requires TxsWellFormed(parties, txs) && k < |txs| && ValidatePatch(raw).Success?
    ensures TxsWellFormed(parties, txs[k := ApplyPatch(txs[k], ValidatePatch(raw).value)])
  {
    var u := ApplyPatch(txs[k], ValidatePatch(raw).value);
    var s := txs[k := u];
    PatchKeepsAmountPositive(txs[k], raw);
    assert PartyInWorkspace(parties, u) by { assert PartyInWorkspace(parties, txs[k]); }
    forall i, j | 0 <= i < j < |s| ensures s[i].id != s[j].id {
      assert s[i].id == txs[i].id && s[j].id == txs[j].id;
    }
    forall i | 0 <= i < |s| ensures PartyInWorkspace(parties, s[i]) {
      if i != k { assert s[i] == txs[i]; }
    }
  }

  /** Removing a record keeps the collection well formed. */
  lemma DeleteKeepsWellFormed(parties: seq<Party>, txs: seq<Transaction>, k: nat)
    requires TxsWellFormed(parties, txs) && k < |txs|
    ensures TxsWellFormed(parties, RemoveAt(txs, k))
  {
    var s := RemoveAt(txs, k);
    forall i, j | 0 <= i < j < |s| ensures s[i].id != s[j].id {
      var a := if i < k then i else i + 1;
      var b := if j < k then j else j + 1;
      assert s[i] == txs[a] && s[j] == txs[b] && a < b;
    }
    forall i | 0 <= i < |s| ensures PartyInWorkspace(parties, s[i]) && s[i].amount > 0.0 {
      assert s[i] == txs[if i < k then i else i + 1];
    }
  }

  /** New parties never break a transaction's reference. */
  lemma MorePartiesKeepWellFormed(parties: seq<Party>, txs: seq<Transaction>, p: Party)
    requires TxsWellFormed(parties, txs)
    ensures TxsWellFormed(parties + [p], txs)
  {
    forall i | 0 <= i < |txs| ensures PartyInWorkspace(parties + [p], txs[i]) {
      assert PartyInWorkspace(parties, txs[i]);
      var q :| q in parties && q.id == txs[i].partyId && q.workspaceId == txs[i].workspaceId;
      assert q in parties + [p];
    }
  }

  /** The records left by a removal are those at every other position. */
  lemma InRemoveAt(txs: seq<Transaction>, k: nat, t: Transaction)
    requires k < |txs|
    ensures t in RemoveAt(txs, k) <==> exists i :: 0 <= i < |txs| && i != k && txs[i] == t
  {
    var s := RemoveAt(txs, k);
    if t in s {
      var i :| 0 <= i < |s| && s[i] == t;
      assert txs[if i < k then i else i + 1] == t;
    }
    if exists i :: 0 <= i < |txs| && i != k && txs[i] == t {
      var i :| 0 <= i < |txs| && i != k && txs[i] == t;
      assert s[if i < k then i else i - 1] == t;
    }
  }

  lemma SameIdSameRecord(txs: seq<Transaction>, u: Transaction, v: Transaction)
    requires UniqueTxIds(txs) && u in txs && v in txs && u.id == v.id
    ensures u == v
  {
    var i :| 0 <= i < |txs| && txs[i] == u;
    var j :| 0 <= j < |txs| && txs[j] == v;
    assert i == j;
  }

  /** After a delete the record is gone from its workspace, and every other lookup is unaffected. */
  lemma GetAfterDelete(txs: seq<Transaction>, ws: Id, k: nat, id: Id)
    requires UniqueTxIds(txs) && k < |txs|
    ensures GetTx(RemoveAt(txs, k), ws, txs[k].id) == Failure(NotFound)
    ensures id != txs[k].id ==> GetTx(RemoveAt(txs, k), ws, id) == GetTx(txs, ws, id)
  {
    var s := RemoveAt(txs, k);
    forall t | t in s ensures t.id != txs[k].id {
      InRemoveAt(txs, k, t);
    }
    if id != txs[k].id {
      forall t ensures t in s && t.id == id <==> t in txs && t.id == id {
        InRemoveAt(txs, k, t);
      }
      var before, after := GetTx(txs, ws, id), GetTx(s, ws, id);
      if before.Success? && after.Success? {
        SameIdSameRecord(txs, before.value, after.value);
      }
    }
  }

  /** After an update the record reads back as the patched record, at the same id and workspace. */
  lemma GetAfterUpdate(txs: seq<Transaction>, ws: Id, k: nat, p: Patch)
    requires UniqueTxIds(txs) && k < |txs| && txs[k].workspaceId == ws
    ensures GetTx(txs[k := ApplyPatch(txs[k], p)], ws, txs[k].id) == Success(ApplyPatch(txs[k], p))
  {
    var s := txs[k := ApplyPatch(txs[k], p)];
    assert UniqueTxIds(s) by {
      forall i, j | 0 <= i < j < |s| ensures s[i].id != s[j].id {
        assert s[i].id == txs[i].id && s[j].id == txs[j].id;
      }
    }
    FoundIsTheRecord(s, ws, k);
  }

  /** After a create the new record reads back from its workspace. */
  lemma GetAfterCreate(txs: seq<Transaction>, t: Transaction)
    requires UniqueTxIds(txs) && forall u | u in txs :: u.id != t.id
    ensures GetTx(txs + [t], t.workspaceId, t.id) == Success(t)
  {
    var s := txs + [t];
    assert UniqueTxIds(s) by {
      forall i, j | 0 <= i < j < |s| ensures s[i].id != s[j].id {
        if j == |txs| { assert s[i] in txs; } else { assert s[i] == txs[i] && s[j] == txs[j]; }
      }
    }
    FoundIsTheRecord(s, t.workspaceId, |txs|);
  }

  /** The database's scan for `{ _id: transactionId, workspaceId }`: the first matching position. */
  method LocateScoped(txs: seq<Transaction>, ws: Id, id: Id) returns (k: Option<nat>)
    ensures k == FindScoped(txs, ws, id)
  {
    var i := 0;
    while i < |txs|
      invariant 0 <= i <= |txs|
      invariant forall j :: 0 <= j < i ==> !(txs[j].id == id && txs[j].workspaceId == ws)
    {
      if txs[i].id == id && txs[i].workspaceId == ws {
        return Some(i);
      }
      i := i + 1;
    }
    return None;
  }

  // ---------------------------------------------------------------- the handlers' outcomes

  /** Create: the gate first, then the body schema, then the party lookup in the path's workspace (404),
      then the insert, which a taken id refuses. */
  function CreateTxOutcome(workspaces: seq<Workspace>, parties: seq<Party>, txs: seq<Transaction>, actor: Actor,
                           ws: Id, partyId: Id, newId: Id, input: TxInput): (r: Result<Transaction, Error>)
    ensures PathGate(workspaces, actor, ws).Failure? ==> r == Failure(PathGate(workspaces, actor, ws).error)
    ensures PathGate(workspaces, actor, ws).Success? && ValidateCreate(input).Failure? ==> r == Failure(BadRequest)
    ensures PathGate(workspaces, actor, ws).Success? && ValidateCreate(input).Success? ==>
      (r == Failure(NotFound) <==> forall p | p in parties :: !(p.id == partyId && p.workspaceId == ws))
    ensures r == Failure(Conflict) <==>
      && PathGate(workspaces, actor, ws).Success? && ValidateCreate(input).Success?
      && (exists p | p in parties :: p.id == partyId && p.workspaceId == ws)
      && (exists t | t in txs :: t.id == newId)
    ensures (&& PathGate(workspaces, actor, ws).Success? && ValidateCreate(input).Success?
             && (exists p | p in parties :: p.id == partyId && p.workspaceId == ws)
             && (forall t | t in txs :: t.id != newId))
            ==> r.Success?
    ensures r.Success? ==>
      && PathGate(workspaces, actor, ws).Success?
      && (exists p | p in parties :: p.id == partyId && p.workspaceId == ws)
      && (forall t | t in txs :: t.id != newId)
      && r == NewTransaction(newId, ws, partyId, actor, input)
  {
    var _ :- PathGate(workspaces, actor, ws);
    var _ :- ValidateCreate(input);
    var _ :- FindScopedParty(parties, partyId, ws).ToResult(NotFound);
    if exists t | t in txs :: t.id == newId then Failure(Conflict)
    else NewTransaction(newId, ws, partyId, actor, input)
  }

  /** Get: the gate, then the scoped lookup. */
  function GetTxOutcome(workspaces: seq<Workspace>, txs: seq<Transaction>, actor: Actor, ws: Id, id: Id)
    : (r: Result<Transaction, Error>)
    ensures PathGate(workspaces, actor, ws).Failure? ==> r == Failure(PathGate(workspaces, actor, ws).error)
    ensures PathGate(workspaces, actor, ws).Success? ==>
      (r == Failure(NotFound) <==> forall t | t in txs :: !(t.id == id && t.workspaceId == ws))
    ensures r.Success? ==> PathGate(workspaces, actor, ws).Success? && r.value in txs && r.value.id == id && r.value.workspaceId == ws
    ensures PathGate(workspaces, actor, ws).Success? && (exists t | t in txs :: t.id == id && t.workspaceId == ws) ==> r.Success?
  {
    var _ :- PathGate(workspaces, actor, ws);
    GetTx(txs, ws, id)
  }

  /** Update: the gate, then the body schema, then the scoped lookup; the result is the record as
      overwritten. */
  function UpdateTxOutcome(workspaces: seq<Workspace>, txs: seq<Transaction>, actor: Actor, ws: Id, id: Id, raw: TxPatch)
    : (r: Result<Transaction, Error>)
    ensures PathGate(workspaces, actor, ws).Failure? ==> r == Failure(PathGate(workspaces, actor, ws).error)
    ensures PathGate(workspaces, actor, ws).Success? && ValidatePatch(raw).Failure? ==> r == Failure(BadRequest)
    ensures PathGate(workspaces, actor, ws).Success? && ValidatePatch(raw).Success? ==>
      (r == Failure(NotFound) <==> FindScoped(txs, ws, id).None?)
    ensures PathGate(workspaces, actor, ws).Success? && ValidatePatch(raw).Success? && FindScoped(txs, ws, id).Some? ==> r.Success?
    ensures r.Success? ==>
      && PathGate(workspaces, actor, ws).Success? && ValidatePatch(raw).Success? && FindScoped(txs, ws, id).Some?
      && r.value == ApplyPatch(txs[FindScoped(txs, ws, id).value], ValidatePatch(raw).value)
      && r.value.id == id && r.value.workspaceId == ws
  {
    var _ :- PathGate(workspaces, actor, ws);
    var p :- ValidatePatch(raw);
    var k :- FindScoped(txs, ws, id).ToResult(NotFound);
    Success(ApplyPatch(txs[k], p))
  }

  /** Delete: the gate, then the scoped lookup; the result is the removed record. */
  function DeleteTxOutcome(workspaces: seq<Workspace>, txs: seq<Transaction>, actor: Actor, ws: Id, id: Id)
    : (r: Result<Transaction, Error>)
    ensures PathGate(workspaces, actor, ws).Failure? ==> r == Failure(PathGate(workspaces, actor, ws).error)
    ensures PathGate(workspaces, actor, ws).Success? ==> (r == Failure(NotFound) <==> FindScoped(txs, ws, id).None?)
    ensures PathGate(workspaces, actor, ws).Success? && FindScoped(txs, ws, id).Some? ==> r.Success?
    ensures r.Success? ==>
      && PathGate(workspaces, actor, ws).Success? && FindScoped(txs, ws, id).Some?
      && r.value == txs[FindScoped(txs, ws, id).value]
      && r.value.id == id && r.value.workspaceId == ws
  {
    var _ :- PathGate(workspaces, actor, ws);
    var k :- FindScoped(txs, ws, id).ToResult(NotFound);
    Success(txs[k])
  }
}
