/** The party router (src/routes/party.routes.js): creating a party, listing a workspace's parties with
    per-party totals, and a party's detail with its transaction history. */
module PartyRoutes {
  import opened Wrappers
  import opened Models
  import opened Ordering
  import opened Balances
  import opened WorkspaceGate

  // ---------------------------------------------------------------- create

  /** The body schema of `POST /:workspaceId/parties`: `name` a string at least two UTF-16 code units
      long, `phone` any string or null, `type` one of customer and supplier. */
  function ValidateParty(name: Option<string>, phone: Option<string>, ptype: Option<string>)
    : (r: Result<(string, Option<string>, PartyType), Error>)
    ensures r.Success? <==> name.Some? && Utf16Length(name.value) >= 2 && ptype.Some? &&
                            (ptype.value == "customer" || ptype.value == "supplier")
    ensures r.Failure? ==> r.error == BadRequest
    ensures r.Success? ==> r.value.0 == name.value && r.value.1 == phone && PartyTypeName(r.value.2) == ptype.value
  {
    if name.None? || Utf16Length(name.value) < 2 || ptype.None? then Failure(BadRequest)
    else
      var ty :- ParsePartyType(ptype.value).ToResult(BadRequest);
      Success((name.value, phone, ty))
  }

  /** The create handler: the gate first, then the body schema, then the insert, which a taken id
      refuses. The party is stored in the path's workspace with the name, phone and type as given. */
  function CreatePartyOutcome(workspaces: seq<Workspace>, parties: seq<Party>, actor: Actor, ws: Id, newId: Id,
                              name: Option<string>, phone: Option<string>, ptype: Option<string>, now: int)
    : (r: Result<Party, Error>)
    ensures PathGate(workspaces, actor, ws).Failure? ==> r == Failure(PathGate(workspaces, actor, ws).error)
    ensures PathGate(workspaces, actor, ws).Success? && ValidateParty(name, phone, ptype).Failure? ==> r == Failure(BadRequest)
    ensures r == Failure(Conflict) <==>
      PathGate(workspaces, actor, ws).Success? && ValidateParty(name, phone, ptype).Success? && exists p | p in parties :: p.id == newId
    ensures (PathGate(workspaces, actor, ws).Success? && ValidateParty(name, phone, ptype).Success? &&
             (forall p | p in parties :: p.id != newId))
            ==> r.Success?
    ensures r.Success? ==>
      && PathGate(workspaces, actor, ws).Success?
      && (exists w | w in workspaces :: w.id == ws)
      && (forall p | p in parties :: p.id != newId)
      && r.value.id == newId && r.value.workspaceId == ws && r.value.createdAt == now
      && r.value.name == name.value && r.value.phone == phone && PartyTypeName(r.value.ptype) == ptype.value
  {
    var _ :- PathGate(workspaces, actor, ws);
    var (nm, ph, ty) :- ValidateParty(name, phone, ptype);
    if exists p | p in parties :: p.id == newId then Failure(Conflict)
    else Success(Party(newId, ws, nm, ph, ty, now))
  }

  // ---------------------------------------------------------------- list with totals

  /** The optional `?type=` filter: a falsy value lists every party, any other value only the parties
      whose type is spelled that way (so an unknown spelling lists none). */
  predicate TypeFilterMatches(typeFilter: Option<string>, p: Party)
    ensures TypeFilterMatches(typeFilter, p) <==> !Truthy(typeFilter) || ParsePartyType(typeFilter.value) == Some(p.ptype)
  {
    !Truthy(typeFilter) || PartyTypeName(p.ptype) == typeFilter.value
  }

  /** `Party.find({ workspaceId, ...(type ? { type } : {}) })`, before sorting. */
  function PartiesQuery(store: seq<Party>, ws: Id, typeFilter: Option<string>): (r: seq<Party>)
    ensures forall p :: multiset(r)[p] == if p.workspaceId == ws && TypeFilterMatches(typeFilter, p) then multiset(store)[p] else 0
    ensures forall p :: p in r <==> p in store && p.workspaceId == ws && TypeFilterMatches(typeFilter, p)
  {
    if store == [] then []
    else
      assert store == [store[0]] + store[1..];
      var keep := store[0].workspaceId == ws && TypeFilterMatches(typeFilter, store[0]);
      (if keep then [store[0]] else []) + PartiesQuery(store[1..], ws, typeFilter)
  }

  /** The listed parties: the query's result, newest first. */
  function ListedParties(store: seq<Party>, ws: Id, typeFilter: Option<string>): (r: seq<Party>)
    ensures SortedDesc(r, PartyCreatedAt)
    ensures forall p :: multiset(r)[p] == if p.workspaceId == ws && TypeFilterMatches(typeFilter, p) then multiset(store)[p] else 0
  {
    SortDesc(PartiesQuery(store, ws, typeFilter), PartyCreatedAt)
  }

  function PartyIds(parties: seq<Party>): (ids: seq<Id>)
    ensures |ids| == |parties| && forall i :: 0 <= i < |ids| ==> ids[i] == parties[i].id
  {
    seq(|parties|, i requires 0 <= i < |parties| => parties[i].id)
  }

  /** `Transaction.find({ workspaceId, partyId: { $in: partyIds } })`. */
  function TxsOfParties(store: seq<Transaction>, ws: Id, ids: seq<Id>): (r: seq<Transaction>)
    ensures forall t :: multiset(r)[t] == if t.workspaceId == ws && t.partyId in ids then multiset(store)[t] else 0
  {
    if store == [] then []
    else
      assert store == [store[0]] + store[1..];
      var keep := store[0].workspaceId == ws && store[0].partyId in ids;
      (if keep then [store[0]] else []) + TxsOfParties(store[1..], ws, ids)
  }

  /** The transactions of one party, in list order. */
  function TxsOf(txs: seq<Transaction>, partyId: Id): seq<Transaction> {
    if txs == [] then []
    else (if txs[0].partyId == partyId then [txs[0]] else []) + TxsOf(txs[1..], partyId)
  }

  lemma {:induction false} TxsOfAppend(txs: seq<Transaction>, t: Transaction, partyId: Id)
    ensures TxsOf(txs + [t], partyId) == TxsOf(txs, partyId) + (if t.partyId == partyId then [t] else [])
  {
    if txs != [] {
      assert (txs + [t])[1..] == txs[1..] + [t];
      TxsOfAppend(txs[1..], t, partyId);
    }
  }

  /** `parties.find((pp) => String(pp._id) === id)`: a party with that id, if the list has one. */
  function FindParty(parties: seq<Party>, id: Id): (r: Option<Party>)
    ensures r.Some? ==> r.value in parties && r.value.id == id
    ensures r.None? <==> forall p | p in parties :: p.id != id
  {
    if parties == [] then None
    else if parties[0].id == id then Some(parties[0])
    else FindParty(parties[1..], id)
  }

  /** `p?.type === 'customer'` picks the customer rule; anything else, an unresolved party included,
      falls to the supplier rule. */
  function RuleType(p: Option<Party>): (ty: PartyType)
    ensures ty == Customer <==> p.Some? && p.value.ptype == Customer
  {
    if p.Some? && p.value.ptype == Customer then Customer else Supplier
  }

  /** One row of the response: the party's fields, then the spread of its totals, which is absent
      (not zero) for a party without transactions. */
  datatype PartyRow = PartyRow(id: Id, name: string, ptype: PartyType, phone: Option<string>, totals: Option<Totals>)

  function Row(p: Party, totalsByParty: map<Id, Totals>): PartyRow {
    PartyRow(p.id, p.name, p.ptype, p.phone, if p.id in totalsByParty then Some(totalsByParty[p.id]) else None)
  }

  /** `parties.map(...)`: one row per party, in the parties' order. */
  function Rows(parties: seq<Party>, totalsByParty: map<Id, Totals>): (rows: seq<PartyRow>)
    ensures |rows| == |parties|
    ensures forall i :: 0 <= i < |rows| ==> rows[i] == Row(parties[i], totalsByParty)
  {
    seq(|parties|, i requires 0 <= i < |parties| => Row(parties[i], totalsByParty))
  }

  /** The map the handler's loop builds, one transaction at a time: the entry of the transaction's party
      (zero when absent) credited by the rule of that party's type. */
  function PartyTotalsMap(parties: seq<Party>, txs: seq<Transaction>): (m: map<Id, Totals>)
    ensures forall k :: 0 <= k < |txs| ==> txs[k].partyId in m
  {
    if txs == [] then map[]
    else
      assert txs == txs[..|txs| - 1] + [txs[|txs| - 1]];
      var m := PartyTotalsMap(parties, txs[..|txs| - 1]);
      var t := txs[|txs| - 1];
      var ty := RuleType(FindParty(parties, t.partyId));
      m[t.partyId := Credit(if t.partyId in m then m[t.partyId] else Zero, BucketFor(ty, t.direction), t.amount)]
  }

  /** What the map means: a party id has an entry exactly when it has transactions, and the entry is the
      per-party rule applied to exactly those, in order. */
  lemma {:induction false} PartyTotalsMapMeaning(parties: seq<Party>, txs: seq<Transaction>, id: Id)
    ensures id in PartyTotalsMap(parties, txs) <==> TxsOf(txs, id) != []
    ensures id in PartyTotalsMap(parties, txs) ==>
      PartyTotalsMap(parties, txs)[id] == PartyBalance(RuleType(FindParty(parties, id)), TxsOf(txs, id))
  {
    if txs != [] {
      var front, t := txs[..|txs| - 1], txs[|txs| - 1];
      assert txs == front + [t];
      PartyTotalsMapMeaning(parties, front, id);
      TxsOfAppend(front, t, id);
      var m := PartyTotalsMap(parties, front);
      if t.partyId == id {
        var ty := RuleType(FindParty(parties, id));
        var prev := if id in m then m[id] else Zero;
        assert prev == PartyBalance(ty, TxsOf(front, id));
        PartyBalanceAppend(ty, TxsOf(front, id), t);
        assert PartyTotalsMap(parties, txs)[id] == Credit(prev, BucketFor(ty, t.direction), t.amount);
      } else {
        assert TxsOf(txs, id) == TxsOf(front, id);
      }
    }
  }

  /** `PartyTotalsMapMeaning` for every party id at once. */
  lemma PartyTotalsMapEntries(parties: seq<Party>, txs: seq<Transaction>)
    ensures var m := PartyTotalsMap(parties, txs);
      && (forall id :: id in m <==> TxsOf(txs, id) != [])
      && (forall id | id in m :: m[id] == PartyBalance(RuleType(FindParty(parties, id)), TxsOf(txs, id)))
  {
    forall id ensures id in PartyTotalsMap(parties, txs) <==> TxsOf(txs, id) != [] {
      PartyTotalsMapMeaning(parties, txs, id);
    }
    forall id | id in PartyTotalsMap(parties, txs)
      ensures PartyTotalsMap(parties, txs)[id] == PartyBalance(RuleType(FindParty(parties, id)), TxsOf(txs, id))
    {
      PartyTotalsMapMeaning(parties, txs, id);
    }
  }

  /** One more transaction of `txs` updates just the entry of its party. */
  lemma PartyTotalsMapStep(parties: seq<Party>, txs: seq<Transaction>, i: nat)
    requires i < |txs|
    ensures var m, t := PartyTotalsMap(parties, txs[..i]), txs[i];
      PartyTotalsMap(parties, txs[..i + 1])
      == m[t.partyId := Credit(if t.partyId in m then m[t.partyId] else Zero,
                               BucketFor(RuleType(FindParty(parties, t.partyId)), t.direction), t.amount)]
  {
    assert txs[..i + 1][..i] == txs[..i];
  }

  /** The handler's `txs.forEach` loop over the `totalsByParty` map. */
  method AccumulatePartyTotals(parties: seq<Party>, txs: seq<Transaction>) returns (totalsByParty: map<Id, Totals>)
    ensures forall id :: id in totalsByParty <==> TxsOf(txs, id) != []
    ensures forall id | id in totalsByParty ::
      totalsByParty[id] == PartyBalance(RuleType(FindParty(parties, id)), TxsOf(txs, id))
  {
    totalsByParty := map[];
    var i := 0;
    while i < |txs|
      invariant 0 <= i <= |txs|
      invariant totalsByParty == PartyTotalsMap(parties, txs[..i])
    {
      var t := txs[i];
      PartyTotalsMapStep(parties, txs, i);
      var p := FindParty(parties, t.partyId);
      var isCustomer := p.Some? && p.value.ptype == Customer;
      var prev := if t.partyId in totalsByParty then totalsByParty[t.partyId] else Zero;
      var totals := prev;
      if isCustomer {
        if t.direction == Gave { totals := totals.(willGet := totals.willGet + t.amount); }
        else { totals := totals.(willGive := totals.willGive + t.amount); }
      } else {
        if t.direction == Gave { totals := totals.(willGive := totals.willGive + t.amount); }
        else { totals := totals.(willGet := totals.willGet + t.amount); }
      }
      assert totals == Credit(prev, BucketFor(RuleType(p), t.direction), t.amount);
      totalsByParty := totalsByParty[t.partyId := totals];
      assert totalsByParty == PartyTotalsMap(parties, txs[..i + 1]);
      i := i + 1;
    }
    assert txs[..|txs|] == txs;
    PartyTotalsMapEntries(parties, txs);
  }

  /** The list handler: one row per listed party, newest first; a row carries totals exactly when the
      party has transactions among those fetched, and then they are the per-party rule over them. */
  method ListPartiesWithTotals(partyStore: seq<Party>, txStore: seq<Transaction>, ws: Id, typeFilter: Option<string>)
    returns (rows: seq<PartyRow>)
    ensures var parties := ListedParties(partyStore, ws, typeFilter);
      var txs := TxsOfParties(txStore, ws, PartyIds(parties));
      && |rows| == |parties|
      && forall i :: 0 <= i < |rows| ==>
           && rows[i].id == parties[i].id && rows[i].name == parties[i].name
           && rows[i].ptype == parties[i].ptype && rows[i].phone == parties[i].phone
           && rows[i].totals == if TxsOf(txs, parties[i].id) == [] then None
                                else Some(PartyBalance(RuleType(FindParty(parties, parties[i].id)), TxsOf(txs, parties[i].id)))
  {
    var parties := ListedParties(partyStore, ws, typeFilter);
    var partyIds := PartyIds(parties);
    var txs := TxsOfParties(txStore, ws, partyIds);
    var totalsByParty := AccumulatePartyTotals(parties, txs);
    rows := Rows(parties, totalsByParty);
  }

  // ---------------------------------------------------------------- detail

  /** `Party.findOne({ _id: partyId, workspaceId })`. */
  function FindScopedParty(store: seq<Party>, partyId: Id, ws: Id): (r: Option<Party>)
    ensures r.Some? ==> r.value in store && r.value.id == partyId && r.value.workspaceId == ws
    ensures r.None? <==> forall p | p in store :: !(p.id == partyId && p.workspaceId == ws)
  {
    if store == [] then None
    else if store[0].id == partyId && store[0].workspaceId == ws then Some(store[0])
    else FindScopedParty(store[1..], partyId, ws)
  }

  /** `Transaction.find({ workspaceId, partyId })`, before sorting. */
  function PartyTxs(store: seq<Transaction>, ws: Id, partyId: Id): (r: seq<Transaction>)
    ensures forall t :: multiset(r)[t] == if t.workspaceId == ws && t.partyId == partyId then multiset(store)[t] else 0
  {
    if store == [] then []
    else
      assert store == [store[0]] + store[1..];
      var keep := store[0].workspaceId == ws && store[0].partyId == partyId;
      (if keep then [store[0]] else []) + PartyTxs(store[1..], ws, partyId)
  }

  datatype PartyDetail = PartyDetail(id: Id, name: string, ptype: PartyType, phone: Option<string>, transactions: seq<Transaction>)

  /** The detail handler: 404 unless the workspace has a party with that id; otherwise the party's fields
      and exactly its transactions in this workspace, newest first. */
  function GetPartyDetail(partyStore: seq<Party>, txStore: seq<Transaction>, ws: Id, partyId: Id)
    : (r: Result<PartyDetail, Error>)
    ensures r.Failure? <==> forall p | p in partyStore :: !(p.id == partyId && p.workspaceId == ws)
    ensures r.Failure? ==> r.error == NotFound
    ensures r.Success? ==> exists p | p in partyStore && p.id == partyId && p.workspaceId == ws ::
      r.value == PartyDetail(p.id, p.name, p.ptype, p.phone, r.value.transactions)
    ensures r.Success? ==> SortedDesc(r.value.transactions, DateOf)
    ensures r.Success? ==>
      forall t :: multiset(r.value.transactions)[t] == if t.workspaceId == ws && t.partyId == partyId then multiset(txStore)[t] else 0
  {
    var party :- FindScopedParty(partyStore, partyId, ws).ToResult(NotFound);
    var txs := SortDesc(PartyTxs(txStore, ws, partyId), DateOf);
    Success(PartyDetail(party.id, party.name, party.ptype, party.phone, txs))
  }

  // ---------------------------------------------------------------- relating the list to the detail

  /** Only the transactions of the listed parties are counted: within the fetched transactions, those of
      a listed party are exactly the ones its detail view fetches, and there are none of any other party. */
  lemma {:induction false} FetchedTxsOfParty(store: seq<Transaction>, ws: Id, ids: seq<Id>, partyId: Id)
    ensures TxsOf(TxsOfParties(store, ws, ids), partyId) == if partyId in ids then PartyTxs(store, ws, partyId) else []
  {
    if store != [] {
      FetchedTxsOfParty(store[1..], ws, ids, partyId);
      var t := store[0];
      var rest := TxsOfParties(store[1..], ws, ids);
      var own := PartyTxs(store[1..], ws, partyId);
      if t.workspaceId == ws && t.partyId in ids {
        assert TxsOfParties(store, ws, ids) == [t] + rest;
        assert ([t] + rest)[1..] == rest;
        assert TxsOf([t] + rest, partyId) == (if t.partyId == partyId then [t] else []) + TxsOf(rest, partyId);
        assert PartyTxs(store, ws, partyId) == (if t.partyId == partyId then [t] else []) + own;
      } else {
        assert TxsOfParties(store, ws, ids) == rest;
        assert partyId in ids ==> PartyTxs(store, ws, partyId) == own;
      }
    }
  }

  lemma {:induction false} TwiceInSeq<T>(s: seq<T>, x: T)
    requires multiset(s)[x] >= 2
    ensures exists i, j :: 0 <= i < j < |s| && s[i] == x && s[j] == x
  {
    assert s == [s[0]] + s[1..];
    if s[0] == x {
      assert x in multiset(s[1..]);
      var j :| 0 <= j < |s[1..]| && s[1..][j] == x;
      assert s[0] == x && s[j + 1] == x;
    } else {
      TwiceInSeq(s[1..], x);
      var i, j :| 0 <= i < j < |s[1..]| && s[1..][i] == x && s[1..][j] == x;
      assert s[i + 1] == x && s[j + 1] == x;
    }
  }

  lemma TwoPositions<T>(s: seq<T>, i: nat, j: nat)
    requires i < j < |s| && s[i] == s[j]
    ensures multiset(s)[s[i]] >= 2
  {
    assert s == s[..j] + s[j..];
    assert s[..j][i] == s[i];
    assert s[j..][0] == s[j];
  }

  lemma DistinctIdsInSelection(r: seq<Party>, store: seq<Party>, i: nat, j: nat)
    requires UniquePartyIds(store) && multiset(r) <= multiset(store)
    requires i < j < |r|
    ensures r[i].id != r[j].id
  {
    if r[i] == r[j] {
      TwoPositions(r, i, j);
      TwiceInSeq(store, r[i]);
    } else {
      assert r[i] in multiset(store) && r[j] in multiset(store);
    }
  }

  /** A selection drawn from a collection with unique ids has unique ids. */
  lemma UniqueIdsOfSelection(r: seq<Party>, store: seq<Party>)
    requires UniquePartyIds(store) && multiset(r) <= multiset(store)
    ensures UniquePartyIds(r)
  {
    forall i, j | 0 <= i < j < |r| ensures r[i].id != r[j].id {
      DistinctIdsInSelection(r, store, i, j);
    }
  }

  /** With unique ids, looking a listed party up by its own id finds it, so the rule applied to it is
      the rule of its own type. */
  lemma {:induction false} RuleTypeIsOwn(parties: seq<Party>, i: nat)
    requires UniquePartyIds(parties) && i < |parties|
    ensures FindParty(parties, parties[i].id) == Some(parties[i])
    ensures RuleType(FindParty(parties, parties[i].id)) == parties[i].ptype
  {
    if i > 0 {
      assert parties[0].id != parties[i].id;
      assert UniquePartyIds(parties[1..]) by {
        forall a, b | 0 <= a < b < |parties[1..]| ensures parties[1..][a].id != parties[1..][b].id {
          assert parties[a + 1].id != parties[b + 1].id;
        }
      }
      RuleTypeIsOwn(parties[1..], i - 1);
    }
  }

  /** The totals of a listed party are the per-party rule over exactly the history its detail view shows,
      so the two views agree (and a row without totals is a party with an empty history). */
  lemma ListTotalsMatchDetail(partyStore: seq<Party>, txStore: seq<Transaction>, ws: Id, parties: seq<Party>, i: nat)
    requires multiset(parties) <= multiset(partyStore)
    requires forall p | p in parties :: p.workspaceId == ws
    requires i < |parties|
    ensures var txs := TxsOf(TxsOfParties(txStore, ws, PartyIds(parties)), parties[i].id);
      var detail := GetPartyDetail(partyStore, txStore, ws, parties[i].id);
      && detail.Success?
      && PartyBalance(parties[i].ptype, txs) == PartyBalance(parties[i].ptype, detail.value.transactions)
      && (txs == [] <==> detail.value.transactions == [])
  {
    var p := parties[i];
    assert p in multiset(partyStore);
    var ids := PartyIds(parties);
    assert p.id == ids[i];
    FetchedTxsOfParty(txStore, ws, ids, p.id);
    var fetched := PartyTxs(txStore, ws, p.id);
    var history := GetPartyDetail(partyStore, txStore, ws, p.id).value.transactions;
    assert multiset(history) == multiset(fetched);
    PartyBalancePermutation(p.ptype, fetched, history);
    assert |history| == |multiset(history)| == |fetched|;
  }

  /** The list and the detail agree: with unique party ids, each listed row is totalled by its own
      party's type, and its totals are present exactly when its detail history is non-empty, and are then
      the per-party rule over that history. */
  lemma ListRowMatchesDetail(partyStore: seq<Party>, txStore: seq<Transaction>, ws: Id, typeFilter: Option<string>, i: nat)
    requires UniquePartyIds(partyStore)
    requires i < |ListedParties(partyStore, ws, typeFilter)|
    ensures var parties := ListedParties(partyStore, ws, typeFilter);
      var txs := TxsOf(TxsOfParties(txStore, ws, PartyIds(parties)), parties[i].id);
      var detail := GetPartyDetail(partyStore, txStore, ws, parties[i].id);
      && RuleType(FindParty(parties, parties[i].id)) == parties[i].ptype
      && detail.Success?
      && PartyBalance(parties[i].ptype, txs) == PartyBalance(parties[i].ptype, detail.value.transactions)
      && (txs == [] <==> detail.value.transactions == [])
  {
    var parties := ListedParties(partyStore, ws, typeFilter);
    assert multiset(parties) <= multiset(partyStore);
    UniqueIdsOfSelection(parties, partyStore);
    RuleTypeIsOwn(parties, i);
    forall p | p in parties ensures p.workspaceId == ws {
      assert multiset(parties)[p] > 0;
    }
    ListTotalsMatchDetail(partyStore, txStore, ws, parties, i);
  }
}
