# Multi-tenant ledger: a Dafny model

This project models the domain core of a small multi-tenant "khata" ledger backend (Express routes over
Mongoose collections). A workspace has an owner and a list of invited member emails. A workspace holds
parties, each a customer or a supplier. A party holds money transactions, each either "you gave" or
"you got". The model covers:

- the sign convention that turns transactions into the pair of totals *willGive* / *willGet*. A
  customer's `gave` is money you will get back; a supplier's `gave` is money you will give. This
  convention is applied per party in the party list (`Balances`, `PartyRoutes`) and workspace-wide over
  the twenty most recent transactions in the home summary (`WorkspaceRoutes`);
- the `requireWorkspaceMember` gate, which resolves the workspace id, then answers 400, 404 or 403, or
  admits the caller (`WorkspaceGate`);
- workspace creation and its membership list, and the "my workspaces" listing (`WorkspaceRoutes`);
- party creation, the party list with per-party totals, and the party detail with its date-ordered
  history (`PartyRoutes`);
- transaction create, get, partial update and delete, each scoped by workspace, and the collection
  invariants they keep (`TransactionRoutes`);
- the database as one class whose methods are the state-changing handlers and the gated read handlers,
  with its invariant as a class invariant (`LedgerStore.Ledger`).

Modules:

- `Models` holds the schemas. `Wrappers` holds `Option`/`Result`. `Ordering` is the stand-in for
  `.sort(...)` and `.limit(...)`.
- Collections are sequences in document order. Ids are strings. Amounts are exact reals. Dates and
  creation times are integers.
- Each handler is modelled as a specification function (its outcome, in the order the route decides)
  and, where it loops or changes state, a method proved against that function.

Two behaviours of the code worth noting:

- Membership is compared exactly (`m.userEmail === email`). It is case-insensitive only because the
  schemas lower-case both the user's email and every member email. `WorkspaceRoutes.CaseInsensitiveMembership`
  proves that consequence for a registered user and a freshly created workspace, through the gate.
- An update stores an empty `billImageUrl` as the empty string. A create stores it as absent
  (`billImageUrl || undefined`).

## Model

| member | source | states |
|---|---|---|
| Models.Lower | src/models/Workspace.js:5 | the schema's lower-casing keeps the length, yields only lower-case letters, and maps each character independently |
| Models.LowerOfLower | src/models/Workspace.js:5 | lower-casing an already lower-case string changes nothing |
| Models.Utf16Length | src/routes/workspace.routes.js:55 | a JavaScript string's length lies between its character count and twice that, and equals the character count exactly when no character lies beyond U+FFFF |
| Models.StoredUser | src/models/User.js:5 | a stored user keeps the given id and name, and its email is the given address lower-cased character by character (unchanged when already lower-case) |
| Models.ActorOf | src/services/auth.service.js:12 | the token carries the stored user's id and email, so the caller has a truthy email exactly when the stored one is non-empty |
| Models.ParsePartyType | src/models/Party.js:8 | a party type is accepted exactly when it is "customer" or "supplier", and the accepted value spells back to the input |
| Models.ParseDirection | src/models/Transaction.js:8 | a direction is accepted exactly when it is "gave" or "got", and the accepted value spells back to the input |
| Models.EnumRoundTrips | src/models/Transaction.js:8 | parsing the stored spelling of a type or a direction gives back that type or direction |
| Ordering.SortDesc | src/routes/party.routes.js:205 | the sorted result is ordered by descending key and is a permutation of its input |
| Ordering.Take | src/routes/workspace.routes.js:155 | `.limit(n)` keeps the first min(n, length) elements, as a prefix |
| Ordering.NewestWindow | src/routes/workspace.routes.js:155 | the first n of a descending sequence stay sorted and are drawn from it, and no element left out has a larger key than any element kept |
| Balances.BucketFor | src/routes/party.routes.js:137-141 | a transaction lands in willGet exactly when the party is a customer and the direction is gave, or the party is a supplier and the direction is got |
| Balances.Credit | src/routes/party.routes.js:138-140 | crediting a bucket raises willGive + willGet by exactly the amount |
| Balances.PartyBalance | src/routes/party.routes.js:132-143 | the per-party rule; nothing is netted: willGive + willGet equals the sum of all amounts |
| Balances.PartyBalanceAppend | src/routes/party.routes.js:132-143 | processing one more transaction credits exactly its amount to the bucket of its direction |
| Balances.CustomerSignRule | src/routes/party.routes.js:137-138 | for a customer, gave adds the amount to willGet only and got adds it to willGive only |
| Balances.SupplierSignRule | src/routes/party.routes.js:139-141 | for a supplier, gave adds the amount to willGive only and got adds it to willGet only |
| Balances.PartyBalanceByDirection | src/routes/party.routes.js:136-142 | a customer's totals are (sum of got, sum of gave); a supplier's are (sum of gave, sum of got) |
| Balances.PartyBalanceNonNegative | src/routes/transaction.routes.js:72 | with positive amounts both totals are non-negative, and their sum is positive for a non-empty history |
| Balances.PartyBalanceRemoveAt | src/routes/party.routes.js:132-143 | the totals equal the totals without one transaction plus that transaction's credit, wherever it sits |
| Balances.PartyBalancePermutation | src/routes/party.routes.js:132-143 | the totals do not depend on the order of the transactions |
| WorkspaceGate.ResolveWorkspaceId | src/middleware/workspace.js:6-7 | the id is the first truthy of path, body and query, and absent exactly when all three are falsy |
| WorkspaceGate.FindWorkspace | src/middleware/workspace.js:8-9 | a found workspace is stored with that id; nothing is found exactly when no stored workspace has it |
| WorkspaceGate.ListedMember | src/middleware/workspace.js:11 | membership is an exact comparison of emails, so when every stored member email is lower-case only a lower-case token email can be listed |
| WorkspaceGate.RequireWorkspaceMember | src/middleware/workspace.js:4-18 | 400 exactly when there is no id; 404 exactly when there is an id but no workspace; success exactly when the found workspace's owner or a listed member asks with a truthy email, and then the workspace with that id; otherwise 403 |
| WorkspaceGate.PathGate | src/routes/party.routes.js:11 | the gate mounted on every workspace-scoped path: 400 exactly for an empty id, 404 exactly when no workspace has the id, success exactly when the found workspace's owner or a listed member asks with a truthy email, and then the workspace with that id |
| WorkspaceGate.NotFoundBeforeMembership | src/middleware/workspace.js:8-9 | a missing workspace gives 404 whoever asks, so existence is decided before membership |
| WorkspaceGate.OwnerAllowed | src/middleware/workspace.js:10-11 | the owner with an email is admitted to their workspace |
| WorkspaceGate.MemberAllowed | src/middleware/workspace.js:11 | a caller whose email equals a member's stored email is admitted |
| WorkspaceGate.NoEmailNoAccess | src/middleware/workspace.js:10-12 | a caller without an email is refused with 403, even the owner |
| WorkspaceGate.OutsiderForbidden | src/middleware/workspace.js:11-12 | a caller who is neither owner nor listed is refused with 403 |
| WorkspaceGate.FoundIsUnique | src/middleware/workspace.js:8 | with unique ids, the lookup by a workspace's id finds that workspace |
| WorkspaceRoutes.NewMembers | src/routes/workspace.routes.js:65 | one membership per email, same length and order, each role member, each email stored lower-cased |
| WorkspaceRoutes.ValidateWorkspace | src/routes/workspace.routes.js:54-57 | the body is accepted exactly when the name is at least two UTF-16 code units long; missing members default to the empty list |
| WorkspaceRoutes.SurrogatePairNameAccepted | src/routes/workspace.routes.js:55 | a name of one character beyond U+FFFF passes the length rule, a name of one character below it fails with 400 |
| WorkspaceRoutes.NewWorkspace | src/routes/workspace.routes.js:62-66 | the stored workspace has the caller as owner and one member entry per input email, in order |
| WorkspaceRoutes.CreatedWorkspaceAccess | src/routes/workspace.routes.js:62-66 | the gate admits a caller with an email to the new workspace exactly when they created it or one of the invited addresses lower-cases to their email |
| WorkspaceRoutes.CaseInsensitiveMembership | src/middleware/workspace.js:11 | a registered user other than the creator is admitted by the gate to a freshly created workspace exactly when some invited address agrees with the registered one after lower-casing |
| WorkspaceRoutes.CreateWorkspaceOutcome | src/routes/workspace.routes.js:51-72 | 400 exactly when the body is invalid; 409 exactly when the body is valid and the id is taken; a valid body with a fresh id succeeds, storing a workspace owned by the caller |
| WorkspaceRoutes.GateAfterCreate | src/routes/workspace.routes.js:62-67 | once stored under a fresh id, a workspace admits exactly whom it admits on its own |
| WorkspaceRoutes.MineMatch | src/routes/workspace.routes.js:100-102 | the owner always matches, and a caller whose token has no email matches only as owner |
| WorkspaceRoutes.MineFilter | src/routes/workspace.routes.js:101-103 | the query keeps exactly the workspaces the caller owns or is listed in, with their multiplicities |
| WorkspaceRoutes.MyWorkspaces | src/routes/workspace.routes.js:101-105 | the same workspaces, newest first |
| WorkspaceRoutes.Mine | src/routes/workspace.routes.js:106 | one `{ id, name }` per listed workspace, in the listed order |
| WorkspaceRoutes.MineAgreesWithGate | src/routes/workspace.routes.js:101-103 | for a caller with an email, a workspace is listed exactly when the gate admits them to it |
| WorkspaceRoutes.MineListsOwnerTheGateRefuses | src/routes/workspace.routes.js:100-102 | an owner without an email is listed but refused by the gate, because the listing has no email guard |
| WorkspaceRoutes.WorkspaceParties | src/routes/workspace.routes.js:153 | exactly the parties of the workspace, with their multiplicities |
| WorkspaceRoutes.WorkspaceTxs | src/routes/workspace.routes.js:155 | exactly the transactions of the workspace, with their multiplicities |
| WorkspaceRoutes.TypeById | src/routes/workspace.routes.js:154 | the map has a key for every party id and no other; with unique ids each key maps to that party's type |
| WorkspaceRoutes.RecentWindow | src/routes/workspace.routes.js:155 | the window holds at most twenty transactions, newest first |
| WorkspaceRoutes.RecentWindowIsNewest | src/routes/workspace.routes.js:155 | the window holds min(20, count) of the workspace's transactions, newest first, and none left out is newer than one kept |
| WorkspaceRoutes.WorkspaceTotals | src/routes/workspace.routes.js:156-167 | when every transaction's party resolves, totalGive + totalGet equals the amount sum |
| WorkspaceRoutes.WorkspaceTotalsAppend | src/routes/workspace.routes.js:158-167 | a customer transaction adds gave to totalGet and got to totalGive; a supplier transaction does the opposite; an unresolved party adds nothing |
| WorkspaceRoutes.WorkspaceTotalsByType | src/routes/workspace.routes.js:158-167 | the workspace totals are the customer rule over the customer transactions plus the supplier rule over the supplier transactions |
| WorkspaceRoutes.WorkspaceTotalsBound | src/routes/workspace.routes.js:156-168 | with positive amounts, totalGive + totalGet is at most the window's amount sum, and equals it exactly when every party resolves |
| WorkspaceRoutes.AccumulateTotals | src/routes/workspace.routes.js:156-167 | the `forEach` loop computes the workspace totals of its input |
| WorkspaceRoutes.HomeSummary | src/routes/workspace.routes.js:149-168 | `recent` is the window returned unchanged, and the totals are taken over that window only |
| WorkspaceRoutes.HomeView | src/routes/workspace.routes.js:149-168 | the summary's `recent` is the window of at most twenty, newest first, and with positive amounts the totals never exceed the window's amount sum |
| WorkspaceRoutes.HomeRouteAsWritten | src/routes/workspace.routes.js:10 | the home route succeeds for every caller, because the workspace router installs only the authentication check |
| WorkspaceRoutes.OutsiderReadsHomeAsWritten | src/routes/workspace.routes.js:149-168 | a caller the gate forbids still receives the workspace's recent transactions |
| WorkspaceRoutes.HomeRoute | src/routes/workspace.routes.js:149-168 | with the gate in front, the summary goes only to the owner or a listed member; every gate refusal is passed through |
| WorkspaceRoutes.OutsiderRefusedHome | src/routes/workspace.routes.js:149-168 | with the gate in front, a caller who is neither owner nor member is refused |
| PartyRoutes.ValidateParty | src/routes/party.routes.js:61-65 | the body is accepted exactly when the name is at least two UTF-16 code units long and the type is customer or supplier; the phone passes as given |
| PartyRoutes.CreatePartyOutcome | src/routes/party.routes.js:58-76 | gate first, then 400 on a bad body, then 409 exactly when the id is taken; an admitted caller with a valid body and a fresh id succeeds, and the stored party is in the path's workspace with the given name, phone and type |
| PartyRoutes.TypeFilterMatches | src/routes/party.routes.js:128 | a falsy filter passes every party; any other passes exactly the parties whose type it spells, so an unknown spelling passes none |
| PartyRoutes.PartiesQuery | src/routes/party.routes.js:128 | exactly the workspace's parties that pass the type filter, where a falsy filter passes all |
| PartyRoutes.ListedParties | src/routes/party.routes.js:128 | the same parties, newest first |
| PartyRoutes.PartyIds | src/routes/party.routes.js:129 | one id per listed party, in order |
| PartyRoutes.TxsOfParties | src/routes/party.routes.js:130 | exactly the workspace's transactions whose party is among the listed ids |
| PartyRoutes.FindParty | src/routes/party.routes.js:134 | a found party is listed with that id; nothing is found exactly when no listed party has it |
| PartyRoutes.RuleType | src/routes/party.routes.js:135 | the customer rule applies exactly when the party was found and is a customer; otherwise the supplier rule |
| PartyRoutes.Rows | src/routes/party.routes.js:144-150 | one row per party, in order, each carrying the party's fields and its totals only if the map has an entry |
| PartyRoutes.PartyTotalsMap | src/routes/party.routes.js:131-143 | every transaction's party has an entry in the map the loop builds |
| PartyRoutes.PartyTotalsMapMeaning | src/routes/party.routes.js:131-143 | a party has a map entry exactly when it has transactions, and the entry is the rule of its type over exactly those |
| PartyRoutes.AccumulatePartyTotals | src/routes/party.routes.js:131-143 | the `forEach` loop builds the map: an entry exactly for each party with transactions, holding that party's totals |
| PartyRoutes.ListPartiesWithTotals | src/routes/party.routes.js:124-155 | one row per listed party, in the listed order; no totals for a party without transactions, otherwise the rule of its type over its transactions |
| PartyRoutes.FindScopedParty | src/routes/party.routes.js:203-204 | a found party has that id and workspace; nothing is found exactly when no party has both |
| PartyRoutes.PartyTxs | src/routes/party.routes.js:205 | exactly the transactions with that workspace and party |
| PartyRoutes.GetPartyDetail | src/routes/party.routes.js:200-216 | 404 exactly when the workspace has no party with that id; otherwise the party's fields and exactly its transactions, newest first |
| PartyRoutes.FetchedTxsOfParty | src/routes/party.routes.js:130 | among the fetched transactions, a listed party's are exactly those its detail view fetches, and an unlisted party has none |
| PartyRoutes.RuleTypeIsOwn | src/routes/party.routes.js:134-135 | with unique ids, each listed party is totalled by the rule of its own type |
| PartyRoutes.ListTotalsMatchDetail | src/routes/party.routes.js:130-149 | a listed party's totals are the rule over the same history its detail view shows, and are absent exactly when that history is empty |
| PartyRoutes.ListRowMatchesDetail | src/routes/party.routes.js:128-150 | with unique party ids, the list and the detail view agree for every listed party |
| TransactionRoutes.ValidateCreate | src/routes/transaction.routes.js:71-77 | the body is accepted exactly when it has a positive amount no larger than `Number.MAX_SAFE_INTEGER`, a direction of gave or got, and a date |
| TransactionRoutes.NewTransaction | src/routes/transaction.routes.js:84-93 | the record has the path's workspace and party and the caller as creator, keeps the given values, and stores the bill URL only when it is non-empty |
| TransactionRoutes.ValidatePatch | src/routes/transaction.routes.js:222-228 | the body is accepted exactly when it supplies at least one field, any amount is positive and no larger than `Number.MAX_SAFE_INTEGER`, and any direction is gave or got |
| TransactionRoutes.ApplyPatch | src/routes/transaction.routes.js:233 | an update never changes the id, workspace, party or creator; each of amount, direction, description, date and bill URL takes the supplied value when given and keeps the old one when omitted |
| TransactionRoutes.ApplyPatchIdempotent | src/routes/transaction.routes.js:233 | applying the same update twice gives the same record as applying it once |
| TransactionRoutes.FullPatchOverwrites | src/routes/transaction.routes.js:233 | an update supplying every field gives the same record whatever the old values were |
| TransactionRoutes.PatchKeepsAmountPositive | src/routes/transaction.routes.js:223 | an accepted update keeps the amount positive |
| TransactionRoutes.FindScoped | src/routes/transaction.routes.js:147 | the lookup finds the first record with that id in that workspace, and nothing exactly when there is none |
| TransactionRoutes.GetTx | src/routes/transaction.routes.js:144-153 | 404 exactly when the workspace holds no transaction with that id; otherwise a stored transaction with that id and workspace |
| TransactionRoutes.FoundIsTheRecord | src/routes/transaction.routes.js:147 | with unique ids, looking up a record by its own id in its own workspace returns that record |
| TransactionRoutes.OtherWorkspaceInvisible | src/routes/transaction.routes.js:147-148 | a transaction of another workspace gives 404 |
| TransactionRoutes.RemoveAt | src/routes/transaction.routes.js:271 | removing one position drops exactly that record and keeps every other in order |
| TransactionRoutes.CreateKeepsWellFormed | src/routes/transaction.routes.js:82-93 | adding an accepted record with a fresh id whose party exists in its workspace keeps ids unique, amounts positive and party references valid |
| TransactionRoutes.UpdateKeepsWellFormed | src/routes/transaction.routes.js:222-233 | overwriting a record with an accepted update keeps the collection invariants |
| TransactionRoutes.DeleteKeepsWellFormed | src/routes/transaction.routes.js:271-273 | removing a record keeps the collection invariants |
| TransactionRoutes.MorePartiesKeepWellFormed | src/routes/party.routes.js:70 | creating a party never breaks a transaction's party reference |
| TransactionRoutes.GetAfterDelete | src/routes/transaction.routes.js:271-273 | after a delete the record reads as 404, and every other lookup is unchanged |
| TransactionRoutes.GetAfterUpdate | src/routes/transaction.routes.js:233-235 | after an update the record reads back as the updated record |
| TransactionRoutes.GetAfterCreate | src/routes/transaction.routes.js:84-94 | after a create the new record reads back from its workspace |
| TransactionRoutes.LocateScoped | src/routes/transaction.routes.js:147 | the scan returns the position the lookup specifies |
| TransactionRoutes.CreateTxOutcome | src/routes/transaction.routes.js:68-99 | gate first, then 400 on a bad body, then 404 exactly when the party is not in the path's workspace, then 409 exactly when the id is taken; an admitted caller with a valid body, a party of the workspace and a fresh id succeeds, with the record the create builds |
| TransactionRoutes.GetTxOutcome | src/routes/transaction.routes.js:144-153 | gate first, then 404 exactly when the workspace holds no such transaction; an admitted caller asking for a stored id of the workspace gets that record |
| TransactionRoutes.UpdateTxOutcome | src/routes/transaction.routes.js:219-240 | gate first, then 400 on a bad body, then 404 exactly when not found in the workspace; an admitted caller with a valid update of a found record succeeds, with the found record updated |
| TransactionRoutes.DeleteTxOutcome | src/routes/transaction.routes.js:268-277 | gate first, then 404 exactly when not found in the workspace; an admitted caller deleting a found record succeeds, with that record |
| LedgerStore.Ledger.CreateWorkspace | src/routes/workspace.routes.js:51-72 | the store invariant is kept; on success exactly the new workspace is appended; on failure nothing changes |
| LedgerStore.Ledger.CreateParty | src/routes/party.routes.js:58-76 | the store invariant is kept; on success exactly the new party is appended; on failure nothing changes |
| LedgerStore.Ledger.CreateTransaction | src/routes/transaction.routes.js:68-99 | the store invariant is kept; on success exactly the new record is appended; on 400, 403 or 404 nothing changes |
| LedgerStore.Ledger.Home | src/routes/workspace.routes.js:149-172 | the gated home route |
| LedgerStore.Ledger.ListParties | src/routes/party.routes.js:124-155 | gate first, then one row per listed party with that party's id |
| LedgerStore.Ledger.PartyDetailRoute | src/routes/party.routes.js:200-216 | gate first, then the party detail |
| LedgerStore.Ledger.GetTransaction | src/routes/transaction.routes.js:144-153 | gate first, then the scoped lookup; nothing changes |
| LedgerStore.Ledger.UpdateTransaction | src/routes/transaction.routes.js:219-240 | the store invariant is kept; exactly the matched record is overwritten in place; on any error nothing changes |
| LedgerStore.Ledger.DeleteTransaction | src/routes/transaction.routes.js:268-277 | the store invariant is kept; exactly the matched record is removed and the rest keep their order; on any error nothing changes |

## Left out

- Authentication is not modelled: `requireAuth`, JWT signing and verification, and password hashing. The caller is an `Actor` parameter whose email may be absent.
- HTTP is not modelled: status codes become the `Error` values, and serialisation, rate limiting, CORS and Swagger are not part of the model.
- `src/routes/index.js` mounts only the health, docs and auth routes. The workspace, party and transaction routers are modelled as if mounted under `/api/workspaces`, as their documented paths say.
- The Joi `email()` check on invited members is not modelled. Invited addresses are arbitrary strings.
- The Joi `uri()` check on `billImageUrl` is not modelled.
- Date parsing by `Joi.date()` is not modelled. Dates are integers.
- Unknown body keys are not modelled. Joi rejects them, and the input datatypes carry only the schema's fields.
- ObjectId casting is not modelled. Ids are plain strings, so the 500 a malformed id causes is absent.
- Id generation is not modelled. New ids are parameters, and an id already in use is refused with `Conflict`, as a duplicate-key insert would be.
- Timestamps are parameters. `createdAt` is `now`; `updatedAt` is not modelled.
- The `.select(...)` projections are not modelled. The handlers read only the selected fields.
- Ordering.SortDesc: it fixes one order among equal keys, while MongoDB leaves ties unspecified. The contracts therefore state only "descending" and "a permutation".
- Lower-casing covers ASCII letters only (`Models.Lower`). Full Unicode case mapping is not modelled.
- Amounts are exact reals. JavaScript floating-point rounding in `+=` is not modelled.
- Concurrency is not modelled. In particular, the check-then-insert race between the party lookup and the transaction insert is absent.
- The Mongoose schema's `min: 0` on amounts is not modelled separately. The stricter Joi `positive()` governs both create and update, and `findOneAndUpdate` runs no schema validators.
- LedgerStore.Ledger.ListParties: states only the row count and ids. The full row contents are stated by `PartyRoutes.ListPartiesWithTotals`, which it calls.
- LedgerStore.Ledger.Home: states its result only through `WorkspaceRoutes.HomeRoute`. It models the gated route (see Findings), not the route as mounted.

## Findings

| source | as written | input that shows it | evidently intended | confidence | as-written member | corrected member |
|---|---|---|---|---|---|---|
| src/routes/workspace.routes.js:10 | the workspace router installs only `requireAuth`, so `GET /:workspaceId/home` returns any workspace's totals and recent transactions to any signed-in user | workspace `w1` owned by `u1` with no members; caller `u2` with an email; one transaction in `w1` | the home summary is guarded by `requireWorkspaceMember`, like every route of the party and transaction routers | likely; not executed | WorkspaceRoutes.OutsiderReadsHomeAsWritten | WorkspaceRoutes.HomeRoute |
