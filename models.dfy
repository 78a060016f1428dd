/** The records of the ledger (the Mongoose schemas under src/models): users, workspaces with their memberships,
    parties and transactions, and the error statuses the handlers answer with. */
module Models {
  import opened Wrappers

  /** A document id (an ObjectId in its string form). */
  type Id = string

  datatype PartyType = Customer | Supplier
  datatype Direction = Gave | Got
  datatype Role = Owner | Member

  /** One entry of a workspace's `members` array; `userEmail` is stored lower-cased. */
  datatype Membership = Membership(userEmail: string, role: Role)

  datatype Workspace = Workspace(id: Id, name: string, ownerId: Id, members: seq<Membership>, createdAt: int)

  datatype Party = Party(id: Id, workspaceId: Id, name: string, phone: Option<string>, ptype: PartyType, createdAt: int)

  /** A money event between the workspace and one of its parties; `date` is a timestamp in milliseconds. */
  datatype Transaction = Transaction(
    id: Id,
    workspaceId: Id,
    partyId: Id,
    amount: real,
    direction: Direction,
    description: Option<string>,
    date: int,
    billImageUrl: Option<string>,
    createdBy: Id)

  /** A registered user; the schema lower-cases `email` when it is saved. */
  datatype User = User(id: Id, email: string, name: string)

  /** The authenticated caller, as decoded from the bearer token (`req.user`). */
  datatype Actor = Actor(userId: Id, email: Option<string>)

  /** The HTTP error statuses of the core: 400, 404, 403, and a duplicate-key insert. */
  datatype Error = BadRequest | NotFound | Forbidden | Conflict

  /** JavaScript truthiness of an optional string: absent, null and "" are all falsy. */
  predicate Truthy(s: Option<string>) {
    s.Some? && s.value != ""
  }

  // ---------------------------------------------------------------- lower-casing

  predicate IsLowerChar(c: char) {
    !('A' <= c <= 'Z')
  }

  predicate IsLower(s: string) {
    forall i :: 0 <= i < |s| ==> IsLowerChar(s[i])
  }

  function LowerChar(c: char): (r: char)
    ensures IsLowerChar(r)
    ensures IsLowerChar(c) ==> r == c
  {
    if 'A' <= c <= 'Z' then (c as int + 32) as char else c
  }

  /** What the schema's `lowercase: true` does to a string before it is stored. */
  function Lower(s: string): (r: string)
    ensures |r| == |s| && IsLower(r)
    ensures forall i :: 0 <= i < |s| ==> r[i] == LowerChar(s[i])
  {
    if s == [] then [] else [LowerChar(s[0])] + Lower(s[1..])
  }

  /** Lower-casing is idempotent: a stored email is unchanged by a second save. */
  lemma {:induction false} LowerOfLower(s: string)
    ensures IsLower(s) ==> Lower(s) == s
  {
    if s != [] {
      LowerOfLower(s[1..]);
    }
  }

  /** A user as stored: the email has gone through the schema's lower-casing. */
  function StoredUser(id: Id, email: string, name: string): (u: User)
    ensures u.id == id && u.name == name
    ensures IsLower(u.email) && |u.email| == |email|
    ensures forall i | 0 <= i < |email| :: u.email[i] == LowerChar(email[i])
    ensures IsLower(email) ==> u.email == email
  {
    LowerOfLower(email);
    User(id, Lower(email), name)
  }

  /** The token payload signed at login or registration: `{ userId, email }` of the stored user, so the
      caller has a truthy email exactly when the stored one is not empty. */
  function ActorOf(u: User): (a: Actor)
    ensures a.userId == u.id && a.email == Some(u.email)
    ensures Truthy(a.email) <==> u.email != ""
  {
    Actor(u.id, Some(u.email))
  }

  // ---------------------------------------------------------------- string length

  /** `value.length` of a JavaScript string, which string-length rules such as `.min(2)` compare: the
      number of UTF-16 code units, so a character beyond U+FFFF (a surrogate pair) counts twice. */
  function Utf16Length(s: string): (n: nat)
    ensures |s| <= n <= 2 * |s|
    ensures n == |s| <==> forall i :: 0 <= i < |s| ==> s[i] as int <= 0xFFFF
  {
    if s == [] then 0
    else
      var rest := Utf16Length(s[1..]);
      assert forall i :: 0 < i < |s| ==> s[i] == s[1..][i - 1];
      (if s[0] as int > 0xFFFF then 2 else 1) + rest
  }

  // ---------------------------------------------------------------- enumerations

  function PartyTypeName(t: PartyType): string {
    match t
    case Customer => "customer"
    case Supplier => "supplier"
  }

  /** The `valid('customer', 'supplier')` check of the request schemas. */
  function ParsePartyType(s: string): (r: Option<PartyType>)
    ensures r.Some? <==> s == "customer" || s == "supplier"
    ensures r.Some? ==> PartyTypeName(r.value) == s
  {
    if s == "customer" then Some(Customer)
    else if s == "supplier" then Some(Supplier)
    else None
  }

  function DirectionName(d: Direction): string {
    match d
    case Gave => "gave"
    case Got => "got"
  }

  /** The `valid('gave', 'got')` check of the request schemas. */
  function ParseDirection(s: string): (r: Option<Direction>)
    ensures r.Some? <==> s == "gave" || s == "got"
    ensures r.Some? ==> DirectionName(r.value) == s
  {
    if s == "gave" then Some(Gave)
    else if s == "got" then Some(Got)
    else None
  }

  lemma EnumRoundTrips(t: PartyType, d: Direction)
    ensures ParsePartyType(PartyTypeName(t)) == Some(t)
    ensures ParseDirection(DirectionName(d)) == Some(d)
  {
  }

  // ---------------------------------------------------------------- collections

  /** The sort keys of the handlers' `.sort(...)` calls. */
  function DateOf(t: Transaction): int { t.date }
  function PartyCreatedAt(p: Party): int { p.createdAt }
  function WorkspaceCreatedAt(w: Workspace): int { w.createdAt }

  /** Document ids are unique within a collection. */
  predicate UniqueTxIds(s: seq<Transaction>) {
    forall i, j :: 0 <= i < j < |s| ==> s[i].id != s[j].id
  }

  predicate UniquePartyIds(s: seq<Party>) {
    forall i, j :: 0 <= i < j < |s| ==> s[i].id != s[j].id
  }

  predicate UniqueWorkspaceIds(s: seq<Workspace>) {
    forall i, j :: 0 <= i < j < |s| ==> s[i].id != s[j].id
  }

  /** `Number.MAX_SAFE_INTEGER`: the request schemas refuse any number beyond it (Joi's `number.unsafe`). */
  const MaxSafeInteger: real := 9007199254740991.0

  /** Every amount is strictly positive, as the request schemas demand. */
  predicate PositiveAmounts(txs: seq<Transaction>) {
    forall i :: 0 <= i < |txs| ==> txs[i].amount > 0.0
  }
}
