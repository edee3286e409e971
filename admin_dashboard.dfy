/** The administrator's dashboard: every collection and every user, loaded
    once from the store (`getCollections`, `getUsers`), the quick-stats
    cards, and the client and company shown on each collection. */
module AdminDashboard {
  import opened Types
  import opened Seqs
  import opened Completion

  /** What the quick-stats cards show. */
  datatype AdminStats = AdminStats(
    total: nat,
    completed: nat,
    completionRate: int,
    userCount: nat,
    clients: nat,
    companies: nat,
    totalQuantity: int)

  /** The predicate `u => u.role === role`. */
  function HasRole(role: Role): User -> bool {
    (u: User) => u.role == role
  }

  /** The positions of `users` holding a user with role `role`. */
  ghost function WithRole(users: seq<User>, role: Role): set<int> {
    set i | 0 <= i < |users| && users[i].role == role
  }

  /** `users.filter(u => u.role === role).length` counts the users with that
      role. */
  lemma RoleCount(users: seq<User>, role: Role)
    ensures |Filter(users, HasRole(role))| == |WithRole(users, role)|
  {
    FilterLengthIsCount(users, HasRole(role));
    assert Positions(users, HasRole(role)) == WithRole(users, role);
  }

  /** The four cards over all collections and all users. */
  function Stats(collections: seq<Collection>, users: seq<User>): (r: AdminStats)
    ensures r.total == |collections|
    ensures r.completed == |InStatus(collections, Completada)| && r.completed <= r.total
    ensures r.completionRate == CompletionRate(collections) && 0 <= r.completionRate <= 100
    ensures collections != [] ==>
              2 * r.total * r.completionRate <= 200 * r.completed + r.total
              < 2 * r.total * (r.completionRate + 1)
    ensures collections == [] ==> r.completionRate == 0
    ensures r.userCount == |users|
    ensures r.clients == |WithRole(users, Cliente)|
    ensures r.companies == |WithRole(users, EmpresaRecolectora)|
    ensures r.clients + r.companies <= r.userCount
    ensures r.totalQuantity == SumOf(collections, Quantity)
  {
    FilterDisjointCount(users, HasRole(Cliente), HasRole(EmpresaRecolectora));
    RoleCount(users, Cliente);
    RoleCount(users, EmpresaRecolectora);
    AdminStats(|collections|, CompletedCount(collections), CompletionRate(collections),
               |users|, |Filter(users, HasRole(Cliente))|, |Filter(users, HasRole(EmpresaRecolectora))|,
               TotalQuantity(collections))
  }

  /** `users.find(u => u.id === collection.clientId)`. */
  function ClientOf(users: seq<User>, c: Collection): (r: Option<User>)
    ensures r.Some? <==> exists i :: 0 <= i < |users| && users[i].id == c.clientId
    ensures r.Some? ==> r.value.id == c.clientId
    ensures r.Some? ==>
              exists i :: 0 <= i < |users| && users[i] == r.value &&
                forall j :: 0 <= j < i ==> users[j].id != c.clientId
  {
    Find(users, UserId, c.clientId)
  }

  /** `users.find(u => u.id === collection.companyId)`: no user has an
      undefined id, so a collection without a company has none. */
  function CompanyOf(users: seq<User>, c: Collection): (r: Option<User>)
    ensures c.companyId.None? ==> r.None?
    ensures c.companyId.Some? ==> (r.Some? <==> exists i :: 0 <= i < |users| && users[i].id == c.companyId.value)
    ensures r.Some? ==> c.companyId == Some(r.value.id)
    ensures r.Some? ==>
              exists i :: 0 <= i < |users| && users[i] == r.value &&
                forall j :: 0 <= j < i ==> users[j].id != r.value.id
  {
    match c.companyId
    case None => None
    case Some(id) => Find(users, UserId, id)
  }

  /** `client?.name || "No asignado"`: a missing client, or one with an
      empty name, is shown as "No asignado". */
  function ClientLabel(client: Option<User>): (r: string)
    ensures r != ""
    ensures client.Some? && client.value.name != "" ==> r == client.value.name
    ensures client.None? || client.value.name == "" ==> r == "No asignado"
  {
    if client.Some? && client.value.name != "" then client.value.name else "No asignado"
  }

  /** `company.company || company.name`: the company name when set and
      non-empty, else the user's name. */
  function CompanyLabel(company: User): (r: string)
    ensures company.company.Some? && company.company.value != "" ==> r == company.company.value
    ensures company.company.None? || company.company.value == "" ==> r == company.name
    ensures r == "" ==> company.name == ""
  {
    if company.company.Some? && company.company.value != "" then company.company.value else company.name
  }

  /** The "Empresa" line of a collection's card: shown only when the company
      is found. */
  function CompanyLine(users: seq<User>, c: Collection): (r: Option<string>)
    ensures r.Some? <==> CompanyOf(users, c).Some?
    ensures c.companyId.None? ==> r.None?
    ensures r.Some? ==> r.value == CompanyLabel(CompanyOf(users, c).value)
  {
    match CompanyOf(users, c)
    case None => None
    case Some(company) => Some(CompanyLabel(company))
  }
}
