/** The record store (`DataService`): users, collections and reports kept
    under one browser-storage key each, read back whole on every call and
    rewritten whole on every save. */
module DataService {
  import opened Types
  import opened Seqs
  import opened Grouping
  import opened Completion

  /** The browser storage as this application uses it. `hasWindow` is false
      when there is no browser window (server-side rendering): then nothing
      can be read or written. A key that holds nothing is `None`. */
  class LocalStorage {
    const hasWindow: bool
    const seedUsers: seq<User>
    const seedCollections: seq<Collection>
    const seedReports: seq<Report>
    var users: Option<seq<User>>              // "waste-collection-users"
    var collections: Option<seq<Collection>>  // "waste-collection-collections"
    var reports: Option<seq<Report>>          // "waste-collection-reports"
    var session: Option<string>               // "waste-collection-auth": the user id

    constructor (hasWindow: bool, seedUsers: seq<User>, seedCollections: seq<Collection>,
                 seedReports: seq<Report>, users: Option<seq<User>>,
                 collections: Option<seq<Collection>>, reports: Option<seq<Report>>,
                 session: Option<string>)
      ensures this.hasWindow == hasWindow
      ensures this.seedUsers == seedUsers && this.seedCollections == seedCollections
      ensures this.seedReports == seedReports
      ensures this.users == users && this.collections == collections
      ensures this.reports == reports && this.session == session
    {
      this.hasWindow := hasWindow;
      this.seedUsers := seedUsers;
      this.seedCollections := seedCollections;
      this.seedReports := seedReports;
      this.users := users;
      this.collections := collections;
      this.reports := reports;
      this.session := session;
    }
  }

  // ----- users -----

  /** The stored users, or the seed users when there is no window or
      nothing is stored. */
  function GetUsers(st: LocalStorage): (r: seq<User>)
    reads st
    ensures !st.hasWindow || st.users.None? ==> r == st.seedUsers
    ensures st.hasWindow && st.users.Some? ==> r == st.users.value
  {
    if st.hasWindow && st.users.Some? then st.users.value else st.seedUsers
  }

  /** The first user with the given id. */
  function GetUserById(st: LocalStorage, id: string): (r: Option<User>)
    reads st
    ensures r.Some? <==> exists i :: 0 <= i < |GetUsers(st)| && GetUsers(st)[i].id == id
    ensures r.Some? ==> r.value.id == id && r.value in GetUsers(st)
    ensures r.Some? ==>
              exists i :: 0 <= i < |GetUsers(st)| && GetUsers(st)[i] == r.value &&
                forall j :: 0 <= j < i ==> GetUsers(st)[j].id != id
  {
    Find(GetUsers(st), UserId, id)
  }

  /** The first user with the given email. */
  function GetUserByEmail(st: LocalStorage, email: string): (r: Option<User>)
    reads st
    ensures r.Some? <==> exists i :: 0 <= i < |GetUsers(st)| && GetUsers(st)[i].email == email
    ensures r.Some? ==> r.value.email == email && r.value in GetUsers(st)
    ensures r.Some? ==>
              exists i :: 0 <= i < |GetUsers(st)| && GetUsers(st)[i] == r.value &&
                forall j :: 0 <= j < i ==> GetUsers(st)[j].email != email
  {
    Find(GetUsers(st), UserEmail, email)
  }

  /** Replaces the first stored user with the same id, or appends; a no-op
      without a window. */
  method SaveUser(st: LocalStorage, user: User)
    modifies st
    ensures st.users == if st.hasWindow then Some(Upsert(old(GetUsers(st)), user, UserId)) else old(st.users)
    ensures st.collections == old(st.collections) && st.reports == old(st.reports)
    ensures st.session == old(st.session)
    ensures st.hasWindow ==> GetUserById(st, user.id) == Some(user)
  {
    if !st.hasWindow {
      return;
    }
    var users := GetUsers(st);
    var index := FindIndex(users, UserId, user.id);
    if index >= 0 {
      users := users[index := user];
    } else {
      users := users + [user];
    }
    st.users := Some(users);
    UpsertThenFind(old(GetUsers(st)), user, UserId);
  }

  // ----- collections -----

  /** The stored collections, or the seed collections when there is no
      window or nothing is stored. */
  function GetCollections(st: LocalStorage): (r: seq<Collection>)
    reads st
    ensures !st.hasWindow || st.collections.None? ==> r == st.seedCollections
    ensures st.hasWindow && st.collections.Some? ==> r == st.collections.value
  {
    if st.hasWindow && st.collections.Some? then st.collections.value else st.seedCollections
  }

  /** The predicate "the user is the collection's client or its company". */
  function InvolvesUser(userId: string): Collection -> bool {
    (c: Collection) => c.clientId == userId || c.companyId == Some(userId)
  }

  /** The collections whose client or company is `userId`, in stored order. */
  function GetCollectionsByUserId(st: LocalStorage, userId: string): (r: seq<Collection>)
    reads st
    ensures forall c :: c in r <==>
              c in GetCollections(st) && (c.clientId == userId || c.companyId == Some(userId))
    ensures forall c :: multiset(r)[c] ==
              if c.clientId == userId || c.companyId == Some(userId) then multiset(GetCollections(st))[c] else 0
    ensures IsSubsequence(r, GetCollections(st))
  {
    FilterMembers(GetCollections(st), InvolvesUser(userId));
    FilterMultiplicity(GetCollections(st), InvolvesUser(userId));
    FilterIsSubsequence(GetCollections(st), InvolvesUser(userId));
    Filter(GetCollections(st), InvolvesUser(userId))
  }

  /** Replaces the first stored collection with the same id, or appends; a
      no-op without a window. */
  method SaveCollection(st: LocalStorage, collection: Collection)
    modifies st
    ensures st.collections ==
              if st.hasWindow then Some(Upsert(old(GetCollections(st)), collection, CollectionId))
              else old(st.collections)
    ensures st.users == old(st.users) && st.reports == old(st.reports)
    ensures st.session == old(st.session)
  {
    if !st.hasWindow {
      return;
    }
    var collections := GetCollections(st);
    var index := FindIndex(collections, CollectionId, collection.id);
    if index >= 0 {
      collections := collections[index := collection];
    } else {
      collections := collections + [collection];
    }
    st.collections := Some(collections);
  }

  // ----- reports -----

  /** The stored reports, or the seed reports when there is no window or
      nothing is stored. */
  function GetReports(st: LocalStorage): (r: seq<Report>)
    reads st
    ensures !st.hasWindow || st.reports.None? ==> r == st.seedReports
    ensures st.hasWindow && st.reports.Some? ==> r == st.reports.value
  {
    if st.hasWindow && st.reports.Some? then st.reports.value else st.seedReports
  }

  /** The predicate "the report belongs to `userId`". */
  function ReportOf(userId: string): Report -> bool {
    (x: Report) => x.userId == userId
  }

  /** The reports of `userId`, in stored order. */
  function GetReportsByUserId(st: LocalStorage, userId: string): (r: seq<Report>)
    reads st
    ensures forall x :: x in r <==> x in GetReports(st) && x.userId == userId
    ensures forall x :: multiset(r)[x] == if x.userId == userId then multiset(GetReports(st))[x] else 0
    ensures IsSubsequence(r, GetReports(st))
  {
    FilterMembers(GetReports(st), ReportOf(userId));
    FilterMultiplicity(GetReports(st), ReportOf(userId));
    FilterIsSubsequence(GetReports(st), ReportOf(userId));
    Filter(GetReports(st), ReportOf(userId))
  }

  // ----- statistics -----

  datatype CollectionStats = CollectionStats(
    totalCollections: nat,
    completedCollections: nat,
    totalQuantity: int,
    byType: Groups<WasteType>,
    byMonth: Groups<string>)

  /** The collections `generateCollectionStats` looks at: those of `userId`
      when one is given (a non-empty string), otherwise all of them. */
  function StatsScope(st: LocalStorage, userId: Option<string>): (r: seq<Collection>)
    reads st
    ensures userId.None? || userId.value == "" ==> r == GetCollections(st)
    ensures userId.Some? && userId.value != "" ==>
              forall c :: c in r <==> c in GetCollections(st) && InvolvesUser(userId.value)(c)
    ensures userId.Some? && userId.value != "" ==>
              forall c :: multiset(r)[c] ==
                if InvolvesUser(userId.value)(c) then multiset(GetCollections(st))[c] else 0
    ensures IsSubsequence(r, GetCollections(st))
  {
    SubsequenceOfSelf(GetCollections(st));
    if userId.Some? && userId.value != "" then GetCollectionsByUserId(st, userId.value)
    else GetCollections(st)
  }

  /** Counts, the quantity of completed collections, and the quantity of
      every collection grouped by waste type and by month. `monthOf` is the
      month label of a date (`toISOString().slice(0, 7)`). */
  function GenerateCollectionStats(st: LocalStorage, userId: Option<string>, monthOf: Time -> string)
    : (r: CollectionStats)
    reads st
    ensures r.totalCollections == |StatsScope(st, userId)|
    ensures r.completedCollections == |InStatus(StatsScope(st, userId), Completada)|
    ensures r.completedCollections <= r.totalCollections
    ensures r.totalQuantity == SumOf(Filter(StatsScope(st, userId), IsCompleted), Quantity)
    ensures DistinctKeys(r.byType) && DistinctKeys(r.byMonth)
    ensures KeySet(r.byType) == set c | c in StatsScope(st, userId) :: WasteTypeOf(c)
    ensures KeySet(r.byMonth) == set c | c in StatsScope(st, userId) :: MonthKey(monthOf)(c)
    ensures InFirstSeenOrder(r.byType, StatsScope(st, userId), WasteTypeOf)
    ensures InFirstSeenOrder(r.byMonth, StatsScope(st, userId), MonthKey(monthOf))
    ensures ValueSum(r.byType) == SumOf(StatsScope(st, userId), Quantity)
    ensures ValueSum(r.byMonth) == SumOf(StatsScope(st, userId), Quantity)
    ensures forall t :: Lookup(r.byType, t) == SumOf(Filter(StatsScope(st, userId), KeyIs(WasteTypeOf, t)), Quantity)
    ensures forall m :: Lookup(r.byMonth, m) == SumOf(Filter(StatsScope(st, userId), KeyIs(MonthKey(monthOf), m)), Quantity)
  {
    var cs := StatsScope(st, userId);
    var completed := Filter(cs, IsCompleted);
    var byType := GroupSum(cs, WasteTypeOf, Quantity);
    var byMonth := GroupSum(cs, MonthKey(monthOf), Quantity);
    assert forall t :: Lookup(byType, t) == SumOf(Filter(cs, KeyIs(WasteTypeOf, t)), Quantity) by {
      forall t ensures Lookup(byType, t) == SumOf(Filter(cs, KeyIs(WasteTypeOf, t)), Quantity) {
        GroupSumLookup(cs, WasteTypeOf, Quantity, t);
      }
    }
    assert forall m :: Lookup(byMonth, m) == SumOf(Filter(cs, KeyIs(MonthKey(monthOf), m)), Quantity) by {
      forall m ensures Lookup(byMonth, m) == SumOf(Filter(cs, KeyIs(MonthKey(monthOf), m)), Quantity) {
        GroupSumLookup(cs, MonthKey(monthOf), Quantity, m);
      }
    }
    assert |completed| == CompletedCount(cs);
    CollectionStats(|cs|, |completed|, SumOf(completed, Quantity), byType, byMonth)
  }
}
