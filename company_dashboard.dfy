/** The collection company's dashboard: its assigned collections, the
    unassigned ones it may take, and the accept and complete transitions. */
module CompanyDashboard {
  import opened Types
  import opened Seqs
  import opened DataService
  import opened Completion

  /** `!c.companyId && c.status === "programada"`: offered to companies. A
      well-formed available collection has no completion time. */
  predicate IsAvailable(c: Collection): (r: bool)
    ensures r <==> (c.companyId.None? || c.companyId == Some("")) && c.status == Programada
    ensures r && WellFormed(c) ==> c.completedAt.None?
  {
    Unassigned(c) && c.status == Programada
  }

  /** The available collections, in stored order, each as many times as it
      is stored. */
  function Available(cs: seq<Collection>): (r: seq<Collection>)
    ensures forall c :: c in r <==> c in cs && Unassigned(c) && c.status == Programada
    ensures forall c :: multiset(r)[c] == if IsAvailable(c) then multiset(cs)[c] else 0
    ensures IsSubsequence(r, cs)
  {
    FilterMembers(cs, IsAvailable);
    FilterMultiplicity(cs, IsAvailable);
    FilterIsSubsequence(cs, IsAvailable);
    Filter(cs, IsAvailable)
  }

  /** `{ ...collection, companyId }`: the company takes the collection; no
      other field changes. */
  function Accept(c: Collection, companyId: string): (r: Collection)
    ensures r.companyId == Some(companyId)
    ensures r.(companyId := c.companyId) == c
    ensures WellFormed(c) ==> WellFormed(r)
    ensures companyId != "" ==> !IsAvailable(r)
  {
    c.(companyId := Some(companyId))
  }

  /** `{ ...collection, status: "completada", completedAt }`. */
  function Complete(c: Collection, now: Time): (r: Collection)
    ensures r.status == Completada && r.completedAt == Some(now)
    ensures r.(status := c.status, completedAt := c.completedAt) == c
    ensures WellFormed(r)
    ensures !CompleteOffered(r) && !IsAvailable(r)
  {
    c.(status := Completada, completedAt := Some(now))
  }

  /** The "Marcar Completada" button is shown exactly for a `programada`
      collection, accepted or not, so never for one already completed. */
  predicate CompleteOffered(c: Collection): (r: bool)
    ensures r <==> c.status == Programada
    ensures r ==> c.status != Completada
    ensures r && WellFormed(c) ==> c.completedAt.None?
    ensures IsAvailable(c) ==> r
  {
    c.status == Programada
  }

  /** The predicate `c => c.id !== id`. */
  function IdIsNot(id: string): Collection -> bool {
    KeyIsNot(CollectionId, id)
  }

  /** What the quick-stats cards show. */
  datatype CompanyStats = CompanyStats(
    assignedCount: nat,
    completed: nat,
    completionRate: int,
    available: nat,
    totalQuantity: int)

  class Dashboard {
    const user: User
    const store: LocalStorage
    var collections: seq<Collection>           // assigned to this company
    var availableCollections: seq<Collection>  // open for any company

    /** The effect on mount: the user's collections and the available ones. */
    constructor (user: User, store: LocalStorage)
      ensures this.user == user && this.store == store
      ensures collections == GetCollectionsByUserId(store, user.id)
      ensures availableCollections == Available(GetCollections(store))
    {
      this.user := user;
      this.store := store;
      collections := GetCollectionsByUserId(store, user.id);
      availableCollections := Available(GetCollections(store));
    }

    /** The in-memory available list is what a reload would show. */
    ghost predicate AvailableInSync()
      reads this, store
    {
      availableCollections == Available(GetCollections(store))
    }

    /** `handleAcceptCollection`: the first available collection with the id
        is saved with this company as its company, appended to the assigned
        list and dropped from the available list; an id not available
        changes nothing. */
    method AcceptCollection(collectionId: string)
      modifies this, store
      ensures var found := Find(old(availableCollections), CollectionId, collectionId);
              found.None? ==>
                collections == old(collections) &&
                availableCollections == old(availableCollections) &&
                store.collections == old(store.collections)
      ensures var found := Find(old(availableCollections), CollectionId, collectionId);
              found.Some? ==>
                collections == old(collections) + [Accept(found.value, user.id)] &&
                availableCollections == Filter(old(availableCollections), IdIsNot(collectionId)) &&
                store.collections ==
                  if store.hasWindow then Some(Upsert(old(GetCollections(store)), Accept(found.value, user.id), CollectionId))
                  else old(store.collections)
      ensures store.users == old(store.users) && store.reports == old(store.reports)
      ensures store.session == old(store.session)
      ensures Find(old(availableCollections), CollectionId, collectionId).Some? &&
              UniqueKeys(old(availableCollections), CollectionId) ==>
                |collections| == |old(collections)| + 1 &&
                |availableCollections| == |old(availableCollections)| - 1
      ensures old(AvailableInSync()) && store.hasWindow && user.id != "" &&
              UniqueKeys(old(GetCollections(store)), CollectionId) ==>
                AvailableInSync()
    {
      var found := Find(availableCollections, CollectionId, collectionId);
      if found.Some? {
        var updated := Accept(found.value, user.id);
        ghost var stored := GetCollections(store);
        SaveCollection(store, updated);
        collections := collections + [updated];
        if UniqueKeys(old(availableCollections), CollectionId) {
          FilterOutUniqueKey(availableCollections, CollectionId, collectionId);
        }
        ghost var before := availableCollections;
        availableCollections := Filter(availableCollections, IdIsNot(collectionId));
        if before == Available(stored) && store.hasWindow && user.id != "" && UniqueKeys(stored, CollectionId) {
          assert found.value in Available(stored);
          var i :| 0 <= i < |stored| && stored[i] == found.value;
          AcceptMatchesReload(stored, i, user.id);
        }
      }
    }

    /** `handleCompleteCollection`: the first assigned collection with the id
        is saved as completed now, and every assigned entry with that id is
        replaced by it; an id not assigned changes nothing. */
    method CompleteCollection(collectionId: string, now: Time)
      modifies this, store
      ensures availableCollections == old(availableCollections)
      ensures var found := Find(old(collections), CollectionId, collectionId);
              found.None? ==> collections == old(collections) && store.collections == old(store.collections)
      ensures var found := Find(old(collections), CollectionId, collectionId);
              found.Some? ==>
                collections == ReplaceWhere(old(collections), CollectionId, collectionId, Complete(found.value, now)) &&
                store.collections ==
                  if store.hasWindow then Some(Upsert(old(GetCollections(store)), Complete(found.value, now), CollectionId))
                  else old(store.collections)
      ensures store.users == old(store.users) && store.reports == old(store.reports)
      ensures store.session == old(store.session)
      ensures |collections| == |old(collections)|
      ensures var found := Find(old(collections), CollectionId, collectionId);
              found.Some? && UniqueKeys(old(collections), CollectionId) ==>
                collections == Upsert(old(collections), Complete(found.value, now), CollectionId)
    {
      var found := Find(collections, CollectionId, collectionId);
      if found.Some? {
        var updated := Complete(found.value, now);
        SaveCollection(store, updated);
        if UniqueKeys(collections, CollectionId) {
          ReplaceWhereIsUpsert(collections, CollectionId, collectionId, updated);
        }
        collections := ReplaceWhere(collections, CollectionId, collectionId, updated);
      }
    }

    /** The four quick-stats cards. */
    function Stats(): (r: CompanyStats)
      reads this
      ensures r.assignedCount == |collections| && r.available == |availableCollections|
      ensures r.completed == |InStatus(collections, Completada)| && r.completed <= r.assignedCount
      ensures r.completionRate == CompletionRate(collections) && 0 <= r.completionRate <= 100
      ensures collections != [] ==>
                2 * |collections| * r.completionRate <= 200 * r.completed + |collections|
                < 2 * |collections| * (r.completionRate + 1)
      ensures collections == [] ==> r.completionRate == 0
      ensures r.totalQuantity == SumOf(collections, Quantity)
    {
      CompanyStats(|collections|, CompletedCount(collections), CompletionRate(collections),
                   |availableCollections|, TotalQuantity(collections))
    }
  }

  /** Accepting the stored collection at `i` and upserting it gives a store
      whose available list is the old one without that id: the list the
      dashboard keeps after accepting is the one a reload would compute. */
  lemma AcceptMatchesReload(cs: seq<Collection>, i: nat, companyId: string)
    requires i < |cs| && UniqueKeys(cs, CollectionId)
    requires companyId != ""
    ensures Available(Upsert(cs, Accept(cs[i], companyId), CollectionId)) ==
            Filter(Available(cs), IdIsNot(cs[i].id))
  {
    var x := Accept(cs[i], companyId);
    var j := FindIndex(cs, CollectionId, x.id);
    assert j == i by {
      assert CollectionId(cs[i]) == x.id;
    }
    FilterUpdateRejected(cs, i, x, IsAvailable, CollectionId);
  }

  /** The lifecycle of one collection: created `programada` with no company,
      accepted by a company, completed. The record stays well formed, keeps
      its company, and leaves the available list at the first step. */
  lemma LifecycleWellFormed(c: Collection, companyId: string, now: Time)
    requires c.status == Programada && c.companyId.None? && c.completedAt.None?
    requires companyId != ""
    ensures IsAvailable(c) && CompleteOffered(c) && WellFormed(c)
    ensures !IsAvailable(Accept(c, companyId)) && CompleteOffered(Accept(c, companyId))
    ensures WellFormed(Complete(Accept(c, companyId), now))
    ensures Complete(Accept(c, companyId), now).companyId == Some(companyId)
    ensures !CompleteOffered(Complete(Accept(c, companyId), now))
  {
  }
}
