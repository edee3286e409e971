/** The client's dashboard: the client's own collections, the request form
    toggle, and the quick-stats cards. */
module ClientDashboard {
  import opened Types
  import opened Seqs
  import opened Text
  import opened DataService
  import opened Completion
  import opened CollectionForm

  /** What the quick-stats cards show. */
  datatype ClientStats = ClientStats(
    total: nat,
    completed: nat,
    completionRate: int,
    totalQuantity: int,
    upcoming: nat)

  /** `name.split(" ")[0]`: the greeting uses the text before the first
      space. */
  function FirstName(name: string): (r: string)
    ensures r <= name && ' ' !in r
    ensures ' ' !in name ==> r == name
    ensures ' ' in name ==> |r| < |name| && name[|r|] == ' '
  {
    BeforeFirst(name, ' ')
  }

  class Dashboard {
    const user: User
    const store: LocalStorage
    var collections: seq<Collection>
    var showForm: bool

    /** The effect on mount: the collections the user is client or company
        of; the form starts closed. */
    constructor (user: User, store: LocalStorage)
      ensures this.user == user && this.store == store
      ensures collections == GetCollectionsByUserId(store, user.id)
      ensures !showForm
    {
      this.user := user;
      this.store := store;
      collections := GetCollectionsByUserId(store, user.id);
      showForm := false;
    }

    /** The "Nueva Recolección" buttons. */
    method OpenForm()
      modifies this
      ensures showForm && collections == old(collections)
    {
      showForm := true;
    }

    /** The form's `onCancel`. */
    method CancelForm()
      modifies this
      ensures !showForm && collections == old(collections)
    {
      showForm := false;
    }

    /** `handleNewCollection`: the submitted collection is appended and the
        form closes. */
    method HandleNewCollection(c: Collection)
      modifies this
      ensures collections == old(collections) + [c]
      ensures |collections| == |old(collections)| + 1 && collections[..|old(collections)|] == old(collections)
      ensures !showForm
    {
      collections := collections + [c];
      showForm := false;
    }

    /** The in-memory list is what a reload would show. */
    ghost predicate InSync()
      reads this, store
    {
      collections == GetCollectionsByUserId(store, user.id)
    }

    /** The open form, wired with `clientId={user.id}` and
        `onSubmit={handleNewCollection}`: the new record is saved and then
        appended here. Under an id no stored collection has, the list stays
        what a reload would show. */
    method SubmitForm(f: FormData, id: string, now: Time) returns (c: Collection)
      requires f.quantity >= 1
      modifies this, store
      ensures c == NewCollection(id, user.id, f, now)
      ensures collections == old(collections) + [c] && !showForm
      ensures store.collections ==
                if store.hasWindow then Some(Upsert(old(GetCollections(store)), c, CollectionId))
                else old(store.collections)
      ensures store.users == old(store.users) && store.reports == old(store.reports)
      ensures store.session == old(store.session)
      ensures old(InSync()) && store.hasWindow &&
              (forall i :: 0 <= i < |old(GetCollections(store))| ==> old(GetCollections(store))[i].id != id) ==>
                InSync()
    {
      ghost var stored := GetCollections(store);
      c := HandleSubmit(store, user.id, f, id, now);
      HandleNewCollection(c);
      AppendOwnStaysInSync(stored, c, user.id);
    }

    /** The four quick-stats cards: "Próximas" counts the `programada`
        collections, which with the completed ones never exceed the total. */
    function Stats(): (r: ClientStats)
      reads this
      ensures r.total == |collections|
      ensures r.completed == |InStatus(collections, Completada)|
      ensures r.upcoming == |InStatus(collections, Programada)|
      ensures r.completed + r.upcoming <= r.total
      ensures r.completionRate == CompletionRate(collections) && 0 <= r.completionRate <= 100
      ensures collections != [] ==>
                2 * r.total * r.completionRate <= 200 * r.completed + r.total
                < 2 * r.total * (r.completionRate + 1)
      ensures collections == [] ==> r.completed == 0 && r.upcoming == 0 && r.completionRate == 0
      ensures r.totalQuantity == SumOf(collections, Quantity)
    {
      FilterDisjointCount(collections, IsCompleted, IsScheduled);
      StatusCount(collections, Programada);
      ClientStats(|collections|, CompletedCount(collections), CompletionRate(collections),
                  TotalQuantity(collections), |Filter(collections, IsScheduled)|)
    }
  }

  /** A collection the user is client of, appended to the store, is
      appended to the user's filtered list too. */
  lemma AppendOwnStaysInSync(stored: seq<Collection>, c: Collection, userId: string)
    requires c.clientId == userId
    ensures Filter(stored + [c], InvolvesUser(userId)) == Filter(stored, InvolvesUser(userId)) + [c]
  {
    FilterAppend(stored, [c], InvolvesUser(userId));
  }
}
