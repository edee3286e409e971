/** The collection request form: the record built from the submitted fields
    and its save into the store. */
module CollectionForm {
  import opened Types
  import opened Seqs
  import opened DataService

  /** The submitted form fields. The waste-type select and the date, time,
      address and quantity inputs are `required`; the quantity input has
      `min="1"`. `notes` is the raw text area (possibly empty). */
  datatype FormData = FormData(
    wasteType: WasteType,
    scheduledDate: Time,
    scheduledTime: string,
    address: string,
    quantity: int,
    notes: string)

  /** `notes || undefined`: an empty text becomes absent. */
  function NotesOf(text: string): (r: Option<string>)
    ensures r.None? <==> text == ""
    ensures r.Some? ==> r.value == text
  {
    if text == "" then None else Some(text)
  }

  /** The form fields a collection record carries back; absent notes read as
      the empty text. */
  function FormOf(c: Collection): FormData {
    FormData(c.wasteType, c.scheduledDate, c.scheduledTime, c.address, c.quantity,
             if c.notes.Some? then c.notes.value else "")
  }

  /** The record `handleSubmit` builds: a fresh id and creation time, the
      client of the form, status `programada`, and neither a company nor a
      completion time. The form's fields round-trip through it. */
  function NewCollection(id: string, clientId: string, f: FormData, now: Time): (c: Collection)
    requires f.quantity >= 1
    ensures c.id == id && c.clientId == clientId && c.createdAt == now
    ensures c.status == Programada
    ensures c.companyId.None? && c.completedAt.None?
    ensures c.notes == NotesOf(f.notes)
    ensures c.quantity >= 1
    ensures WellFormed(c)
    ensures FormOf(c) == f
  {
    Collection(id, clientId, None, f.wasteType, f.scheduledDate, f.scheduledTime, f.address,
               f.quantity, Programada, NotesOf(f.notes), None, now)
  }

  /** `handleSubmit`: builds the record, saves it, and returns the record that
      is then handed to `onSubmit`. `id` and `now` come from the clock. */
  method HandleSubmit(st: LocalStorage, clientId: string, f: FormData, id: string, now: Time)
    returns (c: Collection)
    requires f.quantity >= 1
    modifies st
    ensures c == NewCollection(id, clientId, f, now)
    ensures st.collections ==
              if st.hasWindow then Some(Upsert(old(GetCollections(st)), c, CollectionId))
              else old(st.collections)
    ensures st.users == old(st.users) && st.reports == old(st.reports)
    ensures st.session == old(st.session)
    ensures st.hasWindow && (forall i :: 0 <= i < |old(GetCollections(st))| ==> old(GetCollections(st))[i].id != id) ==>
              GetCollections(st) == old(GetCollections(st)) + [c]
  {
    c := NewCollection(id, clientId, f, now);
    SaveCollection(st, c);
  }
}
