/** The records of the waste-collection dashboard: users, collection requests
    and reports, with the closed enumerations they use. Optional TypeScript
    fields (`phone?`, `companyId?`, ...) become `Option` values; a `Date` is an
    abstract point in time. */
module Types {

  datatype Option<+T> = None | Some(value: T)

  /** A `Date`, as milliseconds since the epoch. */
  type Time = int

  datatype Role = Admin | Cliente | EmpresaRecolectora

  datatype WasteType = Organicos | Reciclables | Peligrosos | General

  datatype Status = Programada | EnProceso | Completada | Cancelada

  datatype User = User(
    id: string,
    email: string,
    name: string,
    role: Role,
    phone: Option<string>,
    address: Option<string>,
    company: Option<string>,   // set for the empresa_recolectora role
    createdAt: Time)

  datatype Collection = Collection(
    id: string,
    clientId: string,
    companyId: Option<string>, // the collection company that accepted it
    wasteType: WasteType,
    scheduledDate: Time,
    scheduledTime: string,
    address: string,
    quantity: int,             // in kg
    status: Status,
    notes: Option<string>,
    completedAt: Option<Time>,
    createdAt: Time)

  datatype Report = Report(
    id: string,
    userId: string,
    collectionId: string,
    date: Time,
    location: string,
    quantity: int,
    wasteType: string,
    status: string,
    notes: Option<string>)

  /** The string each enumeration value has in the stored records. */
  function RoleKey(r: Role): string {
    match r
    case Admin => "admin"
    case Cliente => "cliente"
    case EmpresaRecolectora => "empresa_recolectora"
  }

  function WasteTypeKey(t: WasteType): string {
    match t
    case Organicos => "organicos"
    case Reciclables => "reciclables"
    case Peligrosos => "peligrosos"
    case General => "general"
  }

  function StatusKey(s: Status): string {
    match s
    case Programada => "programada"
    case EnProceso => "en_proceso"
    case Completada => "completada"
    case Cancelada => "cancelada"
  }

  // Field selectors, passed to the generic sequence operations.

  function UserId(u: User): string { u.id }

  function UserEmail(u: User): string { u.email }

  function CollectionId(c: Collection): string { c.id }

  function Quantity(c: Collection): int { c.quantity }

  function WasteTypeOf(c: Collection): WasteType { c.wasteType }

  function StatusOf(c: Collection): Status { c.status }

  /** The month label of a collection's scheduled date, given the labelling
      of dates. */
  function MonthKey(monthOf: Time -> string): Collection -> string {
    (c: Collection) => monthOf(c.scheduledDate)
  }

  predicate IsCompleted(c: Collection) { c.status == Completada }

  predicate IsScheduled(c: Collection) { c.status == Programada }

  /** JavaScript's `!c.companyId`: no company, or the empty string. */
  predicate Unassigned(c: Collection) {
    c.companyId.None? || c.companyId.value == ""
  }

  /** The lifecycle invariant of a collection: it carries a completion time
      exactly when its status is `completada`. */
  predicate WellFormed(c: Collection) {
    c.status == Completada <==> c.completedAt.Some?
  }
}
