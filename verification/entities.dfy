/**
 * The persisted entities of the tutoring back end and the database state that
 * every workflow reads and replaces.
 *
 * Rows whose identifiers the database or a clock invents (subscriptions,
 * invoices, sessions, revenue shares) are keyed by a natural number drawn from
 * `nextKey`; honoraria are keyed by the renewal that created them and the tutor
 * they pay.  Orders, students, tutors, partners and packages keep their string ids.
 */
module Entities {
  import opened Wrappers
  import opened Dates

  type Id = string
  type Key = nat

  /** Order status; a new order starts as `NonApprove`. */
  datatype OrderStatus = NonApprove | Approve | Reject

  /** Session ("Jadwal") attendance status. */
  datatype Attendance = Present | PresentRequest | Absent | RescheduleRequest

  datatype SubscriptionStatus = Active | NonActive
  datatype PaymentStatus = Paid | Unpaid
  /** Status values of honoraria and revenue shares. */
  datatype PayoutStatus = Pending | PaidOut
  datatype PackageStatus = Aktif | Nonaktif
  /** Account status of tutors ("active" / "nonactive"). */
  datatype AccountStatus = AccountActive | AccountNonActive

  /** A package ("Paket"); prices are integer rupiah. */
  datatype Package = Package(
    totalSession: int,
    price: int,
    honorPrice: int,
    prosharePrice: int,
    status: PackageStatus)

  datatype Tutor = Tutor(status: AccountStatus, wallet: int)

  /** A student ("Siswa"); `mitraId` is the referring partner, if any. */
  datatype Student = Student(mitraId: Option<Id>, isFirstPurchase: bool)

  /** A partner ("Mitra"). */
  datatype Partner = Partner(wallet: int)

  datatype Order = Order(
    siswaId: Id,
    paketId: Id,
    tentorId: Option<Id>,
    meetingDay: seq<string>,
    time: TimeOfDay,
    mapel: seq<string>,
    status: OrderStatus)

  /** `currentOrderId` is optional because order approval never fills it in. */
  datatype Subscription = Subscription(
    siswaId: Id,
    currentOrderId: Option<Id>,
    paketId: Id,
    tentorId: Option<Id>,
    remainingSessions: int,
    status: SubscriptionStatus)

  /** One scheduled meeting. */
  datatype Session = Session(
    siswaId: Id,
    tentorId: Id,
    invoiceId: Key,
    subscriptionId: Key,
    date: int,
    dayName: string,
    time: TimeOfDay,
    status: Attendance)

  /**
   * One billing cycle.  `price`, `siswaId`, `transferProof` and `paymentDate`
   * are kept as the services write them, although the invoice model declares
   * no such columns.
   */
  datatype Invoice = Invoice(
    orderId: Id,
    subscriptionId: Key,
    paketId: Id,
    siswaId: Option<Id>,
    price: Option<int>,
    paymentStatus: PaymentStatus,
    transferProof: Option<string>,
    paymentDate: Option<Moment>)

  /** A tutor honorarium record. */
  datatype Honor = Honor(
    tentorId: Id,
    siswaId: Id,
    invoiceId: Key,
    total: int,
    status: PayoutStatus,
    paymentStatus: PayoutStatus,
    transferProof: Option<string>)

  /** A partner revenue-share record. */
  datatype Proshare = Proshare(
    mitraId: Id,
    siswaId: Id,
    invoiceId: Key,
    total: int,
    status: PayoutStatus,
    paymentStatus: PayoutStatus,
    transferProof: Option<string>)

  /** Honoraria created by one renewal are told apart by the tutor they pay. */
  datatype HonorKey = HonorKey(batch: Key, tentorId: Id)

  datatype State = State(
    orders: map<Id, Order>,
    subscriptions: map<Key, Subscription>,
    sessions: map<Key, Session>,
    invoices: map<Key, Invoice>,
    honors: map<HonorKey, Honor>,
    proshares: map<Key, Proshare>,
    pakets: map<Id, Package>,
    tentors: map<Id, Tutor>,
    siswas: map<Id, Student>,
    mitras: map<Id, Partner>,
    nextKey: Key)

  /** Every generated key in use lies below `nextKey`, so keys drawn from it are fresh. */
  ghost predicate WellFormed(s: State) {
    && (forall k :: k in s.subscriptions ==> k < s.nextKey)
    && (forall k :: k in s.sessions ==> k < s.nextKey)
    && (forall k :: k in s.invoices ==> k < s.nextKey)
    && (forall k :: k in s.proshares ==> k < s.nextKey)
    && (forall h :: h in s.honors ==> h.batch < s.nextKey)
  }

  /** The error a workflow throws; the enclosing transaction is rolled back. */
  datatype Error =
    | SessionNotFound
    | StudentNotFound
    | TutorNotFound
    | PackageNotFound
    | SubscriptionNotFound
    | InvoiceNotFound
    | OrderNotFound
    | HonorNotFound
    | ProshareNotFound
    | PartnerNotFound
    | AttendanceAlreadyRequested
    | NotPresentRequest
    | NotYetStarted
    | SubscriptionNotActive
    | PastSession
    | NotRescheduleRequest
    | InvalidMeetingDays
    | UnknownDayName(name: string)
    | SessionWithoutTutor
    | PackageUnavailable
    | TutorUnavailable
    | MeetingDayRequired
    | MapelRequired
    | AlreadyApproved
    | TimeRequired
    | DuplicateOrderId
    | NoOrders
    | InvalidPeriod

  /** A string column that JavaScript reads as truthy: present and non-empty. */
  predicate Truthy(v: Option<string>) {
    v.Some? && v.value != ""
  }

  /** The moment session `j` starts. */
  function SessionStart(j: Session): Moment {
    StartOf(j.date, j.time)
  }

  /** Adds `batch` under consecutive keys starting at `k`. */
  function AddBatch(m: map<Key, Session>, k: Key, batch: seq<Session>): (r: map<Key, Session>)
    decreases |batch|
    ensures forall i :: i in r <==> i in m || k <= i < k + |batch|
    ensures forall i :: k <= i < k + |batch| ==> r[i] == batch[i - k]
    ensures forall i :: i in m && !(k <= i < k + |batch|) ==> r[i] == m[i]
  {
    if |batch| == 0 then m else AddBatch(m[k := batch[0]], k + 1, batch[1..])
  }
}
