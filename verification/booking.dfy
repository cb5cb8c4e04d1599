/**
 A model of the fitness-class booking service: a catalog of class sessions
 whose remaining capacity is decremented by bookings, an append-only ledger
 of bookings, and the three request handlers (list classes, book a class,
 list a client's bookings).

 Everything that the service delegates to libraries is a parameter here:
 the email validator (`emailOk`), the time-zone lookup (`zoneOk`) and the
 rendering of a stored time in another zone (`render`). Fresh identifiers
 and the booking time are inputs as well.
 */
module FitnessBooking {

  datatype Option<+T> = None | Some(value: T)

  /** The errors a handler reports to its caller. */
  datatype Error = MissingField | InvalidEmail | InvalidTimeZone | ClassNotFound | NoSlotsAvailable

  datatype Result<+T> = Ok(value: T) | Err(error: Error)

  /** A wall-clock time in the reference zone (Asia/Kolkata). */
  datatype DateTime = DateTime(year: int, month: int, day: int, hour: int, minute: int)

  const ReferenceZone: string := "Asia/Kolkata"

  /** One scheduled class session of the catalog. */
  datatype ClassSession = ClassSession(
    id: string,
    name: string,
    scheduledAt: DateTime,
    instructor: string,
    totalSlots: int,
    availableSlots: int)

  /** What the listing exposes of a session: everything but its total capacity. */
  datatype ClassView = ClassView(
    id: string,
    name: string,
    datetime: string,
    instructor: string,
    availableSlots: int)

  /** One successful reservation; never changed once in the ledger. */
  datatype Booking = Booking(
    id: string,
    classId: string,
    clientName: string,
    clientEmail: string,
    bookedAt: string)

  /** The three fields of a booking request body, each possibly absent. */
  datatype BookRequest = BookRequest(
    classId: Option<string>,
    clientName: Option<string>,
    clientEmail: Option<string>)

  /** The whole service state: the catalog and the ledger. */
  datatype State = State(catalog: seq<ClassSession>, ledger: seq<Booking>)

  /** The result of a booking request together with the state it leaves. */
  datatype Outcome = Outcome(result: Result<Booking>, next: State)

  // ---------------------------------------------------------------------
  // Seed data
  // ---------------------------------------------------------------------

  /** The three classes the service starts with, each with all slots free. */
  function SeedCatalog(yogaId: string, zumbaId: string, hiitId: string): (c: seq<ClassSession>)
    ensures |c| == 3
    ensures forall i :: 0 <= i < |c| ==> 0 < c[i].totalSlots && c[i].availableSlots == c[i].totalSlots
    ensures c[0].id == yogaId && c[1].id == zumbaId && c[2].id == hiitId
  {
    [ ClassSession(yogaId, "Yoga", DateTime(2025, 6, 21, 7, 0), "Alice", 10, 10),
      ClassSession(zumbaId, "Zumba", DateTime(2025, 6, 21, 9, 0), "Bob", 15, 15),
      ClassSession(hiitId, "HIIT", DateTime(2025, 6, 21, 18, 0), "Charlie", 12, 12) ]
  }

  // ---------------------------------------------------------------------
  // Request fields
  // ---------------------------------------------------------------------

  /** A request field counts as given when it is present and not the empty string. */
  predicate Present(f: Option<string>) {
    f.Some? && f.value != ""
  }

  predicate AllPresent(req: BookRequest) {
    Present(req.classId) && Present(req.clientName) && Present(req.clientEmail)
  }

  // ---------------------------------------------------------------------
  // Catalog lookup
  // ---------------------------------------------------------------------

  predicate HasClass(catalog: seq<ClassSession>, id: string) {
    exists i :: 0 <= i < |catalog| && catalog[i].id == id
  }

  /** `i` is the position of the first session of the catalog with the given id. */
  predicate FirstWithId(catalog: seq<ClassSession>, id: string, i: int) {
    0 <= i < |catalog| && catalog[i].id == id &&
    forall j :: 0 <= j < i ==> catalog[j].id != id
  }

  /** The position of the first session with the given id, if any. */
  function FindClass(catalog: seq<ClassSession>, id: string): (r: Option<nat>)
    ensures r.Some? ==> FirstWithId(catalog, id, r.value)
    ensures r.None? <==> !HasClass(catalog, id)
  {
    if catalog == [] then None
    else if catalog[0].id == id then Some(0)
    else match FindClass(catalog[1..], id)
      case None => None
      case Some(k) => Some(k + 1)
  }

  // ---------------------------------------------------------------------
  // Ledger queries
  // ---------------------------------------------------------------------

  /** The number of bookings in the ledger for the given class. */
  function CountFor(ledger: seq<Booking>, classId: string): nat {
    if ledger == [] then 0
    else (if ledger[0].classId == classId then 1 else 0) + CountFor(ledger[1..], classId)
  }

  /** The bookings made with exactly this email (no normalisation), in ledger order. */
  function BookingsFor(ledger: seq<Booking>, email: string): (r: seq<Booking>)
    ensures |r| <= |ledger|
    ensures forall b :: b in r <==> b in ledger && b.clientEmail == email
    ensures (forall k :: 0 <= k < |ledger| ==> ledger[k].clientEmail != email) ==> r == []
  {
    if ledger == [] then []
    else (if ledger[0].clientEmail == email then [ledger[0]] else []) + BookingsFor(ledger[1..], email)
  }

  lemma {:induction false} CountForAppend(ledger: seq<Booking>, b: Booking, classId: string)
    ensures CountFor(ledger + [b], classId) == CountFor(ledger, classId) + (if b.classId == classId then 1 else 0)
  {
    if ledger != [] {
      assert (ledger + [b])[1..] == ledger[1..] + [b];
      CountForAppend(ledger[1..], b, classId);
    }
  }

  /** Appending a booking adds it at the end of its own client's query result and
      leaves every other client's result as it was. */
  lemma {:induction false} BookingsForAppend(ledger: seq<Booking>, b: Booking, email: string)
    ensures BookingsFor(ledger + [b], email)
         == BookingsFor(ledger, email) + (if b.clientEmail == email then [b] else [])
  {
    if ledger == [] {
      assert BookingsFor([b], email) == (if b.clientEmail == email then [b] else []) + BookingsFor([], email);
    } else {
      assert (ledger + [b])[1..] == ledger[1..] + [b];
      BookingsForAppend(ledger[1..], b, email);
    }
  }

  // ---------------------------------------------------------------------
  // Service invariant
  // ---------------------------------------------------------------------

  predicate FreshBookingId(ledger: seq<Booking>, id: string) {
    forall k :: 0 <= k < |ledger| ==> ledger[k].id != id
  }

  /** What holds of the state at all times: distinct class ids, capacity within bounds,
      every used slot accounted for by exactly one booking, every booking naming an
      existing class, and distinct booking ids. */
  predicate Consistent(s: State) {
    (forall i, j :: 0 <= i < j < |s.catalog| ==> s.catalog[i].id != s.catalog[j].id) &&
    (forall i :: 0 <= i < |s.catalog| ==>
       0 <= s.catalog[i].availableSlots <= s.catalog[i].totalSlots &&
       s.catalog[i].totalSlots - s.catalog[i].availableSlots == CountFor(s.ledger, s.catalog[i].id)) &&
    (forall k :: 0 <= k < |s.ledger| ==> HasClass(s.catalog, s.ledger[k].classId)) &&
    (forall k, m :: 0 <= k < m < |s.ledger| ==> s.ledger[k].id != s.ledger[m].id)
  }

  lemma SeedConsistent(yogaId: string, zumbaId: string, hiitId: string)
    requires yogaId != zumbaId && zumbaId != hiitId && yogaId != hiitId
    ensures Consistent(State(SeedCatalog(yogaId, zumbaId, hiitId), []))
  {
  }

  // ---------------------------------------------------------------------
  // Booking
  // ---------------------------------------------------------------------

  /** The booking handler as a state transition. The guards run in order: missing
      field, invalid email, unknown class, no free slot; every failure leaves the
      state unchanged, and success takes one slot of the first session with the
      requested id and appends the new booking to the ledger. */
  function BookClass(s: State, req: BookRequest, emailOk: string -> bool,
                     bookingId: string, bookedAt: string): (out: Outcome)
    ensures out.result == Err(MissingField) <==> !AllPresent(req)
    ensures out.result == Err(InvalidEmail) <==>
      AllPresent(req) && !emailOk(req.clientEmail.value)
    ensures out.result == Err(ClassNotFound) <==>
      AllPresent(req) && emailOk(req.clientEmail.value) && !HasClass(s.catalog, req.classId.value)
    ensures out.result == Err(NoSlotsAvailable) <==>
      AllPresent(req) && emailOk(req.clientEmail.value) &&
      exists i :: FirstWithId(s.catalog, req.classId.value, i) && s.catalog[i].availableSlots <= 0
    ensures out.result.Ok? <==>
      AllPresent(req) && emailOk(req.clientEmail.value) &&
      exists i :: FirstWithId(s.catalog, req.classId.value, i) && s.catalog[i].availableSlots > 0
    ensures out.result.Err? ==> out.next == s
    ensures out.result.Ok? ==>
      AllPresent(req) &&
      out.result.value == Booking(bookingId, req.classId.value, req.clientName.value,
                                  req.clientEmail.value, bookedAt) &&
      out.next.ledger == s.ledger + [out.result.value] &&
      exists i :: FirstWithId(s.catalog, req.classId.value, i) && s.catalog[i].availableSlots > 0 &&
        out.next.catalog == s.catalog[i := s.catalog[i].(availableSlots := s.catalog[i].availableSlots - 1)]
  {
    if !AllPresent(req) then Outcome(Err(MissingField), s)
    else if !emailOk(req.clientEmail.value) then Outcome(Err(InvalidEmail), s)
    else match FindClass(s.catalog, req.classId.value)
      case None => Outcome(Err(ClassNotFound), s)
      case Some(i) =>
        if s.catalog[i].availableSlots <= 0 then Outcome(Err(NoSlotsAvailable), s)
        else
          var booking := Booking(bookingId, req.classId.value, req.clientName.value,
                                 req.clientEmail.value, bookedAt);
          var session := s.catalog[i].(availableSlots := s.catalog[i].availableSlots - 1);
          Outcome(Ok(booking), State(s.catalog[i := session], s.ledger + [booking]))
  }

  /** Booking, successful or not, keeps the service invariant. */
  lemma BookClassPreservesConsistent(s: State, req: BookRequest, emailOk: string -> bool,
                                     bookingId: string, bookedAt: string)
    requires Consistent(s) && FreshBookingId(s.ledger, bookingId)
    ensures Consistent(BookClass(s, req, emailOk, bookingId, bookedAt).next)
  {
    var out := BookClass(s, req, emailOk, bookingId, bookedAt);
    if out.result.Ok? {
      var b := out.result.value;
      var i :| FirstWithId(s.catalog, b.classId, i) && s.catalog[i].availableSlots > 0 &&
        out.next.catalog == s.catalog[i := s.catalog[i].(availableSlots := s.catalog[i].availableSlots - 1)];
      var c' := out.next.catalog;
      forall j | 0 <= j < |c'|
        ensures 0 <= c'[j].availableSlots <= c'[j].totalSlots
        ensures c'[j].totalSlots - c'[j].availableSlots == CountFor(out.next.ledger, c'[j].id)
      {
        CountForAppend(s.ledger, b, s.catalog[j].id);
      }
      forall k | 0 <= k < |out.next.ledger|
        ensures HasClass(c', out.next.ledger[k].classId)
      {
        if k < |s.ledger| {
          assert out.next.ledger[k] == s.ledger[k];
          var m :| 0 <= m < |s.catalog| && s.catalog[m].id == s.ledger[k].classId;
          assert c'[m].id == s.catalog[m].id;
        } else {
          assert c'[i].id == b.classId;
        }
      }
    }
  }

  /** A booking shows up at the end of its client's query result and nowhere else. */
  lemma BookClassQueryEffect(s: State, req: BookRequest, emailOk: string -> bool,
                             bookingId: string, bookedAt: string, email: string)
    ensures var out := BookClass(s, req, emailOk, bookingId, bookedAt);
      BookingsFor(out.next.ledger, email) ==
        if out.result.Ok? && req.clientEmail.value == email
        then BookingsFor(s.ledger, email) + [out.result.value]
        else BookingsFor(s.ledger, email)
  {
    var out := BookClass(s, req, emailOk, bookingId, bookedAt);
    if out.result.Ok? {
      BookingsForAppend(s.ledger, out.result.value, email);
    }
  }

  /** The results of a run of booking requests and the state it leaves. */
  datatype Run = Run(results: seq<Result<Booking>>, last: State)

  /** The same booking request sent once per given booking id, one after another. */
  function BookRepeatedly(s: State, req: BookRequest, emailOk: string -> bool,
                          bookingIds: seq<string>, bookedAt: string): Run
    decreases |bookingIds|
  {
    if bookingIds == [] then Run([], s)
    else
      var out := BookClass(s, req, emailOk, bookingIds[0], bookedAt);
      var rest := BookRepeatedly(out.next, req, emailOk, bookingIds[1..], bookedAt);
      Run([out.result] + rest.results, rest.last)
  }

  /** Repeated valid requests for one class succeed exactly as long as it has free
      slots, each taking one, and are refused with no-slots-available afterwards. */
  lemma {:induction false} RepeatedBookingExhaustsClass(
    s: State, req: BookRequest, emailOk: string -> bool,
    bookingIds: seq<string>, bookedAt: string, i: nat)
    requires AllPresent(req) && emailOk(req.clientEmail.value)
    requires FirstWithId(s.catalog, req.classId.value, i) && 0 <= s.catalog[i].availableSlots
    ensures var run := BookRepeatedly(s, req, emailOk, bookingIds, bookedAt);
      var free := s.catalog[i].availableSlots;
      |run.results| == |bookingIds| &&
      (forall k :: 0 <= k < |bookingIds| ==>
         (run.results[k].Ok? <==> k < free) &&
         (run.results[k].Err? ==> run.results[k].error == NoSlotsAvailable)) &&
      |run.last.catalog| == |s.catalog| &&
      run.last.catalog[i] ==
        s.catalog[i].(availableSlots := if |bookingIds| <= free then free - |bookingIds| else 0) &&
      (forall j :: 0 <= j < |s.catalog| && j != i ==> run.last.catalog[j] == s.catalog[j]) &&
      |run.last.ledger| == |s.ledger| + (if |bookingIds| <= free then |bookingIds| else free) &&
      run.last.ledger[..|s.ledger|] == s.ledger
    decreases |bookingIds|
  {
    if bookingIds != [] {
      var id := req.classId.value;
      var free := s.catalog[i].availableSlots;
      var out := BookClass(s, req, emailOk, bookingIds[0], bookedAt);
      var rest := BookRepeatedly(out.next, req, emailOk, bookingIds[1..], bookedAt);
      assert FindClass(s.catalog, id) == Some(i);
      if free > 0 {
        assert out.next.catalog == s.catalog[i := s.catalog[i].(availableSlots := free - 1)];
        assert out.next.ledger[..|s.ledger|] == s.ledger;
      } else {
        assert out.result == Err(NoSlotsAvailable) && out.next == s;
      }
      assert FirstWithId(out.next.catalog, id, i);
      RepeatedBookingExhaustsClass(out.next, req, emailOk, bookingIds[1..], bookedAt, i);
      assert rest.last.ledger[..|s.ledger|] == s.ledger by {
        assert rest.last.ledger[..|out.next.ledger|] == out.next.ledger;
        assert |s.ledger| <= |out.next.ledger|;
      }
    }
  }

  // ---------------------------------------------------------------------
  // Listing
  // ---------------------------------------------------------------------

  /** The requested zone, or the reference zone when none is given. */
  function ZoneOrDefault(timezone: Option<string>): string {
    if timezone.Some? then timezone.value else ReferenceZone
  }

  function View(c: ClassSession, zone: string, render: (DateTime, string) -> string): ClassView {
    ClassView(c.id, c.name, render(c.scheduledAt, zone), c.instructor, c.availableSlots)
  }

  // ---------------------------------------------------------------------
  // The service object
  // ---------------------------------------------------------------------

  class BookingService {
    var classes: seq<ClassSession>
    var bookings: seq<Booking>

    ghost predicate Valid()
      reads this
    {
      Consistent(State(classes, bookings))
    }

    /** The service at start-up: the three seed classes and no bookings. Class ids
        come from a random-id generator and are taken to be distinct. */
    constructor (yogaId: string, zumbaId: string, hiitId: string)
      requires yogaId != zumbaId && zumbaId != hiitId && yogaId != hiitId
      ensures Valid()
      ensures classes == SeedCatalog(yogaId, zumbaId, hiitId) && bookings == []
    {
      classes := SeedCatalog(yogaId, zumbaId, hiitId);
      bookings := [];
      SeedConsistent(yogaId, zumbaId, hiitId);
    }

    /** Handles a booking request: checks the fields, the email and the class, then
        takes one slot in place and appends the booking to the ledger. */
    method Book(req: BookRequest, emailOk: string -> bool, bookingId: string, bookedAt: string)
      returns (r: Result<Booking>)
      requires Valid() && FreshBookingId(bookings, bookingId)
      modifies this
      ensures Valid()
      ensures var out := BookClass(old(State(classes, bookings)), req, emailOk, bookingId, bookedAt);
        r == out.result && State(classes, bookings) == out.next
    {
      BookClassPreservesConsistent(State(classes, bookings), req, emailOk, bookingId, bookedAt);
      if !Present(req.classId) || !Present(req.clientName) || !Present(req.clientEmail) {
        return Err(MissingField);
      }
      var classId, clientName, clientEmail := req.classId.value, req.clientName.value, req.clientEmail.value;
      if !emailOk(clientEmail) {
        return Err(InvalidEmail);
      }
      var found := FindClass(classes, classId);
      if found.None? {
        return Err(ClassNotFound);
      }
      var i := found.value;
      if classes[i].availableSlots <= 0 {
        return Err(NoSlotsAvailable);
      }
      classes := classes[i := classes[i].(availableSlots := classes[i].availableSlots - 1)];
      var booking := Booking(bookingId, classId, clientName, clientEmail, bookedAt);
      bookings := bookings + [booking];
      r := Ok(booking);
    }

    /** Handles a bookings query: the email must be given and valid; the answer is
        every booking made with exactly that email, in the order they were made. */
    function GetBookings(email: Option<string>, emailOk: string -> bool): (r: Result<seq<Booking>>)
      reads this`bookings
      ensures r == Err(MissingField) <==> !Present(email)
      ensures r == Err(InvalidEmail) <==> Present(email) && !emailOk(email.value)
      ensures Present(email) && emailOk(email.value) ==> r == Ok(BookingsFor(bookings, email.value))
    {
      if !Present(email) then Err(MissingField)
      else if !emailOk(email.value) then Err(InvalidEmail)
      else Ok(BookingsFor(bookings, email.value))
    }

    /** Handles a listing request: the zone defaults to the reference zone and must be
        known; the answer has one view per class, in catalog order. */
    method GetClasses(timezone: Option<string>, zoneOk: string -> bool,
                      render: (DateTime, string) -> string)
      returns (r: Result<seq<ClassView>>)
      ensures r.Err? <==> !zoneOk(ZoneOrDefault(timezone))
      ensures r.Err? ==> r.error == InvalidTimeZone
      ensures r.Ok? ==> |r.value| == |classes|
      ensures r.Ok? ==> forall j :: 0 <= j < |classes| ==>
        r.value[j] == View(classes[j], ZoneOrDefault(timezone), render)
    {
      var zone := ZoneOrDefault(timezone);
      if !zoneOk(zone) {
        return Err(InvalidTimeZone);
      }
      var views: seq<ClassView> := [];
      for k := 0 to |classes|
        invariant |views| == k
        invariant forall j :: 0 <= j < k ==> views[j] == View(classes[j], zone, render)
      {
        views := views + [View(classes[k], zone, render)];
      }
      r := Ok(views);
    }
  }
}
