/**
 * The three tables of the library (`books`, `users`, `bookings`) as values,
 * and every SQL statement of the booking functions as a function from the
 * tables before to the tables after. Times are whole minutes.
 */
module Ledger {
  import opened Wrappers
  import opened Text

  type UserId = int

  /** The `status` column of `books` and of `users`: 'available' or 'booked'. */
  datatype Status = Available | Booked

  datatype Book = Book(title: string, author: string, office: string, status: Status)

  /** A row of `users`; the four loan columns are NULL unless a book is held. */
  datatype User = User(
    firstName: string,
    lastName: string,
    office: Option<string>,
    currentBook: Option<string>,
    bookingStart: Option<int>,
    bookingDuration: Option<string>,
    bookingEnd: Option<int>,
    status: Status)

  /** The `status` column of `bookings`: 'active' or 'completed'. */
  datatype BookingStatus = Active | Completed

  /** A row of `bookings`; `id` is the SERIAL key, 1 for the first row. */
  datatype Booking = Booking(
    id: nat,
    userId: UserId,
    title: string,
    office: string,
    start: int,
    duration: string,
    end: int,
    status: BookingStatus)

  datatype Tables = Tables(books: seq<Book>, users: map<UserId, User>, bookings: seq<Booking>)

  /** A `(title, author)` row returned by the book lookups. */
  datatype Listing = Listing(title: string, author: string)

  /** The row of `get_user_booking`. */
  datatype Loan = Loan(currentBook: Option<string>, start: Option<int>, duration: Option<string>, end: Option<int>)

  /** The row of `get_user_info`. */
  datatype Profile = Profile(firstName: string, lastName: string, office: Option<string>)

  /** What `create_booking` returns: the new booking's id and its end time. */
  datatype Receipt = Receipt(bookingId: nat, end: int)

  /**
   * Why `create_booking` raises: a duration outside the table leaves the end
   * time unbound; a NULL title or office breaks a NOT NULL column; an unknown
   * user breaks the foreign key of `bookings.user_id`.
   */
  datatype LedgerError = UnknownDuration | NullTitle | NullOffice | UnknownUser

  datatype Created = Created(result: Result<Receipt, LedgerError>, after: Tables)

  const MinutesPerHour: int := 60
  const MinutesPerDay: int := 1440

  const HourTier: string := "1 час"
  const DayTier: string := "1 день"
  const WeekTier: string := "1 неделя"
  const MonthTier: string := "1 месяц"

  predicate IsTier(d: string) {
    d == HourTier || d == DayTier || d == WeekTier || d == MonthTier
  }

  /** The end of a booking that starts at `start`; only the four durations have one. */
  function EndTime(start: int, duration: string): (r: Option<int>)
    ensures r.Some? <==> IsTier(duration)
    ensures r.Some? ==> start + MinutesPerHour <= r.value <= start + 30 * MinutesPerDay
  {
    if duration == HourTier then Some(start + MinutesPerHour)
    else if duration == DayTier then Some(start + MinutesPerDay)
    else if duration == WeekTier then Some(start + 7 * MinutesPerDay)
    else if duration == MonthTier then Some(start + 30 * MinutesPerDay)
    else None
  }

  /** One hour, one day, one week and thirty days, shortest to longest. */
  lemma EndTimeTable(start: int)
    ensures EndTime(start, HourTier) == Some(start + 60)
    ensures EndTime(start, DayTier) == Some(start + 24 * 60)
    ensures EndTime(start, WeekTier) == Some(start + 7 * 24 * 60)
    ensures EndTime(start, MonthTier) == Some(start + 30 * 24 * 60)
  {
  }

  // ---------------------------------------------------------------- books

  /** `LOWER(title) = LOWER($title) AND office = $office`; a NULL parameter matches no row. */
  predicate Matches(b: Book, title: Option<string>, office: Option<string>) {
    title.Some? && office.Some? && Lower(b.title) == Lower(title.value) && b.office == office.value
  }

  /** `update_book_status`: every matching row gets `status`, every other row is untouched. */
  function SetStatus(books: seq<Book>, title: Option<string>, office: Option<string>, status: Status): (r: seq<Book>)
    ensures |r| == |books|
    ensures forall i :: 0 <= i < |books| && Matches(books[i], title, office) ==> r[i] == books[i].(status := status)
    ensures forall i :: 0 <= i < |books| && !Matches(books[i], title, office) ==> r[i] == books[i]
  {
    if books == [] then []
    else
      [if Matches(books[0], title, office) then books[0].(status := status) else books[0]]
      + SetStatus(books[1..], title, office, status)
  }

  function ListingOf(b: Book): Listing {
    Listing(b.title, b.author)
  }

  predicate OnShelf(b: Book, office: string) {
    b.office == office && b.status == Available
  }

  /** `get_books_by_office`: the available books of exactly that office, in the order of the modelled table. */
  function AvailableIn(books: seq<Book>, office: string): (r: seq<Listing>)
    ensures |r| <= |books|
    ensures forall l :: l in r <==> exists b :: b in books && OnShelf(b, office) && l == ListingOf(b)
  {
    if books == [] then []
    else
      var rest := AvailableIn(books[1..], office);
      assert forall b :: b in books[1..] ==> b in books;
      assert forall b :: b in books ==> b == books[0] || b in books[1..];
      (if OnShelf(books[0], office) then [ListingOf(books[0])] else []) + rest
  }

  /**
   * The listing keeps every row of the query, duplicates included, in the
   * order of the modelled table: it distributes over a split of the table, and one book gives its
   * own listing exactly when it is on the shelf of that office.
   */
  lemma {:induction false} AvailableInAppend(a: seq<Book>, b: seq<Book>, office: string)
    ensures AvailableIn(a + b, office) == AvailableIn(a, office) + AvailableIn(b, office)
    decreases |a|
  {
    if a == [] {
      assert a + b == b;
    } else {
      var head := if OnShelf(a[0], office) then [ListingOf(a[0])] else [];
      assert (a + b)[0] == a[0];
      assert (a + b)[1..] == a[1..] + b;
      assert AvailableIn(a, office) == head + AvailableIn(a[1..], office);
      assert AvailableIn(a + b, office) == head + AvailableIn(a[1..] + b, office);
      AvailableInAppend(a[1..], b, office);
    }
  }

  lemma AvailableInOne(b: Book, office: string)
    ensures AvailableIn([b], office) == if OnShelf(b, office) then [ListingOf(b)] else []
  {
    assert [b][1..] == [];
  }

  predicate AvailableMatch(b: Book, title: string, office: string) {
    Lower(b.title) == Lower(title) && b.office == office && b.status == Available
  }

  /** `book_exists_in_office`: an available book of that office (here the first) whose title equals `title` up to case. */
  function FindAvailable(books: seq<Book>, title: string, office: string): (r: Option<Listing>)
    ensures r.Some? <==> exists b :: b in books && AvailableMatch(b, title, office)
    ensures r.Some? ==> exists b :: b in books && AvailableMatch(b, title, office) && r.value == ListingOf(b)
  {
    if books == [] then None
    else if AvailableMatch(books[0], title, office) then Some(ListingOf(books[0]))
    else
      assert forall b :: b in books ==> b == books[0] || b in books[1..];
      FindAvailable(books[1..], title, office)
  }

  // ---------------------------------------------------------------- users

  /** The row `register_user` inserts for a new id. */
  function NewUser(first: string, last: string): User {
    User(first, last, None, None, None, None, None, Available)
  }

  /**
   * `register_user`: an upsert. A new id gets a fresh available row without
   * office or loan; an existing row changes its names and nothing else.
   */
  function Register(t: Tables, uid: UserId, first: string, last: string): (r: Tables)
    ensures r.books == t.books && r.bookings == t.bookings
    ensures r.users.Keys == t.users.Keys + {uid}
    ensures r.users[uid].firstName == first && r.users[uid].lastName == last
    ensures uid !in t.users ==> r.users[uid] == NewUser(first, last)
    ensures uid in t.users ==>
      var (old_, new_) := (t.users[uid], r.users[uid]);
      new_.office == old_.office && new_.currentBook == old_.currentBook
      && new_.bookingStart == old_.bookingStart && new_.bookingDuration == old_.bookingDuration
      && new_.bookingEnd == old_.bookingEnd && new_.status == old_.status
    ensures forall u :: u in t.users && u != uid ==> r.users[u] == t.users[u]
  {
    var row := if uid in t.users then t.users[uid].(firstName := first, lastName := last) else NewUser(first, last);
    t.(users := t.users[uid := row])
  }

  /** `update_user_office`: sets the office of an existing row; an unknown id changes nothing. */
  function SetOffice(t: Tables, uid: UserId, office: string): (r: Tables)
    ensures r.books == t.books && r.bookings == t.bookings
    ensures r.users.Keys == t.users.Keys
    ensures uid in t.users ==> r.users[uid] == t.users[uid].(office := Some(office))
    ensures forall u :: u in t.users && u != uid ==> r.users[u] == t.users[u]
  {
    if uid in t.users then t.(users := t.users[uid := t.users[uid].(office := Some(office))]) else t
  }

  /** `get_user_info`. */
  function UserInfo(t: Tables, uid: UserId): (r: Option<Profile>)
    ensures r.Some? <==> uid in t.users
    ensures r.Some? ==> r.value.firstName == t.users[uid].firstName && r.value.lastName == t.users[uid].lastName
    ensures r.Some? ==> r.value.office == t.users[uid].office
  {
    if uid in t.users then
      var u := t.users[uid];
      Some(Profile(u.firstName, u.lastName, u.office))
    else None
  }

  /** `get_user_booking`: the loan columns, only for a user whose status is 'booked'. */
  function UserBooking(t: Tables, uid: UserId): (r: Option<Loan>)
    ensures r.Some? <==> uid in t.users && t.users[uid].status == Booked
    ensures r.Some? ==> r.value.currentBook == t.users[uid].currentBook
    ensures r.Some? ==>
      && r.value.start == t.users[uid].bookingStart
      && r.value.duration == t.users[uid].bookingDuration
      && r.value.end == t.users[uid].bookingEnd
  {
    if uid in t.users && t.users[uid].status == Booked then
      var u := t.users[uid];
      Some(Loan(u.currentBook, u.bookingStart, u.bookingDuration, u.bookingEnd))
    else None
  }

  // ---------------------------------------------------------------- bookings

  /** The user row after `create_booking` binds the loan to it. */
  function Holding(u: User, title: string, duration: string, start: int, end: int): User {
    u.(currentBook := Some(title), bookingStart := Some(start), bookingDuration := Some(duration),
       bookingEnd := Some(end), status := Booked)
  }

  /**
   * `create_booking`, as one transaction: flip the matching books to booked
   * (without looking at their status), append one active booking, bind the
   * loan to the user. Fails, changing nothing, for a duration outside the
   * table, a NULL title or office, or an unknown user.
   */
  function CreateBooking(t: Tables, uid: UserId, title: Option<string>, office: Option<string>,
                         duration: string, now: int): (r: Created)
    ensures r.result.Success? <==> IsTier(duration) && title.Some? && office.Some? && uid in t.users
    ensures r.result.Failure? ==> r.after == t
    ensures r.result.Success? ==>
      var (t', id, end) := (r.after, r.result.value.bookingId, r.result.value.end);
      && EndTime(now, duration) == Some(end)
      && id == |t.bookings| + 1
      && |t'.books| == |t.books|
      && (forall i :: 0 <= i < |t.books| && Matches(t.books[i], title, office) ==> t'.books[i] == t.books[i].(status := Booked))
      && (forall i :: 0 <= i < |t.books| && !Matches(t.books[i], title, office) ==> t'.books[i] == t.books[i])
      && t'.bookings == t.bookings + [Booking(id, uid, title.value, office.value, now, duration, end, Active)]
      && t'.users.Keys == t.users.Keys
      && t'.users[uid] == Holding(t.users[uid], title.value, duration, now, end)
      && (forall u :: u in t.users && u != uid ==> t'.users[u] == t.users[u])
  {
    match EndTime(now, duration)
    case None => Created(Failure(UnknownDuration), t)
    case Some(end) =>
      if title.None? then Created(Failure(NullTitle), t)
      else if office.None? then Created(Failure(NullOffice), t)
      else if uid !in t.users then Created(Failure(UnknownUser), t)
      else
        var id := |t.bookings| + 1;
        var booking := Booking(id, uid, title.value, office.value, now, duration, end, Active);
        var after := Tables(
          SetStatus(t.books, title, office, Booked),
          t.users[uid := Holding(t.users[uid], title.value, duration, now, end)],
          t.bookings + [booking]);
        Created(Success(Receipt(id, end)), after)
  }

  /** The rows `complete_booking` marks completed: that user's active bookings with exactly that title. */
  predicate Closes(b: Booking, uid: UserId, title: Option<string>) {
    b.userId == uid && title.Some? && b.title == title.value && b.status == Active
  }

  function CloseBookings(bookings: seq<Booking>, uid: UserId, title: Option<string>): (r: seq<Booking>)
    ensures |r| == |bookings|
    ensures forall i :: 0 <= i < |bookings| && Closes(bookings[i], uid, title) ==> r[i] == bookings[i].(status := Completed)
    ensures forall i :: 0 <= i < |bookings| && !Closes(bookings[i], uid, title) ==> r[i] == bookings[i]
  {
    if bookings == [] then []
    else
      [if Closes(bookings[0], uid, title) then bookings[0].(status := Completed) else bookings[0]]
      + CloseBookings(bookings[1..], uid, title)
  }

  /** The user row after `complete_booking`: loan columns NULL, status available, names and office kept. */
  function Released(u: User): User {
    u.(currentBook := None, bookingStart := None, bookingDuration := None, bookingEnd := None, status := Available)
  }

  /**
   * `complete_booking`, as one transaction: flip the matching books to
   * available, clear the user's loan, complete that user's active bookings
   * of that title. It never fails.
   */
  function CompleteBooking(t: Tables, uid: UserId, title: Option<string>, office: Option<string>): (r: Tables)
    ensures |r.books| == |t.books|
    ensures forall i :: 0 <= i < |t.books| && Matches(t.books[i], title, office) ==> r.books[i] == t.books[i].(status := Available)
    ensures forall i :: 0 <= i < |t.books| && !Matches(t.books[i], title, office) ==> r.books[i] == t.books[i]
    ensures r.users.Keys == t.users.Keys
    ensures uid in t.users ==> r.users[uid] == Released(t.users[uid])
    ensures forall u :: u in t.users && u != uid ==> r.users[u] == t.users[u]
    ensures |r.bookings| == |t.bookings|
    ensures forall i :: 0 <= i < |t.bookings| ==>
      r.bookings[i] == if Closes(t.bookings[i], uid, title) then t.bookings[i].(status := Completed) else t.bookings[i]
  {
    Tables(
      SetStatus(t.books, title, office, Available),
      if uid in t.users then t.users[uid := Released(t.users[uid])] else t.users,
      CloseBookings(t.bookings, uid, title))
  }

  // ---------------------------------------------------------------- invariant

  /** A user row either holds no loan, or holds one whose end follows from its start and duration. */
  predicate WellFormedUser(u: User) {
    || (u.status == Available && u.currentBook.None? && u.bookingStart.None?
        && u.bookingDuration.None? && u.bookingEnd.None?)
    || (u.status == Booked && u.currentBook.Some? && u.bookingStart.Some? && u.bookingDuration.Some?
        && EndTime(u.bookingStart.value, u.bookingDuration.value) == u.bookingEnd)
  }

  /** The `i`-th booking carries SERIAL id `i + 1` and an end that follows from its start and duration. */
  predicate WellFormedBooking(i: int, b: Booking) {
    b.id == i + 1 && EndTime(b.start, b.duration) == Some(b.end)
  }

  /** `b` is the active booking behind the loan recorded on user `uid`'s row. */
  predicate Records(b: Booking, uid: UserId, u: User) {
    b.status == Active && b.userId == uid && u.currentBook == Some(b.title)
    && u.bookingStart == Some(b.start) && u.bookingDuration == Some(b.duration) && u.bookingEnd == Some(b.end)
  }

  predicate HasRecord(bookings: seq<Booking>, uid: UserId, u: User) {
    exists i :: 0 <= i < |bookings| && Records(bookings[i], uid, u)
  }

  /**
   * What every ledger operation keeps: well-formed user and booking rows, and
   * behind every booked user an active booking with the same loan.
   */
  predicate Consistent(t: Tables) {
    && (forall uid :: uid in t.users ==> WellFormedUser(t.users[uid]))
    && (forall i :: 0 <= i < |t.bookings| ==> WellFormedBooking(i, t.bookings[i]))
    && (forall uid :: uid in t.users && t.users[uid].status == Booked ==> HasRecord(t.bookings, uid, t.users[uid]))
  }

  lemma RegisterKeepsConsistent(t: Tables, uid: UserId, first: string, last: string)
    requires Consistent(t)
    ensures Consistent(Register(t, uid, first, last))
  {
    var r := Register(t, uid, first, last);
    forall u | u in r.users && r.users[u].status == Booked
      ensures HasRecord(r.bookings, u, r.users[u])
    {
      var i :| 0 <= i < |t.bookings| && Records(t.bookings[i], u, t.users[u]);
      assert Records(r.bookings[i], u, r.users[u]);
    }
  }

  lemma SetOfficeKeepsConsistent(t: Tables, uid: UserId, office: string)
    requires Consistent(t)
    ensures Consistent(SetOffice(t, uid, office))
  {
    var r := SetOffice(t, uid, office);
    forall u | u in r.users && r.users[u].status == Booked
      ensures HasRecord(r.bookings, u, r.users[u])
    {
      var i :| 0 <= i < |t.bookings| && Records(t.bookings[i], u, t.users[u]);
      assert Records(r.bookings[i], u, r.users[u]);
    }
  }

  lemma CreateKeepsConsistent(t: Tables, uid: UserId, title: Option<string>, office: Option<string>,
                              duration: string, now: int)
    requires Consistent(t)
    ensures Consistent(CreateBooking(t, uid, title, office, duration, now).after)
  {
    var c := CreateBooking(t, uid, title, office, duration, now);
    if c.result.Success? {
      var r := c.after;
      var n := |t.bookings|;
      forall i | 0 <= i < |r.bookings|
        ensures WellFormedBooking(i, r.bookings[i])
      {
        if i < n { assert r.bookings[i] == t.bookings[i]; }
      }
      forall u | u in r.users && r.users[u].status == Booked
        ensures HasRecord(r.bookings, u, r.users[u])
      {
        if u == uid {
          assert Records(r.bookings[n], u, r.users[u]);
        } else {
          var i :| 0 <= i < n && Records(t.bookings[i], u, t.users[u]);
          assert r.bookings[i] == t.bookings[i];
          assert Records(r.bookings[i], u, r.users[u]);
        }
      }
    }
  }

  lemma CompleteKeepsConsistent(t: Tables, uid: UserId, title: Option<string>, office: Option<string>)
    requires Consistent(t)
    ensures Consistent(CompleteBooking(t, uid, title, office))
  {
    var r := CompleteBooking(t, uid, title, office);
    forall i | 0 <= i < |r.bookings|
      ensures WellFormedBooking(i, r.bookings[i])
    {
      assert WellFormedBooking(i, t.bookings[i]);
    }
    forall u | u in r.users && r.users[u].status == Booked
      ensures HasRecord(r.bookings, u, r.users[u])
    {
      assert u != uid;
      var i :| 0 <= i < |t.bookings| && Records(t.bookings[i], u, t.users[u]);
      assert !Closes(t.bookings[i], uid, title);
      assert Records(r.bookings[i], u, r.users[u]);
    }
  }

  // ---------------------------------------------------------------- round trip

  /**
   * Booking a book and returning it puts the books and the user back as they
   * were and leaves the new booking in the ledger, completed; the tables
   * differ from the start only by that completed row.
   */
  lemma {:induction false} CreateThenComplete(t: Tables, uid: UserId, title: string, office: string,
                                              duration: string, now: int)
    requires Consistent(t)
    requires uid in t.users && t.users[uid].status == Available
    requires IsTier(duration)
    requires forall i :: 0 <= i < |t.books| && Matches(t.books[i], Some(title), Some(office)) ==> t.books[i].status == Available
    requires forall i :: 0 <= i < |t.bookings| ==> !Closes(t.bookings[i], uid, Some(title))
    ensures
      var c := CreateBooking(t, uid, Some(title), Some(office), duration, now);
      && c.result.Success?
      && CompleteBooking(c.after, uid, Some(title), Some(office))
         == t.(bookings := t.bookings + [Booking(|t.bookings| + 1, uid, title, office, now, duration,
                                                  c.result.value.end, Completed)])
  {
    var c := CreateBooking(t, uid, Some(title), Some(office), duration, now);
    var end := c.result.value.end;
    var r := CompleteBooking(c.after, uid, Some(title), Some(office));
    var expected := t.(bookings := t.bookings + [Booking(|t.bookings| + 1, uid, title, office, now, duration, end, Completed)]);
    assert r.books == expected.books by {
      forall i | 0 <= i < |t.books| ensures r.books[i] == t.books[i] {
        if Matches(t.books[i], Some(title), Some(office)) {
          assert Matches(c.after.books[i], Some(title), Some(office));
        } else {
          assert !Matches(c.after.books[i], Some(title), Some(office));
        }
      }
    }
    assert r.users == expected.users by {
      assert WellFormedUser(t.users[uid]);
      assert r.users[uid] == t.users[uid];
    }
    assert r.bookings == expected.bookings by {
      forall i | 0 <= i < |t.bookings| ensures r.bookings[i] == t.bookings[i] {
        assert c.after.bookings[i] == t.bookings[i];
      }
    }
  }

  /**
   * `create_booking` does not look at the book's status: with the book
   * already booked, a second user's booking of the same title still
   * succeeds, and both bookings are then active.
   */
  lemma {:induction false} CreateDoesNotRecheck(t: Tables, a: UserId, b: UserId, title: string, office: string,
                                                duration: string, now: int)
    requires a in t.users && b in t.users && IsTier(duration)
    ensures
      var c1 := CreateBooking(t, a, Some(title), Some(office), duration, now);
      var c2 := CreateBooking(c1.after, b, Some(title), Some(office), duration, now);
      && c1.result.Success? && c2.result.Success?
      && |c2.after.bookings| == |t.bookings| + 2
      && c2.after.bookings[|t.bookings|].status == Active && c2.after.bookings[|t.bookings|].userId == a
      && c2.after.bookings[|t.bookings| + 1].status == Active && c2.after.bookings[|t.bookings| + 1].userId == b
  {
    var c1 := CreateBooking(t, a, Some(title), Some(office), duration, now);
    var c2 := CreateBooking(c1.after, b, Some(title), Some(office), duration, now);
    assert c2.after.bookings[|t.bookings|] == c1.after.bookings[|t.bookings|];
  }

  // ---------------------------------------------------------------- seed

  /** The catalogue `init_db` seeds into an empty `books` table. */
  function SeedCatalogue(): seq<Book> {
    [ Book("книга а", "автор А", "Stone Towers", Available),
      Book("книга в", "автор В", "Stone Towers", Available),
      Book("книга с", "автор С", "Stone Towers", Available),
      Book("книга d", "автор D", "Manhatten", Available),
      Book("книга е", "автор E", "Manhatten", Available),
      Book("книга x", "автор Х", "Известия", Available),
      Book("книга z", "автор Z", "Известия", Available),
      Book("книга y", "автор У", "Известия", Available) ]
  }

  function SeededTables(): (t: Tables)
    ensures Consistent(t)
  {
    Tables(SeedCatalogue(), map[], [])
  }
}
