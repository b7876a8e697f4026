/**
 * The database the bot talks to: the three tables as fields, and one method
 * per ledger function, each SQL statement an assignment to the table it
 * updates. Every method is one transaction and keeps `Ledger.Consistent`.
 */
module Store {
  import opened Wrappers
  import opened Ledger

  class Database {
    var books: seq<Book>
    var users: map<UserId, User>
    var bookings: seq<Booking>

    function Snapshot(): Tables
      reads this
    {
      Tables(books, users, bookings)
    }

    ghost predicate Valid()
      reads this
    {
      Consistent(Snapshot())
    }

    /** The database after `init_db` on an empty store: the seed catalogue, no users, no bookings. */
    constructor Seeded()
      ensures Valid()
      ensures Snapshot() == SeededTables()
    {
      books := SeedCatalogue();
      users := map[];
      bookings := [];
    }

    /** `update_book_status`. */
    method UpdateBookStatus(title: Option<string>, office: Option<string>, status: Status)
      modifies this
      ensures books == SetStatus(old(books), title, office, status)
      ensures users == old(users) && bookings == old(bookings)
    {
      books := SetStatus(books, title, office, status);
    }

    /** `create_booking`: end time from the duration table, then the three updates. */
    method CreateBooking(uid: UserId, title: Option<string>, office: Option<string>, duration: string, now: int)
      returns (r: Result<Receipt, LedgerError>)
      requires Valid()
      modifies this
      ensures Valid()
      ensures var c := Ledger.CreateBooking(old(Snapshot()), uid, title, office, duration, now);
        r == c.result && Snapshot() == c.after
    {
      ghost var before := Snapshot();
      CreateKeepsConsistent(before, uid, title, office, duration, now);
      var end: int;
      if duration == HourTier {
        end := now + MinutesPerHour;
      } else if duration == DayTier {
        end := now + MinutesPerDay;
      } else if duration == WeekTier {
        end := now + 7 * MinutesPerDay;
      } else if duration == MonthTier {
        end := now + 30 * MinutesPerDay;
      } else {
        return Failure(UnknownDuration);
      }
      if title.None? {
        return Failure(NullTitle);
      }
      if office.None? {
        return Failure(NullOffice);
      }
      if uid !in users {
        return Failure(UnknownUser);
      }
      UpdateBookStatus(title, office, Booked);
      var id := |bookings| + 1;
      bookings := bookings + [Booking(id, uid, title.value, office.value, now, duration, end, Active)];
      users := users[uid := Holding(users[uid], title.value, duration, now, end)];
      r := Success(Receipt(id, end));
    }

    /** `complete_booking`: the book back to available, the user's loan cleared, the booking completed. */
    method CompleteBooking(uid: UserId, title: Option<string>, office: Option<string>)
      requires Valid()
      modifies this
      ensures Valid()
      ensures Snapshot() == Ledger.CompleteBooking(old(Snapshot()), uid, title, office)
    {
      ghost var before := Snapshot();
      CompleteKeepsConsistent(before, uid, title, office);
      UpdateBookStatus(title, office, Available);
      if uid in users {
        users := users[uid := Released(users[uid])];
      }
      bookings := CloseBookings(bookings, uid, title);
    }

    /** `register_user`. */
    method RegisterUser(uid: UserId, first: string, last: string)
      requires Valid()
      modifies this
      ensures Valid()
      ensures Snapshot() == Register(old(Snapshot()), uid, first, last)
    {
      RegisterKeepsConsistent(Snapshot(), uid, first, last);
      if uid in users {
        users := users[uid := users[uid].(firstName := first, lastName := last)];
      } else {
        users := users[uid := NewUser(first, last)];
      }
    }

    /** `update_user_office`. */
    method UpdateUserOffice(uid: UserId, office: string)
      requires Valid()
      modifies this
      ensures Valid()
      ensures Snapshot() == SetOffice(old(Snapshot()), uid, office)
    {
      SetOfficeKeepsConsistent(Snapshot(), uid, office);
      if uid in users {
        users := users[uid := users[uid].(office := Some(office))];
      }
    }
  }
}
