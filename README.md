# Library bot — a Dafny model

The library bot is a Telegram bot for the office libraries "Stone Towers",
"Manhatten" and "Известия". An employee registers with a first and last name,
picks an office, looks a book up by title (or asks for the list of available
books), confirms it, picks a loan duration (1 час, 1 день, 1 неделя, 1 месяц)
and later returns the book by sending a photo of it. A background sweep sends
reminders before and after a loan ends, and the library group is told about
every booking and return.

This project models three parts of `library_bot.py`:

- **the booking ledger** (`ledger.dfy`, `database.dfy`): the `books`, `users`
  and `bookings` tables and the SQL functions that read and write them.
  `Ledger` states each function as a pure function on the three tables.
  `Store.Database` is a class whose fields are the tables; it has one method
  per write, and each method is proved to produce exactly the tables of its
  `Ledger` function. `Ledger.Consistent` is the invariant every write keeps:
  a user row is either free or holds a loan with all four loan columns set, a
  booking's id is its position plus one, its end time follows from its
  duration, and every user who holds a book has a booking row recording that
  loan.
- **the conversation** (`dialog.dfy`): the `UserStates` machine.
  - `Dialog.Step` picks the handler an update reaches, following the order in
    which the handlers are registered.
  - `Dialog.Apply` carries out the handler's single database request.
  - `Dialog.Bot.Handle` does both, on the database and on the per-user
    session store.
- **the reminders** (`reminders.dfy`): which reminder, if any, one loan is
  due at a given time, and one pass of the sweep over the fetched rows.

Support modules:

- `text.dfy` holds the string operations the handlers rely on: SQL `LOWER`,
  Python's `str.strip`, `str.split()`, `" ".join`, `str.replace` and decimal
  formatting.
- `booklist.dfy` formats the book list.
- `wrappers.dfy` holds `Option` and `Result`.

Conventions:

- Time is a whole number of minutes. The date of a time is its day number
  (`t / 1440`), and its hour is `(t % 1440) / 60`.
- An SQL `NULL` is `None`. A `NULL` parameter matches no row.
- A photo that reaches `process_name` or `process_book_title` makes the
  handler fail when it reads the missing text. Everything the handler did
  before that point stands, and nothing after it happens.
- An exception raised by a database function is that function's `Failure`
  result, and the tables stay unchanged.
- Sends to the chat are assumed to succeed, except the group photo of a
  return (see "Left out").

## Model

| member | source | states |
|---|---|---|
| Text.Lower | library_bot.py:177 | `LOWER` keeps the length and lowers each character; no upper-case letter is left |
| Text.LowerIdempotent | library_bot.py:177 | lowering a lowered title changes nothing |
| Text.LeadingSpace | library_bot.py:584 | the length of the leading run of white space, which stops at a non-space character or at the end |
| Text.TrailingSpace | library_bot.py:584 | the length of the trailing run of white space, which stops at a non-space character or at the start |
| Text.Strip | library_bot.py:584 | `strip()` removes white space from both ends only: the input is the result padded with white space, and the result neither starts nor ends with white space |
| Text.TokenLength | library_bot.py:492 | the length of the leading run of non-space characters, which stops at a space or at the end |
| Text.IsSpace | library_bot.py:492 | the white-space characters of `str.isspace`, at which `split()` and `strip()` cut |
| Text.Words | library_bot.py:492 | `split()` yields only non-empty words without white space |
| Text.WordsOfWord | library_bot.py:492 | `split()` of a single word is that word |
| Text.TokenLengthAtSpace | library_bot.py:492 | a white-space character ends a word exactly where the text before it ends it |
| Text.WordsSplitAtSpace | library_bot.py:492 | `split()` cuts at every white-space character: the words of `a + c + b` are those of `a` followed by those of `b`. With `Words("") == []` and `WordsOfWord` this fixes `split()` on every input |
| Text.JoinWords | library_bot.py:498 | `" ".join`: the words with one space between neighbours |
| Text.WordsOfJoin | library_bot.py:498 | splitting the space-joined words gives back those words |
| Text.ParseName | library_bot.py:492-498 | a name is accepted iff it has at least two words; the first word is the first name, and the rest, single-spaced, is the last name |
| Text.RemoveAll | library_bot.py:730 | `replace(p, "")` never lengthens the text and leaves text without `p` unchanged |
| Text.StripMarker | library_bot.py:730 | removing the prefix from prefix + title gives the title back when the title does not contain the prefix |
| Text.Decimal | library_bot.py:320 | a number is written as a non-empty string of digits whose base-10 value is the number, without a leading zero |
| Ledger.EndTime | library_bot.py:197-206 | an end time exists iff the duration is one of the four durations, and it lies between one hour and thirty days after the start |
| Ledger.EndTimeTable | library_bot.py:199-206 | the four durations add 60 minutes, 1 day, 7 days and 30 days |
| Ledger.SetStatus | library_bot.py:183-189 | `update_book_status` sets the status of exactly the books whose title matches up to case in that office, and changes nothing else |
| Ledger.AvailableIn | library_bot.py:163-170 | `get_books_by_office` lists exactly the title and author of each available book of the office |
| Ledger.AvailableInAppend | library_bot.py:166-169 | the listing distributes over a split of the table: every row is kept, duplicates included, in the order of the modelled table |
| Ledger.AvailableInOne | library_bot.py:166-169 | one book gives its own title and author exactly when it is available in that office, and nothing otherwise |
| Ledger.FindAvailable | library_bot.py:173-180 | `book_exists_in_office` finds a row iff an available book of the office matches the title up to case; the row found is such a book (the model takes the first one) |
| Ledger.Register | library_bot.py:280-291 | `register_user` adds a free user without an office or updates only the names of an existing user; other rows are unchanged |
| Ledger.SetOffice | library_bot.py:294-300 | `update_user_office` sets the office of an existing user only |
| Ledger.UserInfo | library_bot.py:303-310 | `get_user_info` finds a row iff the user is registered, with its first name, last name and office |
| Ledger.UserBooking | library_bot.py:237-247 | `get_user_booking` finds a row iff the user is registered and holds a book; the row carries that user's current book, start, duration and end |
| Ledger.CreateBooking | library_bot.py:192-234 | `create_booking` succeeds iff the duration is known, title and office are not NULL and the user exists. On success it books the matching books, appends an active booking with the next id and the computed end, and records the loan on the user. On failure nothing changes |
| Ledger.CloseBookings | library_bot.py:270-276 | exactly the user's active bookings of that title become completed |
| Ledger.CompleteBooking | library_bot.py:250-277 | `complete_booking` makes the matching books available, clears the user's loan and completes the user's active bookings of that title. Nothing else changes |
| Ledger.Consistent | library_bot.py:192-277 | the ledger invariant: a user row is free with no loan columns, or booked with all four set and its end computed from its duration; booking ids are positions plus one and their ends follow from their durations; every booked user has a booking row that records the loan |
| Ledger.RegisterKeepsConsistent | library_bot.py:280-291 | registration keeps the ledger invariant |
| Ledger.SetOfficeKeepsConsistent | library_bot.py:294-300 | choosing an office keeps the ledger invariant |
| Ledger.CreateKeepsConsistent | library_bot.py:192-234 | a booking, whether it succeeds or fails, keeps the ledger invariant |
| Ledger.CompleteKeepsConsistent | library_bot.py:250-277 | a return keeps the ledger invariant |
| Ledger.CreateThenComplete | library_bot.py:192-277 | booking an available book and then returning it restores every book and user row. The only trace is one more booking row, now completed |
| Ledger.CreateDoesNotRecheck | library_bot.py:192-234 | `create_booking` does not check availability: two users booking the same book both succeed, and both bookings are active |
| Ledger.SeededTables | library_bot.py:134-157 | the eight seed books, with no users and no bookings, satisfy the ledger invariant |
| Store.Database.Seeded | library_bot.py:134-157 | a fresh database holds the seed tables and is consistent |
| Store.Database.UpdateBookStatus | library_bot.py:183-189 | the books table becomes `SetStatus` of the old one; the other tables are unchanged |
| Store.Database.CreateBooking | library_bot.py:192-234 | the result and the new tables are those of `Ledger.CreateBooking` on the old tables, and the invariant is kept |
| Store.Database.CompleteBooking | library_bot.py:250-277 | the new tables are `Ledger.CompleteBooking` of the old ones, and the invariant is kept |
| Store.Database.RegisterUser | library_bot.py:280-291 | the new tables are `Ledger.Register` of the old ones, and the invariant is kept |
| Store.Database.UpdateUserOffice | library_bot.py:294-300 | the new tables are `Ledger.SetOffice` of the old ones, and the invariant is kept |
| BookList.FormatBooksList | library_bot.py:313-321 | the fixed sentence iff there are no books; otherwise the text starts with the header and ends right after the last numbered line |
| BookList.LineAt | library_bot.py:319-320 | line k of the numbered lines stands where the lines before it end |
| BookList.EveryBookListed | library_bot.py:318-320 | book k appears as the line `k+1. title - author` after the header and the lines of the books before it |
| BookList.LinesCount | library_bot.py:319-320 | the numbered lines hold one line break per book when titles and authors are one line each |
| BookList.LineBreaks | library_bot.py:313-321 | the message has one line break per book after those of the header |
| Reminders.DueKinds | library_bot.py:409-462 | at most one reminder is due per row, and none for a row without start or end |
| Reminders.DueFor | library_bot.py:400-462 | a row yields a reminder exactly when a kind is due for it, and at most one; the reminder goes to that user and is about that user's current book |
| Reminders.HourTierReminders | library_bot.py:413-436 | "1 час": the 15-minute reminder is due exactly in [end-15, end) and the overdue one exactly from the end on; the two are never due together, and nothing else is ever due |
| Reminders.EndedRepeats | library_bot.py:425-436 | once overdue, the overdue reminder is due at every later sweep (there is no cooldown) |
| Reminders.DayTierSilent | library_bot.py:413-462 | "1 день" never gets a reminder |
| Reminders.DayShift | library_bot.py:440-441 | adding whole days to a time adds as many to its date |
| Reminders.DayRange | library_bot.py:441 | a date is a half-open range of 1440 minutes |
| Reminders.CheckpointWindow | library_bot.py:440-441 | the calendar check holds exactly from 09:00 to 09:59 on the date `days` days after the start |
| Reminders.WeekTierReminder | library_bot.py:438-449 | "1 неделя": due exactly from 09:00 to 09:59 on the start date + 5 days |
| Reminders.MonthTierReminder | library_bot.py:451-462 | "1 месяц": due exactly from 09:00 to 09:59 on the start date + 21 days |
| Reminders.CalendarRemindersBeforeEnd | library_bot.py:438-462 | for a recorded loan, the "tomorrow" reminder falls two dates before the end date, and the "in a week" reminder nine dates before it |
| Reminders.IsFetch | library_bot.py:391-396 | a result of the sweep's query: every booked user with an end time, each once and in any order, with the row as stored |
| Reminders.Notices | library_bot.py:400-462 | the reminders of one pass, row by row in fetch order |
| Reminders.NoticesMembership | library_bot.py:400-462 | a reminder is in a pass iff some fetched row has it due |
| Reminders.Sweep | library_bot.py:386-462 | one pass tries to send the reminders of the fetched rows, in row order, whatever each send does |
| Reminders.SweepReachesBookedUsers | library_bot.py:391-395 | over a fetch of the users table, a pass reminds exactly the booked users who have a reminder due |
| Dialog.Apply | library_bot.py:501-769 | Only the acting user's row can change, and registration adds only that row. Registration and choosing an office leave the books and bookings alone; registration stores the names and an office choice the office. Registration, an office choice, a booking and a return leave the tables exactly as `register_user`, `update_user_office`, `create_booking` and `complete_booking` (Ledger.Register, SetOffice, CreateBooking, CompleteBooking) leave them. A list is shown iff it was asked for; it is the formatted list of the office's available books, and the fixed sentence iff the office has none. A booking is announced iff `create_booking` succeeded, and then the user holds that book. A return clears the loan of a registered user and is always announced |
| Dialog.IsStartCommand | library_bot.py:470-477 | the `CommandStart` filter: the first word of the text, or of a photo's caption, is `/start` |
| Dialog.NameEntered | library_bot.py:489-510 | `process_name`: fewer than two words keep the session, otherwise the names are stored, registered, and the office state follows |
| Dialog.TitleEntered | library_bot.py:572-618 | `process_book_title`: missing office or first name clears the session, "нет" keeps it, otherwise the lookup decides the confirmation data |
| Dialog.ReturnPressed | library_bot.py:727-755 | `process_return_book`: an unknown user or a book not held keeps the session, otherwise the photo state follows with the title, office and names |
| Dialog.BookPressed | library_bot.py:806-850 | `process_action_book_any_state`: route by registration, current loan and known office |
| Dialog.OnText | library_bot.py:489-803 | the text handlers by state: name, book title, and a hint (no change) in the button and photo states; no handler without a state |
| Dialog.OnPhoto | library_bot.py:572-803 | the photo handlers by state: the photo return in the photo state, the data check of the title handler, and no change elsewhere |
| Dialog.OnCallback | library_bot.py:479-850 | the button handlers in registration order: start, office, the title-state buttons, the confirmation buttons, duration, return, then "Забронировать" in any state |
| Dialog.Step | library_bot.py:470-850 | `/start` is tried first (its effect is stated by Dialog.StartClears), then the text, photo or button handlers. A database request comes only from the state and update that ask for it: registration from text in the name state, an office from a listed office button, a list from "action_list" in the title state, a booking from a listed duration button, a return from a photo in the photo state |
| Dialog.StartClears | library_bot.py:470-477 | `/start`, as a text or as a photo caption, clears the session in every state and asks the database for nothing |
| Dialog.StartButton | library_bot.py:479-487 | the "start" button moves any state to the name state and keeps the stored data |
| Dialog.ConfirmationButtons | library_bot.py:620-666 | in the confirmation state "confirm_yes" moves to the duration state, "confirm_no" stays, "return_cancel" clears the session and "return_another" moves to the title state; none asks the database for anything |
| Dialog.ApplyKeepsConsistent | library_bot.py:489-850 | every request a handler makes keeps the ledger invariant |
| Dialog.Bot.constructor | library_bot.py:45-46 | the bot starts with no sessions on a consistent database |
| Dialog.Bot.Handle | library_bot.py:470-850 | one update changes only that user's session, to the one the matching handler sets. The database becomes what the handler's request does to it, and the invariant is kept |
| Dialog.NameStep | library_bot.py:489-510 | fewer than two words keep the name state; otherwise the names are stored and registered, and the office state follows |
| Dialog.TextIgnoredWhileButtonsExpected | library_bot.py:512-520 | text in the office, confirmation, duration or photo state changes nothing |
| Dialog.UnknownOfficeIgnored | library_bot.py:522-533 | an office button outside the table changes nothing |
| Dialog.UnknownDurationIgnored | library_bot.py:668-680 | a duration button outside the table changes nothing |
| Dialog.ReturnButtonDispatch | library_bot.py:727-730 | a return button reaches the return handler unless the confirmation state claims it, and the rest of the data is the title |
| Dialog.ForeignReturnIgnored | library_bot.py:741-746 | a return of a book the user does not hold changes nothing |
| Dialog.ReturnButtonOfHeldBook | library_bot.py:727-755 | the return button of the held book, when its title does not contain `return_` and is not "cancel"/"another" in the confirmation state, moves to the photo state with that title and the user's office. A title containing `return_` is altered by `replace` at 730 and is not covered |
| Dialog.ReturnOptionsFallThrough | library_bot.py:633-666 | outside the confirmation state the "Не бронирую" and "Забронировать другую" buttons are read as returns of the books "cancel" and "another" |
| Dialog.BookButtonRouting | library_bot.py:806-850 | "Забронировать": an unknown user goes to the name state, a user holding a book stays, and any other user goes to the title state if an office is known, else to the office state |
| Dialog.OfficeChosen | library_bot.py:522-544 | a valid office button stores the office, writes it to the user, and the title state follows |
| Dialog.DurationClearsSession | library_bot.py:668-724 | a valid duration button asks for a booking with the stored title and office and one of the four durations, and clears the session whether the booking succeeds or not |
| Dialog.DurationButtonsAreTheTable | library_bot.py:671-676 | the four duration buttons stand for the four durations, one each |
| Dialog.PhotoReturns | library_bot.py:758-798 | a photo in the photo state completes the stored booking; the session is cleared only when the group photo was delivered, otherwise it stays in the photo state |
| Dialog.DeclineKeepsTitleState | library_bot.py:584-597 | "нет", in any letter case and with surrounding spaces, keeps the title state |
| Dialog.TitleLookup | library_bot.py:599-618 | an entered title is looked up up to case among the available books of the session's office. A match stores its own title and author; with no match the data is unchanged. Either way the confirmation state follows |
| Dialog.ListAsked | library_bot.py:552-570 | in the title state the list button with an office in the session asks for that office's list and keeps the session; without an office nothing happens |
| Dialog.BookButtonInTitleState | library_bot.py:546-550 | in the title state the "Забронировать" button keeps the session and asks for nothing |
| Dialog.TitleDataMissing | library_bot.py:574-582 | in the title state a session without an office or first name is cleared, for a text and for a photo alike |
| Dialog.StepKeepsShape | library_bot.py:470-850 | no session holds data without a state, and the photo state always holds a title |

## Left out

- Transport: sending, editing and answering messages, the keyboards, the
  message texts, parse modes and the group chat id are not modelled. A send is
  either omitted, or it becomes the `delivered` flag of a return photo and the
  `Notice` a handler attempts.
- The connection pool, the table DDL, `wait_for_db` and `main` are not
  modelled. The tables begin as the seed data inserted on an empty database.
- `update_book_status` takes its own pooled connection, so inside
  `create_booking` and `complete_booking` its update is not part of the
  transaction. Its change survives when a later statement fails. The model
  treats each ledger function as one atomic transaction.
- The `while True` loop of `check_reminders`, its five-minute sleep and its
  outer exception handler are not modelled. `Reminders.Sweep` is one pass
  over rows already fetched.
- Concurrency between handlers, and between handlers and the sweep, is not
  modelled. Updates are handled one at a time.
- `datetime.now()` becomes a `now` parameter counted in minutes. Calendar
  dates are naive day numbers, so time zones and daylight saving are not
  modelled.
- Ledger.CreateBooking: `bookings.id` is `SERIAL`, and its gaps after failed
  inserts are not modelled. Ids are positions plus one.
- Text.Lower: SQL `LOWER` and Python `str.lower` are modelled for ASCII and
  the basic Cyrillic letters only. Other scripts, locale rules and
  multi-character case mappings are not modelled.
- Ledger.AvailableIn: the queries of `get_books_by_office` and
  `book_exists_in_office` have no `ORDER BY`, so PostgreSQL returns rows in
  storage order, which an `UPDATE` can change, and `fetchrow` may return any
  matching row. The model lists books in the order of the `books` sequence,
  and `Ledger.FindAvailable` returns the first match in it. The numbering of
  the book list after a booking and a return is therefore not modelled.
- Dialog.Step: `/start@botname` mentions and non-text, non-photo messages
  (stickers, documents) are not modelled.
- The 64-byte limit on `callback_data`, which a long title's return button
  could exceed, is not modelled.
- Dialog.Bot.Handle: a failed send to the chat is assumed not to happen, apart
  from the return photo. In the code a raising `answer` or `edit_text`
  aborts the handler before `set_state`. This affects `process_start`,
  `process_name`, `process_office`, `process_action_list`,
  `process_book_title`, `process_confirmation_yes`, `process_return_cancel`,
  `process_return_another`, `process_return_book` and
  `process_action_book_any_state`, whose state then stays where it was;
  `process_name` and `process_office` have by then stored their data and
  written the database, and `process_book_title` has stored the title and
  author it found. In `process_duration` a raising error message skips
  `state.clear()`. The model does not capture these outcomes.
- Dialog.PhotoReturns: the failures inside the photo handler (the group photo
  and the thank-you message) are folded into one `delivered` flag.
- There is no waiting list and no reminder cooldown. Neither exists in the
  source, and `Reminders.EndedRepeats` states the absence of a cooldown.
