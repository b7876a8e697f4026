/**
 * The per-user conversation. A session is the state tag of `UserStates`
 * (or no state at all) plus the data stored beside it. Each incoming update
 * is handled by the first handler, in registration order, whose filters
 * match it; that handler moves the session and may ask the database for one
 * read or one write. `Step` is that choice as a function; `Bot.Handle`
 * carries it out on the database and on the session store.
 */
module Dialog {
  import opened Wrappers
  import opened Text
  import opened Ledger
  import opened BookList
  import opened Store

  /** The states of `UserStates`, and `Idle` for a user with no state set. */
  datatype Phase =
    | Idle
    | WaitingForName
    | WaitingForOffice
    | WaitingForBookTitle
    | WaitingForConfirmation
    | WaitingForDuration
    | WaitingForPhoto

  /** The data stored beside the state; a key never written is `None`. */
  datatype Scratch = Scratch(
    firstName: Option<string>,
    lastName: Option<string>,
    office: Option<string>,
    bookTitle: Option<string>,
    author: Option<string>)

  datatype Session = Session(phase: Phase, data: Scratch)

  const NoData: Scratch := Scratch(None, None, None, None, None)

  /** The session after `state.clear()`: no state and no data. */
  const Cleared: Session := Session(Idle, NoData)

  /** One update from the chat: a text message, a photo (with its caption, "" if none), or a button press. */
  datatype Event = Message(text: string) | PhotoMessage(caption: string) | Callback(data: string)

  /** The database work a handler asks for. */
  datatype Request =
    | NoRequest
    | Enroll(first: string, last: string)                                       // register_user
    | ChooseOffice(place: string)                                               // update_user_office
    | ShowBooks(place: string)                                                  // get_books_by_office
    | Reserve(title: Option<string>, office: Option<string>, duration: string)  // create_booking
    | Release(title: Option<string>, office: Option<string>)                    // complete_booking

  datatype Transition = Transition(next: Session, request: Request)

  /** A message to the library group. */
  datatype Notice =
    | BookedNotice(user: UserId, title: Option<string>, duration: string)
    | ReturnedNotice(user: UserId, title: Option<string>)

  /** What a request does: the tables after it, the book list shown, the group notice attempted. */
  datatype Effect = Effect(after: Tables, shown: Option<string>, notice: Option<Notice>)

  /** Python truthiness of an optional string: present and not empty. */
  predicate Present(s: Option<string>) {
    s.Some? && s.value != ""
  }

  /** The office buttons. */
  const OfficeChoices: map<string, string> :=
    map["office_stone" := "Stone Towers", "office_manhatten" := "Manhatten", "office_izvestia" := "Известия"]

  /** The duration buttons. */
  const DurationChoices: map<string, string> :=
    map["duration_1h" := HourTier, "duration_1d" := DayTier, "duration_1w" := WeekTier, "duration_1m" := MonthTier]

  /** The prefix of a return button's data; the rest is the book title. */
  const ReturnPrefix: string := "return_"

  /** The word that declines every book of the list. */
  const Decline: string := "нет"

  /** `CommandStart()`: the first word of the text (or of a photo's caption) is `/start`. */
  predicate IsStartCommand(text: string) {
    var words := Words(text);
    |words| > 0 && words[0] == "/start"
  }

  // ---------------------------------------------------------------- handlers

  /** `process_name`. */
  function NameEntered(s: Session, text: string): Transition {
    match ParseName(text)
    case None => Transition(s, NoRequest)
    case Some((first, last)) =>
      Transition(Session(WaitingForOffice, s.data.(firstName := Some(first), lastName := Some(last))), Enroll(first, last))
  }

  /** `process_book_title`. */
  function TitleEntered(s: Session, text: string, t: Tables): Transition {
    if !Present(s.data.office) || !Present(s.data.firstName) then Transition(Cleared, NoRequest)
    else
      var title := Strip(text);
      if Lower(title) == Decline then Transition(s, NoRequest)
      else
        match FindAvailable(t.books, title, s.data.office.value)
        case None => Transition(s.(phase := WaitingForConfirmation), NoRequest)
        case Some(found) =>
          Transition(Session(WaitingForConfirmation, s.data.(bookTitle := Some(found.title), author := Some(found.author))), NoRequest)
  }

  /**
   * A text message that is not `/start`. The office, confirmation and
   * duration states only answer with a hint, the photo state asks for a
   * photo, and with no state no handler matches.
   */
  function OnText(s: Session, text: string, t: Tables): Transition {
    match s.phase
    case WaitingForName => NameEntered(s, text)
    case WaitingForBookTitle => TitleEntered(s, text, t)
    case _ => Transition(s, NoRequest)
  }

  /**
   * A photo whose caption is not `/start`. In the name state `process_name`
   * fails on the missing text; in the title state `process_book_title`
   * first checks its data (clearing the session when it is missing) and then
   * fails on the missing text; in the photo state `process_return_photo`
   * completes the booking and clears the session only when the group photo
   * was delivered.
   */
  function OnPhoto(s: Session, delivered: bool): Transition {
    match s.phase
    case WaitingForBookTitle =>
      if !Present(s.data.office) || !Present(s.data.firstName) then Transition(Cleared, NoRequest)
      else Transition(s, NoRequest)
    case WaitingForPhoto =>
      Transition(if delivered then Cleared else s, Release(s.data.bookTitle, s.data.office))
    case _ => Transition(s, NoRequest)
  }

  /** `process_return_book` for the title taken from the button. */
  function ReturnPressed(s: Session, title: string, t: Tables, uid: UserId): Transition {
    match UserInfo(t, uid)
    case None => Transition(s, NoRequest)
    case Some(info) =>
      var loan := UserBooking(t, uid);
      if loan.None? || loan.value.currentBook != Some(title) then Transition(s, NoRequest)
      else
        Transition(
          Session(WaitingForPhoto, s.data.(bookTitle := Some(title), office := info.office,
                                           firstName := Some(info.firstName), lastName := Some(info.lastName))),
          NoRequest)
  }

  /** `process_action_book_any_state`. */
  function BookPressed(s: Session, t: Tables, uid: UserId): Transition {
    match UserInfo(t, uid)
    case None => Transition(s.(phase := WaitingForName), NoRequest)
    case Some(info) =>
      var loan := UserBooking(t, uid);
      if loan.Some? && Present(loan.value.currentBook) then Transition(s, NoRequest)
      else if Present(info.office) then Transition(s.(phase := WaitingForBookTitle), NoRequest)
      else Transition(s.(phase := WaitingForOffice), NoRequest)
  }

  /** The callback handlers, tried in the order they are registered. */
  function OnCallback(s: Session, data: string, t: Tables, uid: UserId): Transition {
    var p := s.phase;
    if data == "start" then Transition(s.(phase := WaitingForName), NoRequest)
    else if p == WaitingForOffice && "office_" <= data then
      if data in OfficeChoices then
        var office := OfficeChoices[data];
        Transition(Session(WaitingForBookTitle, s.data.(office := Some(office))), ChooseOffice(office))
      else Transition(s, NoRequest)
    else if p == WaitingForBookTitle && data == "action_book" then Transition(s, NoRequest)
    else if p == WaitingForBookTitle && data == "action_list" then
      if Present(s.data.office) then Transition(s, ShowBooks(s.data.office.value)) else Transition(s, NoRequest)
    else if p == WaitingForConfirmation && data == "confirm_yes" then Transition(s.(phase := WaitingForDuration), NoRequest)
    else if p == WaitingForConfirmation && data == "confirm_no" then Transition(s, NoRequest)
    else if p == WaitingForConfirmation && data == "return_cancel" then Transition(Cleared, NoRequest)
    else if p == WaitingForConfirmation && data == "return_another" then Transition(s.(phase := WaitingForBookTitle), NoRequest)
    else if p == WaitingForDuration && "duration_" <= data then
      if data in DurationChoices then
        Transition(Cleared, Reserve(s.data.bookTitle, s.data.office, DurationChoices[data]))
      else Transition(s, NoRequest)
    else if ReturnPrefix <= data then ReturnPressed(s, RemoveAll(data, ReturnPrefix), t, uid)
    else if data == "action_book" then BookPressed(s, t, uid)
    else Transition(s, NoRequest)
  }

  /**
   * The handler an update reaches. `cmd_start` is registered first and
   * clears the session in every state; `delivered` says whether the group
   * photo of a return went through. Each database request comes only from
   * the state and the update that ask for it.
   */
  function Step(s: Session, ev: Event, t: Tables, uid: UserId, delivered: bool): (r: Transition)
    ensures r.request.Enroll? ==> s.phase == WaitingForName && ev.Message?
    ensures r.request.ChooseOffice? ==>
      s.phase == WaitingForOffice && ev.Callback? && ev.data in OfficeChoices && r.request.place == OfficeChoices[ev.data]
    ensures r.request.ShowBooks? ==> s.phase == WaitingForBookTitle && ev == Callback("action_list")
    ensures r.request.Reserve? ==>
      s.phase == WaitingForDuration && ev.Callback? && ev.data in DurationChoices && r.request.duration == DurationChoices[ev.data]
    ensures r.request.Release? ==> s.phase == WaitingForPhoto && ev.PhotoMessage?
  {
    match ev
    case Message(text) => if IsStartCommand(text) then Transition(Cleared, NoRequest) else OnText(s, text, t)
    case PhotoMessage(caption) => if IsStartCommand(caption) then Transition(Cleared, NoRequest) else OnPhoto(s, delivered)
    case Callback(data) => OnCallback(s, data, t, uid)
  }

  /**
   * Carrying out a request on the tables. A booking is announced to the group
   * only when `create_booking` succeeded; a return is always announced.
   */
  function Apply(t: Tables, uid: UserId, req: Request, now: int): (e: Effect)
    ensures req.NoRequest? || req.ShowBooks? ==> e.after == t
    ensures req.Enroll? || req.ChooseOffice? ==> e.after.books == t.books && e.after.bookings == t.bookings
    ensures e.after.users.Keys == if req.Enroll? then t.users.Keys + {uid} else t.users.Keys
    ensures forall u :: u in t.users && u != uid ==> e.after.users[u] == t.users[u]
    ensures req.Enroll? ==> e.after.users[uid].firstName == req.first && e.after.users[uid].lastName == req.last
    ensures req.ChooseOffice? && uid in t.users ==> e.after.users[uid].office == Some(req.place)
    ensures req.Release? && uid in t.users ==> e.after.users[uid].status == Available && e.after.users[uid].currentBook.None?
    ensures req.Reserve? && e.notice.Some? ==>
      uid in e.after.users && e.after.users[uid].status == Booked && e.after.users[uid].currentBook == req.title
    ensures e.shown.Some? <==> req.ShowBooks?
    ensures req.ShowBooks? ==> (e.shown.value == NoBooks <==> forall b :: b in t.books ==> !OnShelf(b, req.place))
    ensures e.notice.Some? && e.notice.value.BookedNotice? <==>
      req.Reserve? && Ledger.CreateBooking(t, uid, req.title, req.office, req.duration, now).result.Success?
    ensures e.notice.Some? && e.notice.value.ReturnedNotice? <==> req.Release?
    ensures req.Enroll? ==> e.after == Register(t, uid, req.first, req.last)
    ensures req.ChooseOffice? ==> e.after == SetOffice(t, uid, req.place)
    ensures req.ShowBooks? ==> e.shown == Some(FormatBooksList(AvailableIn(t.books, req.place)))
    ensures req.Reserve? ==> e.after == Ledger.CreateBooking(t, uid, req.title, req.office, req.duration, now).after
    ensures req.Release? ==> e.after == Ledger.CompleteBooking(t, uid, req.title, req.office)
  {
    match req
    case NoRequest => Effect(t, None, None)
    case Enroll(first, last) => Effect(Register(t, uid, first, last), None, None)
    case ChooseOffice(office) => Effect(SetOffice(t, uid, office), None, None)
    case ShowBooks(office) =>
      var rows := AvailableIn(t.books, office);
      assert rows == [] <==> forall b :: b in t.books ==> !OnShelf(b, office) by {
        if rows != [] {
          assert rows[0] in rows;
        } else {
          forall b | b in t.books
            ensures !OnShelf(b, office)
          {
            assert OnShelf(b, office) ==> ListingOf(b) in rows;
          }
        }
      }
      Effect(t, Some(FormatBooksList(rows)), None)
    case Reserve(title, office, duration) =>
      var c := Ledger.CreateBooking(t, uid, title, office, duration, now);
      Effect(c.after, None, if c.result.Success? then Some(BookedNotice(uid, title, duration)) else None)
    case Release(title, office) =>
      Effect(Ledger.CompleteBooking(t, uid, title, office), None, Some(ReturnedNotice(uid, title)))
  }

  /** Every request keeps the tables consistent. */
  lemma ApplyKeepsConsistent(t: Tables, uid: UserId, req: Request, now: int)
    requires Consistent(t)
    ensures Consistent(Apply(t, uid, req, now).after)
  {
    match req
    case NoRequest =>
    case Enroll(first, last) => RegisterKeepsConsistent(t, uid, first, last);
    case ChooseOffice(office) => SetOfficeKeepsConsistent(t, uid, office);
    case ShowBooks(office) =>
    case Reserve(title, office, duration) => CreateKeepsConsistent(t, uid, title, office, duration, now);
    case Release(title, office) => CompleteKeepsConsistent(t, uid, title, office);
  }

  // ---------------------------------------------------------------- the bot

  /** The session store (`MemoryStorage`) and the database, driven one update at a time. */
  class Bot {
    const db: Database
    var sessions: map<UserId, Session>

    ghost predicate Valid()
      reads this, db
    {
      db.Valid()
    }

    constructor (store: Database)
      requires store.Valid()
      ensures db == store && sessions == map[]
      ensures Valid()
    {
      db := store;
      sessions := map[];
    }

    /** The stored session of `uid`; a user never seen has none. */
    function SessionOf(uid: UserId): Session
      reads this
    {
      if uid in sessions then sessions[uid] else Cleared
    }

    /**
     * Handle one update of user `uid` at time `now`: the database changes as
     * the handler's request says, only that user's session moves, and the
     * book list shown and the group notice attempted are returned.
     */
    method Handle(uid: UserId, ev: Event, now: int, delivered: bool) returns (shown: Option<string>, notice: Option<Notice>)
      requires Valid()
      modifies this, db
      ensures Valid()
      ensures
        var tr := Step(old(SessionOf(uid)), ev, old(db.Snapshot()), uid, delivered);
        var e := Apply(old(db.Snapshot()), uid, tr.request, now);
        && sessions == old(sessions)[uid := tr.next]
        && db.Snapshot() == e.after
        && shown == e.shown
        && notice == e.notice
    {
      var tr := Step(SessionOf(uid), ev, db.Snapshot(), uid, delivered);
      shown, notice := None, None;
      match tr.request {
        case NoRequest =>
        case Enroll(first, last) =>
          db.RegisterUser(uid, first, last);
        case ChooseOffice(office) =>
          db.UpdateUserOffice(uid, office);
        case ShowBooks(office) =>
          shown := Some(FormatBooksList(AvailableIn(db.books, office)));
        case Reserve(title, office, duration) =>
          var r := db.CreateBooking(uid, title, office, duration, now);
          if r.Success? {
            notice := Some(BookedNotice(uid, title, duration));
          }
        case Release(title, office) =>
          db.CompleteBooking(uid, title, office);
          notice := Some(ReturnedNotice(uid, title));
      }
      sessions := sessions[uid := tr.next];
    }
  }

  // ---------------------------------------------------------------- properties

  /** Button data that starts with the return prefix is taken by no handler registered before the return handler. */
  lemma ReturnDataPassesEarlierHandlers(data: string)
    requires ReturnPrefix <= data
    ensures data != "start" && data != "action_book" && data != "action_list"
    ensures data != "confirm_yes" && data != "confirm_no"
    ensures !("office_" <= data) && !("duration_" <= data)
  {
    assert data[0] == 'r';
    assert "office_"[0] == 'o' && "duration_"[0] == 'd';
  }

  /** `/start`, as a message or as a photo caption, clears the session in every state and asks for nothing. */
  lemma StartClears(s: Session, text: string, t: Tables, uid: UserId, delivered: bool)
    requires IsStartCommand(text)
    ensures Step(s, Message(text), t, uid, delivered) == Transition(Cleared, NoRequest)
    ensures Step(s, PhotoMessage(text), t, uid, delivered) == Transition(Cleared, NoRequest)
  {
  }

  /** The "Начать" button asks for a name in every state and keeps the stored data. */
  lemma StartButton(s: Session, t: Tables, uid: UserId, delivered: bool)
    ensures Step(s, Callback("start"), t, uid, delivered) == Transition(s.(phase := WaitingForName), NoRequest)
  {
  }

  /**
   * The four buttons of the confirmation state: "yes" asks for a duration,
   * "no" offers the two options and stays, "cancel" clears the session and
   * "another" goes back to the title state, all keeping the stored data
   * except "cancel".
   */
  lemma ConfirmationButtons(s: Session, t: Tables, uid: UserId, delivered: bool)
    requires s.phase == WaitingForConfirmation
    ensures Step(s, Callback("confirm_yes"), t, uid, delivered) == Transition(s.(phase := WaitingForDuration), NoRequest)
    ensures Step(s, Callback("confirm_no"), t, uid, delivered) == Transition(s, NoRequest)
    ensures Step(s, Callback("return_cancel"), t, uid, delivered) == Transition(Cleared, NoRequest)
    ensures Step(s, Callback("return_another"), t, uid, delivered) == Transition(s.(phase := WaitingForBookTitle), NoRequest)
  {
    assert "confirm_yes"[0] == 'c' && "confirm_no"[0] == 'c';
    assert "return_cancel"[0] == 'r' && "return_another"[0] == 'r';
    assert "office_"[0] == 'o';
  }

  /**
   * In the title state the list button shows the books of the office kept in
   * the session and stays in the title state; without an office it is
   * turned away.
   */
  lemma ListAsked(s: Session, t: Tables, uid: UserId, delivered: bool)
    requires s.phase == WaitingForBookTitle
    ensures Present(s.data.office) ==>
      Step(s, Callback("action_list"), t, uid, delivered) == Transition(s, ShowBooks(s.data.office.value))
    ensures !Present(s.data.office) ==>
      Step(s, Callback("action_list"), t, uid, delivered) == Transition(s, NoRequest)
  {
    assert "action_list"[0] == 'a';
  }

  /** In the title state the "Забронировать" button only asks for the title again. */
  lemma BookButtonInTitleState(s: Session, t: Tables, uid: UserId, delivered: bool)
    requires s.phase == WaitingForBookTitle
    ensures Step(s, Callback("action_book"), t, uid, delivered) == Transition(s, NoRequest)
  {
    assert "action_book"[0] == 'a';
  }

  /**
   * In the title state a session without an office or a first name is
   * cleared, whether a text or a photo arrives, before the title is read.
   */
  lemma TitleDataMissing(s: Session, text: string, t: Tables, uid: UserId, delivered: bool)
    requires s.phase == WaitingForBookTitle && !(Present(s.data.office) && Present(s.data.firstName))
    requires !IsStartCommand(text)
    ensures Step(s, Message(text), t, uid, delivered) == Transition(Cleared, NoRequest)
    ensures Step(s, PhotoMessage(text), t, uid, delivered) == Transition(Cleared, NoRequest)
  {
  }

  /** Fewer than two words keep the name state; otherwise the first word and the single-spaced rest are registered. */
  lemma NameStep(s: Session, text: string, t: Tables, uid: UserId, delivered: bool)
    requires s.phase == WaitingForName && !IsStartCommand(text)
    ensures var tr := Step(s, Message(text), t, uid, delivered);
      var words := Words(text);
      && (|words| < 2 ==> tr == Transition(s, NoRequest))
      && (|words| >= 2 ==>
            && tr.next.phase == WaitingForOffice
            && tr.request.Enroll?
            && tr.next.data == s.data.(firstName := Some(tr.request.first), lastName := Some(tr.request.last))
            && tr.request.first == words[0]
            && Words(tr.request.last) == words[1..]
            && JoinWords(Words(tr.request.last)) == tr.request.last)
  {
    assert Step(s, Message(text), t, uid, delivered) == NameEntered(s, text);
  }

  /** Text where a button is expected is answered with a hint only. */
  lemma TextIgnoredWhileButtonsExpected(s: Session, text: string, t: Tables, uid: UserId, delivered: bool)
    requires s.phase in {WaitingForOffice, WaitingForConfirmation, WaitingForDuration, WaitingForPhoto}
    requires !IsStartCommand(text)
    ensures Step(s, Message(text), t, uid, delivered) == Transition(s, NoRequest)
  {
  }

  /** An office button outside the office table is turned away. */
  lemma UnknownOfficeIgnored(s: Session, data: string, t: Tables, uid: UserId, delivered: bool)
    requires s.phase == WaitingForOffice && "office_" <= data && data !in OfficeChoices
    ensures Step(s, Callback(data), t, uid, delivered) == Transition(s, NoRequest)
  {
    assert data[0] == 'o';
  }

  /** A duration button outside the duration table is turned away. */
  lemma UnknownDurationIgnored(s: Session, data: string, t: Tables, uid: UserId, delivered: bool)
    requires s.phase == WaitingForDuration && "duration_" <= data && data !in DurationChoices
    ensures Step(s, Callback(data), t, uid, delivered) == Transition(s, NoRequest)
  {
    assert data[0] == 'd';
  }

  /**
   * A return button reaches the return handler unless the confirmation state
   * claims it, and the handler reads the rest of the data as the title.
   */
  lemma ReturnButtonDispatch(s: Session, data: string, t: Tables, uid: UserId, delivered: bool)
    requires ReturnPrefix <= data
    requires !(s.phase == WaitingForConfirmation && (data == "return_cancel" || data == "return_another"))
    ensures Step(s, Callback(data), t, uid, delivered) == ReturnPressed(s, RemoveAll(data, ReturnPrefix), t, uid)
  {
    ReturnDataPassesEarlierHandlers(data);
  }

  /** A return for a book the user does not hold is turned away. */
  lemma ForeignReturnIgnored(s: Session, data: string, t: Tables, uid: UserId, delivered: bool)
    requires ReturnPrefix <= data
    requires !(s.phase == WaitingForConfirmation && (data == "return_cancel" || data == "return_another"))
    requires !(uid in t.users && t.users[uid].status == Booked && t.users[uid].currentBook == Some(RemoveAll(data, ReturnPrefix)))
    ensures Step(s, Callback(data), t, uid, delivered) == Transition(s, NoRequest)
  {
    ReturnButtonDispatch(s, data, t, uid, delivered);
  }

  /** The return button of a held book, whose title does not contain the prefix, starts the photo step for it. */
  lemma ReturnButtonOfHeldBook(s: Session, title: string, t: Tables, uid: UserId, delivered: bool)
    requires !Occurs(title, ReturnPrefix)
    requires !(s.phase == WaitingForConfirmation && (title == "cancel" || title == "another"))
    requires uid in t.users && t.users[uid].status == Booked && t.users[uid].currentBook == Some(title)
    ensures var tr := Step(s, Callback(ReturnPrefix + title), t, uid, delivered);
      && tr.request == NoRequest
      && tr.next.phase == WaitingForPhoto
      && tr.next.data.bookTitle == Some(title)
      && tr.next.data.office == t.users[uid].office
  {
    var data := ReturnPrefix + title;
    StripMarker(ReturnPrefix, title);
    assert ReturnPrefix <= data;
    NotAConfirmationOption(s, title);
    ReturnButtonDispatch(s, data, t, uid, delivered);
    HeldBookReturn(s, title, t, uid);
  }

  lemma NotAConfirmationOption(s: Session, title: string)
    requires !(s.phase == WaitingForConfirmation && (title == "cancel" || title == "another"))
    ensures !(s.phase == WaitingForConfirmation && (ReturnPrefix + title == "return_cancel" || ReturnPrefix + title == "return_another"))
  {
    PrefixCancels(title, "cancel");
    PrefixCancels(title, "another");
    assert "return_cancel" == ReturnPrefix + "cancel" && "return_another" == ReturnPrefix + "another";
  }

  lemma PrefixCancels(a: string, b: string)
    ensures ReturnPrefix + a == ReturnPrefix + b ==> a == b
  {
    assert (ReturnPrefix + a)[|ReturnPrefix|..] == a;
    assert (ReturnPrefix + b)[|ReturnPrefix|..] == b;
  }

  lemma HeldBookReturn(s: Session, title: string, t: Tables, uid: UserId)
    requires uid in t.users && t.users[uid].status == Booked && t.users[uid].currentBook == Some(title)
    ensures var tr := ReturnPressed(s, title, t, uid);
      && tr.request == NoRequest
      && tr.next.phase == WaitingForPhoto
      && tr.next.data.bookTitle == Some(title)
      && tr.next.data.office == t.users[uid].office
  {
  }

  /** A rest no longer than the prefix, and not the prefix itself, is what remains of the data. */
  lemma ReturnPrefixRemoved(rest: string)
    requires |rest| <= |ReturnPrefix| && rest != ReturnPrefix
    ensures RemoveAll(ReturnPrefix + rest, ReturnPrefix) == rest
  {
    forall i | 0 <= i < |rest|
      ensures !(ReturnPrefix <= rest[i..])
    {
      if i == 0 {
        assert rest[0..] == rest;
      }
    }
    StripMarker(ReturnPrefix, rest);
  }

  /**
   * Outside the confirmation state "Не бронирую" and "Забронировать другую"
   * reach the return handler, which reads them as returns of the books
   * "cancel" and "another".
   */
  lemma ReturnOptionsFallThrough(s: Session, t: Tables, uid: UserId, delivered: bool)
    requires s.phase != WaitingForConfirmation
    ensures Step(s, Callback(ReturnPrefix + "cancel"), t, uid, delivered) == ReturnPressed(s, "cancel", t, uid)
    ensures Step(s, Callback(ReturnPrefix + "another"), t, uid, delivered) == ReturnPressed(s, "another", t, uid)
  {
    ReturnOptionFallsThrough(s, "cancel", t, uid, delivered);
    ReturnOptionFallsThrough(s, "another", t, uid, delivered);
  }

  lemma ReturnOptionFallsThrough(s: Session, rest: string, t: Tables, uid: UserId, delivered: bool)
    requires s.phase != WaitingForConfirmation && |rest| <= |ReturnPrefix| && rest != ReturnPrefix
    ensures Step(s, Callback(ReturnPrefix + rest), t, uid, delivered) == ReturnPressed(s, rest, t, uid)
  {
    ReturnPrefixRemoved(rest);
    assert ReturnPrefix <= ReturnPrefix + rest;
    ReturnButtonDispatch(s, ReturnPrefix + rest, t, uid, delivered);
  }

  /**
   * The "Забронировать" button outside the title state: an unknown user is
   * asked for a name, a user holding a book is refused, a user with an office
   * goes to the title state and any other user to the office state.
   */
  lemma BookButtonRouting(s: Session, t: Tables, uid: UserId, delivered: bool)
    requires s.phase != WaitingForBookTitle
    ensures var tr := Step(s, Callback("action_book"), t, uid, delivered);
      && tr.request == NoRequest
      && (uid !in t.users ==> tr.next == s.(phase := WaitingForName))
      && (uid in t.users && t.users[uid].status == Booked && Present(t.users[uid].currentBook) ==> tr.next == s)
      && (uid in t.users && !(t.users[uid].status == Booked && Present(t.users[uid].currentBook)) ==>
            tr.next == s.(phase := if Present(t.users[uid].office) then WaitingForBookTitle else WaitingForOffice))
  {
    assert "action_book"[0] == 'a';
    assert Step(s, Callback("action_book"), t, uid, delivered) == BookPressed(s, t, uid);
  }

  /** A valid office button stores the office, writes it to the user row and moves to the title state. */
  lemma OfficeChosen(s: Session, data: string, t: Tables, uid: UserId, delivered: bool)
    requires s.phase == WaitingForOffice && data in OfficeChoices
    ensures var tr := Step(s, Callback(data), t, uid, delivered);
      && tr.next == Session(WaitingForBookTitle, s.data.(office := Some(OfficeChoices[data])))
      && tr.request == ChooseOffice(OfficeChoices[data])
  {
  }

  /**
   * A duration button clears the session whatever the booking then does,
   * and asks for a booking with one of the four durations of the end-time
   * table.
   */
  lemma DurationClearsSession(s: Session, data: string, t: Tables, uid: UserId, delivered: bool)
    requires s.phase == WaitingForDuration && data in DurationChoices
    ensures var tr := Step(s, Callback(data), t, uid, delivered);
      && tr.next == Cleared
      && tr.request == Reserve(s.data.bookTitle, s.data.office, DurationChoices[data])
      && IsTier(tr.request.duration)
  {
  }

  /** Every duration button stands for a different one of the four durations, and each duration has a button. */
  lemma DurationButtonsAreTheTable()
    ensures forall d :: d in DurationChoices ==> IsTier(DurationChoices[d])
    ensures forall x :: IsTier(x) ==> x in DurationChoices.Values
    ensures forall d, e :: d in DurationChoices && e in DurationChoices && d != e ==> DurationChoices[d] != DurationChoices[e]
  {
    assert DurationChoices["duration_1h"] == HourTier;
    assert DurationChoices["duration_1d"] == DayTier;
    assert DurationChoices["duration_1w"] == WeekTier;
    assert DurationChoices["duration_1m"] == MonthTier;
  }

  /**
   * A photo in the photo state completes the booking of the title and office
   * kept in the session; the session is cleared only when the group photo
   * was delivered and otherwise stays in the photo state.
   */
  lemma PhotoReturns(s: Session, caption: string, t: Tables, uid: UserId, delivered: bool)
    requires s.phase == WaitingForPhoto && !IsStartCommand(caption)
    ensures var tr := Step(s, PhotoMessage(caption), t, uid, delivered);
      && tr.request == Release(s.data.bookTitle, s.data.office)
      && tr.next == (if delivered then Cleared else s)
  {
  }

  /** Typing "нет" in any letter case keeps the title state and asks nothing of the database. */
  lemma DeclineKeepsTitleState(s: Session, text: string, t: Tables, uid: UserId, delivered: bool)
    requires s.phase == WaitingForBookTitle && Present(s.data.office) && Present(s.data.firstName)
    requires !IsStartCommand(text) && Lower(Strip(text)) == Decline
    ensures Step(s, Message(text), t, uid, delivered) == Transition(s, NoRequest)
  {
    assert Step(s, Message(text), t, uid, delivered) == TitleEntered(s, text, t);
  }

  /**
   * A title is looked up up to letter case in the session's office among the
   * available books: when one matches, the confirmation state keeps the
   * stored spelling of its title and its author; when none does, the
   * confirmation state is entered with the data unchanged.
   */
  lemma TitleLookup(s: Session, text: string, t: Tables, uid: UserId, delivered: bool)
    requires s.phase == WaitingForBookTitle && Present(s.data.office) && Present(s.data.firstName)
    requires !IsStartCommand(text) && Lower(Strip(text)) != Decline
    ensures var tr := Step(s, Message(text), t, uid, delivered);
      var office := s.data.office.value;
      && tr.request == NoRequest
      && ((forall b :: b in t.books ==> !AvailableMatch(b, Strip(text), office)) ==>
            tr.next == s.(phase := WaitingForConfirmation))
      && ((exists b :: b in t.books && AvailableMatch(b, Strip(text), office)) ==>
            exists b :: b in t.books && AvailableMatch(b, Strip(text), office)
              && tr.next == Session(WaitingForConfirmation, s.data.(bookTitle := Some(b.title), author := Some(b.author))))
  {
    var tr := TitleEntered(s, text, t);
    assert Step(s, Message(text), t, uid, delivered) == tr;
    var office := s.data.office.value;
    var found := FindAvailable(t.books, Strip(text), office);
    if found.Some? {
      var b :| b in t.books && AvailableMatch(b, Strip(text), office) && found.value == ListingOf(b);
      assert tr.next == Session(WaitingForConfirmation, s.data.(bookTitle := Some(b.title), author := Some(b.author)));
    }
  }

  /** The session shapes every transition keeps: no data without a state, and a title whenever a photo is awaited. */
  predicate WellShaped(s: Session) {
    && (s.phase == Idle ==> s.data == NoData)
    && (s.phase == WaitingForPhoto ==> s.data.bookTitle.Some?)
  }

  lemma CallbackKeepsShape(s: Session, data: string, t: Tables, uid: UserId)
    requires WellShaped(s)
    ensures WellShaped(OnCallback(s, data, t, uid).next)
  {
  }

  lemma TextKeepsShape(s: Session, text: string, t: Tables)
    requires WellShaped(s)
    ensures WellShaped(OnText(s, text, t).next)
  {
    if s.phase == WaitingForBookTitle && Present(s.data.office) && Present(s.data.firstName) && Lower(Strip(text)) != Decline {
      match FindAvailable(t.books, Strip(text), s.data.office.value)
      case None =>
      case Some(found) =>
    }
  }

  lemma StepKeepsShape(s: Session, ev: Event, t: Tables, uid: UserId, delivered: bool)
    requires WellShaped(s)
    ensures WellShaped(Step(s, ev, t, uid, delivered).next)
  {
    match ev
    case Message(text) =>
      if !IsStartCommand(text) {
        TextKeepsShape(s, text, t);
      }
    case PhotoMessage(caption) =>
    case Callback(data) => CallbackKeepsShape(s, data, t, uid);
  }
}
