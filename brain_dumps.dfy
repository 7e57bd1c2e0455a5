/**
 * The brain-dump routes of klara-backend/app/routes/brain_dumps.py.  `create_reminder`
 * dispatches on the kind of the processed result and makes exactly one store call of
 * the matching kind, stamped with the request's user and text; the runtime type tests
 * of the source become a match on a three-variant datatype.
 */
module BrainDumpRoutes {
  import opened Wrappers
  import opened HttpErrors
  import opened StoreModel
  import opened NewestFirst
  import Store
  import StoreProperties

  datatype BrainDumpRequest = BrainDumpRequest(text: string, userId: int)

  /** What the AI service hands this route: one record of one of the three kinds. */
  datatype Processed =
    | ProcessedTask(title: string, description: string, dueDate: Option<string>)
    | ProcessedShoppingList(title: string, items: seq<ShoppingItem>)
    | ProcessedCalendarEvent(title: string, description: string, eventDate: string, eventTime: Option<string>)

  /** The store call each kind triggers, as a transition of the tables. */
  function Save(t: Tables, request: BrainDumpRequest, p: Processed, now: nat): (r: (Tables, BrainDump))
    ensures r.0.Holds(r.1)
    ensures r.1.UserId() == request.userId && r.1.RawInput() == request.text && r.1.CreatedAt() == now
    ensures (r.1.TaskResponse? <==> p.ProcessedTask?) && (r.1.ShoppingListResponse? <==> p.ProcessedShoppingList?)
    ensures p.ProcessedCalendarEvent? ==> r.1.CalendarEventResponse?
  {
    match p
    case ProcessedTask(title, description, dueDate) =>
      t.CreateTask(request.userId, title, description, request.text, dueDate, now)
    case ProcessedShoppingList(title, items) =>
      t.CreateShoppingList(request.userId, title, items, request.text, now)
    case ProcessedCalendarEvent(title, description, eventDate, eventTime) =>
      t.CreateCalendarEvent(request.userId, title, description, eventDate, request.text, eventTime, now)
  }

  function ProcessingFailed(message: string): HttpError {
    HttpError(InternalServerError, "Processing failed: " + message)
  }

  /** `t'` holds every record of `t`, plus `d`, which `t` did not hold, and nothing else. */
  ghost predicate AddsExactly(t: Tables, t': Tables, d: BrainDump) {
    && t'.Holds(d) && !t.Holds(d)
    && (forall e :: t'.Holds(e) && !t.Holds(e) ==> e == d)
    && (forall e :: t.Holds(e) ==> t'.Holds(e))
    && |t'.tasks| + |t'.shoppingLists| + |t'.calendarEvents| == |t.tasks| + |t.shoppingLists| + |t.calendarEvents| + 1
  }

  lemma SaveTaskAddsExactly(t: Tables, request: BrainDumpRequest, p: Processed, now: nat)
    requires t.Valid() && p.ProcessedTask?
    ensures var (t', d) := Save(t, request, p, now);
      t'.Valid() && t'.users == t.users && d.TaskResponse? && AddsExactly(t, t', d)
  {
    StoreProperties.CreateTaskFresh(t, request.userId, p.title, p.description, request.text, p.dueDate, now);
  }

  lemma SaveShoppingListAddsExactly(t: Tables, request: BrainDumpRequest, p: Processed, now: nat)
    requires t.Valid() && p.ProcessedShoppingList?
    ensures var (t', d) := Save(t, request, p, now);
      t'.Valid() && t'.users == t.users && d.ShoppingListResponse? && AddsExactly(t, t', d)
  {
    StoreProperties.CreateShoppingListValid(t, request.userId, p.title, p.items, request.text, now);
    StoreProperties.CreateShoppingListFresh(t, request.userId, p.title, p.items, request.text, now);
  }

  lemma SaveCalendarEventAddsExactly(t: Tables, request: BrainDumpRequest, p: Processed, now: nat)
    requires t.Valid() && p.ProcessedCalendarEvent?
    ensures var (t', d) := Save(t, request, p, now);
      t'.Valid() && t'.users == t.users && d.CalendarEventResponse? && AddsExactly(t, t', d)
  {
    StoreProperties.CreateCalendarEventFresh(t, request.userId, p.title, p.description, p.eventDate, request.text,
                                             p.eventTime, now);
  }

  /**
   * Saving a processed result inserts one record of the matching kind, and it is the
   * only brain dump the store gains: it carries the request's user and text and a
   * fresh id; the store stays valid and users do not change.
   */
  lemma SaveInsertsOneRecord(t: Tables, request: BrainDumpRequest, p: Processed, now: nat)
    requires t.Valid()
    ensures var (t', d) := Save(t, request, p, now);
      && t'.Valid()
      && t'.users == t.users
      && (d.TaskResponse? <==> p.ProcessedTask?)
      && (d.ShoppingListResponse? <==> p.ProcessedShoppingList?)
      && (d.CalendarEventResponse? <==> p.ProcessedCalendarEvent?)
      && d.UserId() == request.userId && d.RawInput() == request.text && d.CreatedAt() == now
      && AddsExactly(t, t', d)
  {
    match p
    case ProcessedTask(_, _, _) => SaveTaskAddsExactly(t, request, p, now);
    case ProcessedShoppingList(_, _) => SaveShoppingListAddsExactly(t, request, p, now);
    case ProcessedCalendarEvent(_, _, _, _) => SaveCalendarEventAddsExactly(t, request, p, now);
  }

  /** The fields of the processed result reach the store unchanged. */
  lemma SaveCopiesFields(t: Tables, request: BrainDumpRequest, p: Processed, now: nat)
    ensures var d := Save(t, request, p, now).1;
      match p
      case ProcessedTask(title, description, dueDate) =>
        d.TaskResponse? && d.task.title == title && d.task.description == description && d.task.dueDate == dueDate
      case ProcessedShoppingList(title, items) =>
        && d.ShoppingListResponse? && d.list.title == title && |d.list.items| == |items|
        && forall i :: 0 <= i < |items| ==>
             d.list.items[i].item.itemName == items[i].itemName && d.list.items[i].item.quantity == items[i].quantity
      case ProcessedCalendarEvent(title, description, eventDate, eventTime) =>
        && d.CalendarEventResponse? && d.event.title == title && d.event.description == description
        && d.event.eventDate == eventDate && d.event.eventTime == eventTime
  {
    if p.ProcessedShoppingList? {
      StoreProperties.ItemResponsesAt(t.shoppingListIdCounter, t.shoppingItemIdCounter, p.items);
    }
  }

  /**
   * `create_reminder`: the request's text is processed by `process` (the AI service);
   * a processing failure becomes a 500 "Processing failed" error
   * and leaves the store alone; otherwise the one matching store call is made and its
   * response returned.
   */
  method CreateReminder(db: Store.Database, request: BrainDumpRequest,
                        process: string -> Result<Processed, string>, now: nat)
    returns (r: Result<BrainDump, HttpError>)
    requires db.Valid()
    modifies db
    ensures db.Valid()
    ensures process(request.text).Failure? ==>
      r == Failure(ProcessingFailed(process(request.text).error)) && db.State() == old(db.State())
    ensures process(request.text).Success? ==>
      r.Success? && (db.State(), r.value) == Save(old(db.State()), request, process(request.text).value, now)
  {
    var processed := process(request.text);
    match processed
    case Failure(message) =>
      r := Failure(ProcessingFailed(message));
    case Success(p) =>
      var saved: BrainDump;
      match p {
        case ProcessedTask(title, description, dueDate) =>
          saved := db.CreateTask(request.userId, title, description, request.text, dueDate, now);
        case ProcessedShoppingList(title, items) =>
          saved := db.CreateShoppingList(request.userId, title, items, request.text, now);
        case ProcessedCalendarEvent(title, description, eventDate, eventTime) =>
          saved := db.CreateCalendarEvent(request.userId, title, description, eventDate, request.text, eventTime, now);
      }
      r := Success(saved);
  }

  /** The GET handler returns what the store's query returns. */
  method GetUserBrainDumps(db: Store.Database, userId: int) returns (r: Result<seq<BrainDump>, HttpError>)
    requires db.Valid()
    ensures r.Success?
    ensures IsNewestFirst(r.value)
    ensures SameTieOrder(r.value, db.State().Collected(userId))
    ensures forall d :: d in r.value <==> d.UserId() == userId && db.State().Holds(d)
  {
    var brainDumps := db.GetUserBrainDumps(userId);
    r := Success(brainDumps);
  }
}
