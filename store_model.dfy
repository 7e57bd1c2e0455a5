/**
 * The value-level model of the in-memory store of klara-backend/app/database.py:
 * the records held in its five dictionaries, the five tables and their ID counters
 * as one value, the effect of each store operation as a function on that value, and
 * the records a per-user query must return.  The class `Store.Database` is proved
 * against these functions.
 *
 * `created_at` is read from the clock in the source; here every operation that stamps
 * a record takes the timestamp `now` as an argument.
 */
module StoreModel {
  import opened Wrappers

  datatype UserRecord = UserRecord(email: string, createdAt: nat)

  /** What `get_or_create_user` returns. */
  datatype User = User(id: nat, email: string, createdAt: nat)

  datatype TaskRecord = TaskRecord(
    userId: int, category: string, title: string, description: string,
    dueDate: Option<string>, rawInput: string, createdAt: nat)

  /** One element of the `items` argument of `create_shopping_list`. */
  datatype ShoppingItem = ShoppingItem(itemName: string, quantity: string)

  datatype ShoppingItemRecord = ShoppingItemRecord(shoppingListId: nat, itemName: string, quantity: string)

  datatype ShoppingItemResponse = ShoppingItemResponse(id: nat, item: ShoppingItemRecord)

  datatype ShoppingListRecord = ShoppingListRecord(
    userId: int, category: string, title: string, items: seq<ShoppingItemResponse>,
    rawInput: string, createdAt: nat)

  datatype CalendarEventRecord = CalendarEventRecord(
    userId: int, category: string, title: string, description: string,
    eventDate: string, eventTime: Option<string>, rawInput: string, createdAt: nat)

  const TaskCategory := "task"
  const ShoppingListCategory := "shopping_list"
  const CalendarEventCategory := "calendar_event"

  /** A stored brain dump of any of the three kinds, together with its id: the
      `TaskResponse`, `ShoppingListResponse` and `CalendarEventResponse` of the source. */
  datatype BrainDump =
    | TaskResponse(id: nat, task: TaskRecord)
    | ShoppingListResponse(id: nat, list: ShoppingListRecord)
    | CalendarEventResponse(id: nat, event: CalendarEventRecord)
  {
    function UserId(): int {
      match this
      case TaskResponse(_, t) => t.userId
      case ShoppingListResponse(_, l) => l.userId
      case CalendarEventResponse(_, e) => e.userId
    }

    function RawInput(): string {
      match this
      case TaskResponse(_, t) => t.rawInput
      case ShoppingListResponse(_, l) => l.rawInput
      case CalendarEventResponse(_, e) => e.rawInput
    }

    function CreatedAt(): nat {
      match this
      case TaskResponse(_, t) => t.createdAt
      case ShoppingListResponse(_, l) => l.createdAt
      case CalendarEventResponse(_, e) => e.createdAt
    }
  }

  /** `m` holds exactly the ids a counter starting at 1 has handed out once it has reached `n`. */
  ghost predicate KeysBelow<V>(m: map<nat, V>, n: nat) {
    forall k: nat :: k in m <==> 1 <= k < n
  }

  ghost predicate UniqueEmails(users: map<nat, UserRecord>) {
    forall i, j :: i in users && j in users && users[i].email == users[j].email ==> i == j
  }

  /** Every item a stored list reports is stored under its id and points back to the list. */
  ghost predicate ListsMatchItems(lists: map<nat, ShoppingListRecord>, items: map<nat, ShoppingItemRecord>) {
    forall l, i :: l in lists && 0 <= i < |lists[l].items| ==> ItemStored(lists[l].items[i], l, items)
  }

  ghost predicate ItemStored(r: ShoppingItemResponse, listId: nat, items: map<nat, ShoppingItemRecord>) {
    r.id in items && items[r.id] == r.item && r.item.shoppingListId == listId
  }

  /**
   * The first key in `k .. n-1` whose user has the given email: the scan of
   * `users.items()` in insertion order, which is ascending key order because keys
   * are handed out by an increasing counter and never removed.
   */
  function FindEmail(users: map<nat, UserRecord>, email: string, k: nat, n: nat): (r: Option<nat>)
    decreases n - k
    ensures r.Some? ==> k <= r.value < n && r.value in users && users[r.value].email == email
    ensures r.None? ==> forall j :: k <= j < n && j in users ==> users[j].email != email
  {
    if k >= n then None
    else if k in users && users[k].email == email then Some(k)
    else FindEmail(users, email, k + 1, n)
  }

  /** The responses for the items of a new shopping list, numbered from `firstId`,
      built one item at a time in input order. */
  function ItemResponses(listId: nat, firstId: nat, items: seq<ShoppingItem>): (r: seq<ShoppingItemResponse>)
    ensures |r| == |items|
  {
    if items == [] then []
    else
      var last := items[|items| - 1];
      ItemResponses(listId, firstId, items[..|items| - 1])
        + [ShoppingItemResponse(firstId + |items| - 1, ShoppingItemRecord(listId, last.itemName, last.quantity))]
  }

  /** `shopping_items` after storing each response under its id, in order. */
  function StoreItems(m: map<nat, ShoppingItemRecord>, rs: seq<ShoppingItemResponse>): map<nat, ShoppingItemRecord> {
    if rs == [] then m
    else StoreItems(m, rs[..|rs| - 1])[rs[|rs| - 1].id := rs[|rs| - 1].item]
  }

  /** The entries of `m` with key below `n` that belong to `userId`, in ascending key order. */
  function Rows(m: map<nat, BrainDump>, n: nat, userId: int): seq<BrainDump> {
    if n == 0 then []
    else Rows(m, n - 1, userId) + (if n - 1 in m && m[n - 1].UserId() == userId then [m[n - 1]] else [])
  }

  /** The five tables and five counters of the store. */
  datatype Tables = Tables(
    users: map<nat, UserRecord>,
    tasks: map<nat, TaskRecord>,
    shoppingLists: map<nat, ShoppingListRecord>,
    shoppingItems: map<nat, ShoppingItemRecord>,
    calendarEvents: map<nat, CalendarEventRecord>,
    userIdCounter: nat,
    taskIdCounter: nat,
    shoppingListIdCounter: nat,
    shoppingItemIdCounter: nat,
    calendarEventIdCounter: nat)
  {
    /** Every table holds exactly the ids its counter has handed out, no two users
        share an email, and every item a list reports is stored under its id. */
    ghost predicate Valid() {
      && userIdCounter >= 1 && taskIdCounter >= 1 && shoppingListIdCounter >= 1
      && shoppingItemIdCounter >= 1 && calendarEventIdCounter >= 1
      && KeysBelow(users, userIdCounter)
      && KeysBelow(tasks, taskIdCounter)
      && KeysBelow(shoppingLists, shoppingListIdCounter)
      && KeysBelow(shoppingItems, shoppingItemIdCounter)
      && KeysBelow(calendarEvents, calendarEventIdCounter)
      && UniqueEmails(users)
      && ListsMatchItems(shoppingLists, shoppingItems)
    }

    /** The id of the user with this email, if any. */
    function LookupUser(email: string): Option<nat> {
      FindEmail(users, email, 1, userIdCounter)
    }

    /** `get_or_create_user`: the new tables and the user returned. */
    function GetOrCreateUser(email: string, now: nat): (r: (Tables, User))
      ensures r.1.email == email
      ensures r.1.id in r.0.users && r.0.users[r.1.id] == UserRecord(email, r.1.createdAt)
      ensures LookupUser(email).Some? ==> r.0 == this
      ensures LookupUser(email).None? ==> r.1.id == userIdCounter && r.1.createdAt == now
    {
      match LookupUser(email)
      case Some(k) => (this, User(k, users[k].email, users[k].createdAt))
      case None =>
        (this.(users := users[userIdCounter := UserRecord(email, now)], userIdCounter := userIdCounter + 1),
         User(userIdCounter, email, now))
    }

    /** `create_task`: the new tables and the response returned. */
    function CreateTask(userId: int, title: string, description: string, rawInput: string,
                        dueDate: Option<string>, now: nat): (r: (Tables, BrainDump))
      ensures r.1.TaskResponse? && r.1.task.category == TaskCategory && r.0.Holds(r.1)
      ensures r.1.UserId() == userId && r.1.RawInput() == rawInput && r.1.CreatedAt() == now
      ensures Valid() ==> r.1.id !in tasks
    {
      var task := TaskRecord(userId, TaskCategory, title, description, dueDate, rawInput, now);
      (this.(tasks := tasks[taskIdCounter := task], taskIdCounter := taskIdCounter + 1),
       TaskResponse(taskIdCounter, task))
    }

    /** `create_shopping_list`: the new tables and the response returned. */
    function CreateShoppingList(userId: int, title: string, items: seq<ShoppingItem>, rawInput: string,
                                now: nat): (r: (Tables, BrainDump))
      ensures r.1.ShoppingListResponse? && r.1.list.category == ShoppingListCategory && r.0.Holds(r.1)
      ensures r.1.UserId() == userId && r.1.RawInput() == rawInput && r.1.CreatedAt() == now
      ensures |r.1.list.items| == |items|
      ensures Valid() ==> r.1.id !in shoppingLists
    {
      var listId := shoppingListIdCounter;
      var responses := ItemResponses(listId, shoppingItemIdCounter, items);
      var list := ShoppingListRecord(userId, ShoppingListCategory, title, responses, rawInput, now);
      (this.(shoppingLists := shoppingLists[listId := list], shoppingListIdCounter := listId + 1,
             shoppingItems := StoreItems(shoppingItems, responses),
             shoppingItemIdCounter := shoppingItemIdCounter + |items|),
       ShoppingListResponse(listId, list))
    }

    /** `create_calendar_event`: the new tables and the response returned. */
    function CreateCalendarEvent(userId: int, title: string, description: string, eventDate: string,
                                 rawInput: string, eventTime: Option<string>, now: nat): (r: (Tables, BrainDump))
      ensures r.1.CalendarEventResponse? && r.1.event.category == CalendarEventCategory && r.0.Holds(r.1)
      ensures r.1.UserId() == userId && r.1.RawInput() == rawInput && r.1.CreatedAt() == now
      ensures Valid() ==> r.1.id !in calendarEvents
    {
      var event := CalendarEventRecord(userId, CalendarEventCategory, title, description, eventDate,
                                       eventTime, rawInput, now);
      (this.(calendarEvents := calendarEvents[calendarEventIdCounter := event],
             calendarEventIdCounter := calendarEventIdCounter + 1),
       CalendarEventResponse(calendarEventIdCounter, event))
    }

    function TaskDumps(): map<nat, BrainDump> {
      map k | k in tasks :: TaskResponse(k, tasks[k])
    }

    function ShoppingListDumps(): map<nat, BrainDump> {
      map k | k in shoppingLists :: ShoppingListResponse(k, shoppingLists[k])
    }

    function CalendarEventDumps(): map<nat, BrainDump> {
      map k | k in calendarEvents :: CalendarEventResponse(k, calendarEvents[k])
    }

    /** What `get_user_brain_dumps` collects before sorting: the user's tasks, then
        lists, then events, each table in insertion order. */
    function Collected(userId: int): seq<BrainDump> {
      Rows(TaskDumps(), taskIdCounter, userId)
        + Rows(ShoppingListDumps(), shoppingListIdCounter, userId)
        + Rows(CalendarEventDumps(), calendarEventIdCounter, userId)
    }

    /** `d` is a record these tables hold under `d`'s id. */
    predicate Holds(d: BrainDump) {
      match d
      case TaskResponse(k, t) => k in tasks && tasks[k] == t
      case ShoppingListResponse(k, l) => k in shoppingLists && shoppingLists[k] == l
      case CalendarEventResponse(k, e) => k in calendarEvents && calendarEvents[k] == e
    }
  }

  /** The store right after `Database.__init__`. */
  function Empty(): (t: Tables)
    ensures t.Valid()
    ensures t.users == map[] && t.tasks == map[] && t.shoppingLists == map[]
    ensures t.shoppingItems == map[] && t.calendarEvents == map[]
  {
    Tables(map[], map[], map[], map[], map[], 1, 1, 1, 1, 1)
  }
}
