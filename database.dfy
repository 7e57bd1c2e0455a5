/**
 * `Database` of klara-backend/app/database.py: five dictionaries and five ID
 * counters, updated in place by each operation.  Every method is proved against the
 * matching transition of `StoreModel.Tables`; the properties of those transitions are
 * in `StoreProperties`.
 */
module Store {
  import opened Wrappers
  import opened StoreModel
  import opened NewestFirst
  import StoreProperties

  class Database {
    var users: map<nat, UserRecord>
    var tasks: map<nat, TaskRecord>
    var shoppingLists: map<nat, ShoppingListRecord>
    var shoppingItems: map<nat, ShoppingItemRecord>
    var calendarEvents: map<nat, CalendarEventRecord>

    var userIdCounter: nat
    var taskIdCounter: nat
    var shoppingListIdCounter: nat
    var shoppingItemIdCounter: nat
    var calendarEventIdCounter: nat

    /** The tables and counters as one value. */
    function State(): Tables
      reads this
    {
      Tables(users, tasks, shoppingLists, shoppingItems, calendarEvents,
             userIdCounter, taskIdCounter, shoppingListIdCounter, shoppingItemIdCounter, calendarEventIdCounter)
    }

    ghost predicate Valid()
      reads this
    {
      State().Valid()
    }

    constructor ()
      ensures Valid()
      ensures State() == Empty()
    {
      users, tasks, shoppingLists, shoppingItems, calendarEvents := map[], map[], map[], map[], map[];
      userIdCounter, taskIdCounter, shoppingListIdCounter, shoppingItemIdCounter, calendarEventIdCounter := 1, 1, 1, 1, 1;
    }

    /** Scans the users in insertion order for the email; creates the user if none has it. */
    method GetOrCreateUser(email: string, now: nat) returns (u: User)
      requires Valid()
      modifies this
      ensures Valid()
      ensures (State(), u) == old(State()).GetOrCreateUser(email, now)
    {
      StoreProperties.GetOrCreateUserValid(State(), email, now);
      var k := 1;
      while k < userIdCounter
        invariant 1 <= k <= userIdCounter
        invariant FindEmail(users, email, k, userIdCounter) == State().LookupUser(email)
      {
        assert k in users;
        if users[k].email == email {
          return User(k, users[k].email, users[k].createdAt);
        }
        k := k + 1;
      }
      var userId := userIdCounter;
      userIdCounter := userIdCounter + 1;
      users := users[userId := UserRecord(email, now)];
      u := User(userId, email, now);
    }

    method CreateTask(userId: int, title: string, description: string, rawInput: string,
                      dueDate: Option<string>, now: nat) returns (r: BrainDump)
      requires Valid()
      modifies this
      ensures Valid()
      ensures (State(), r) == old(State()).CreateTask(userId, title, description, rawInput, dueDate, now)
    {
      StoreProperties.CreateTaskFresh(State(), userId, title, description, rawInput, dueDate, now);
      var taskId := taskIdCounter;
      taskIdCounter := taskIdCounter + 1;
      var task := TaskRecord(userId, TaskCategory, title, description, dueDate, rawInput, now);
      tasks := tasks[taskId := task];
      r := TaskResponse(taskId, task);
    }

    /** Allocates the list id, then one item id per item in input order. */
    method CreateShoppingList(userId: int, title: string, items: seq<ShoppingItem>, rawInput: string,
                              now: nat) returns (r: BrainDump)
      requires Valid()
      modifies this
      ensures Valid()
      ensures (State(), r) == old(State()).CreateShoppingList(userId, title, items, rawInput, now)
    {
      ghost var before := State();
      ghost var expected := before.CreateShoppingList(userId, title, items, rawInput, now);
      StoreProperties.CreateShoppingListValid(before, userId, title, items, rawInput, now);
      var shoppingListId := shoppingListIdCounter;
      shoppingListIdCounter := shoppingListIdCounter + 1;
      var itemResponses := StoreListItems(shoppingListId, items);
      var list := ShoppingListRecord(userId, ShoppingListCategory, title, itemResponses, rawInput, now);
      shoppingLists := shoppingLists[shoppingListId := list];
      r := ShoppingListResponse(shoppingListId, list);
      assert r == expected.1;
      assert State() == before.(shoppingLists := shoppingLists, shoppingListIdCounter := shoppingListIdCounter,
                                shoppingItems := shoppingItems, shoppingItemIdCounter := shoppingItemIdCounter);
    }

    /** The item loop of `create_shopping_list`: each item gets the next item id and
        is stored with the list's id. */
    method StoreListItems(shoppingListId: nat, items: seq<ShoppingItem>) returns (itemResponses: seq<ShoppingItemResponse>)
      modifies this`shoppingItems, this`shoppingItemIdCounter
      ensures itemResponses == ItemResponses(shoppingListId, old(shoppingItemIdCounter), items)
      ensures shoppingItems == StoreItems(old(shoppingItems), itemResponses)
      ensures shoppingItemIdCounter == old(shoppingItemIdCounter) + |items|
    {
      itemResponses := [];
      for i := 0 to |items|
        invariant shoppingItemIdCounter == old(shoppingItemIdCounter) + i
        invariant itemResponses == ItemResponses(shoppingListId, old(shoppingItemIdCounter), items[..i])
        invariant shoppingItems == StoreItems(old(shoppingItems), itemResponses)
      {
        var itemId := shoppingItemIdCounter;
        shoppingItemIdCounter := shoppingItemIdCounter + 1;
        var item := ShoppingItemRecord(shoppingListId, items[i].itemName, items[i].quantity);
        shoppingItems := shoppingItems[itemId := item];
        itemResponses := itemResponses + [ShoppingItemResponse(itemId, item)];
        assert items[..i + 1][..i] == items[..i];
      }
      assert items[..|items|] == items;
    }

    method CreateCalendarEvent(userId: int, title: string, description: string, eventDate: string,
                               rawInput: string, eventTime: Option<string>, now: nat) returns (r: BrainDump)
      requires Valid()
      modifies this
      ensures Valid()
      ensures (State(), r) == old(State()).CreateCalendarEvent(userId, title, description, eventDate,
                                                               rawInput, eventTime, now)
    {
      StoreProperties.CreateCalendarEventFresh(State(), userId, title, description, eventDate, rawInput, eventTime, now);
      var eventId := calendarEventIdCounter;
      calendarEventIdCounter := calendarEventIdCounter + 1;
      var event := CalendarEventRecord(userId, CalendarEventCategory, title, description, eventDate,
                                       eventTime, rawInput, now);
      calendarEvents := calendarEvents[eventId := event];
      r := CalendarEventResponse(eventId, event);
    }

    /**
     * The user's tasks, shopping lists and calendar events (each table in insertion
     * order), then sorted newest first: exactly the matching records, ordered
     * non-increasing by `created_at`, ties in collection order.  Changes nothing.
     */
    method GetUserBrainDumps(userId: int) returns (r: seq<BrainDump>)
      requires Valid()
      ensures IsNewestFirst(r)
      ensures SameTieOrder(r, State().Collected(userId))
      ensures multiset(r) == multiset(State().Collected(userId))
      ensures forall d :: d in r <==> d.UserId() == userId && State().Holds(d)
    {
      var results := CollectUserRows(userId);
      r := SortNewestFirst(results);
      forall d ensures d in r <==> d.UserId() == userId && State().Holds(d) {
        StoreProperties.CollectedMembership(State(), userId, d);
        assert d in r <==> d in multiset(r);
      }
    }

    /** The three collection loops of `get_user_brain_dumps`. */
    method CollectUserRows(userId: int) returns (results: seq<BrainDump>)
      ensures results == State().Collected(userId)
    {
      results := [];
      for k := 0 to taskIdCounter
        invariant results == Rows(State().TaskDumps(), k, userId)
      {
        if k in tasks && tasks[k].userId == userId {
          results := results + [TaskResponse(k, tasks[k])];
        }
      }
      ghost var fromTasks := results;
      for k := 0 to shoppingListIdCounter
        invariant results == fromTasks + Rows(State().ShoppingListDumps(), k, userId)
      {
        if k in shoppingLists && shoppingLists[k].userId == userId {
          results := results + [ShoppingListResponse(k, shoppingLists[k])];
        }
      }
      ghost var fromLists := results;
      for k := 0 to calendarEventIdCounter
        invariant results == fromLists + Rows(State().CalendarEventDumps(), k, userId)
      {
        if k in calendarEvents && calendarEvents[k].userId == userId {
          results := results + [CalendarEventResponse(k, calendarEvents[k])];
        }
      }
    }
  }
}
