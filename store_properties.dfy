/**
 * What the in-memory store promises: lookup by email finds the one user with that
 * email, creating users is idempotent, every create hands out a fresh id without
 * overwriting anything and touches only its own table and counter, and the per-user
 * query collects exactly the user's records.
 */
module StoreProperties {
  import opened Wrappers
  import opened StoreModel

  /** An email already present: its user's id comes back and the store is unchanged. */
  lemma GetOrCreateUserExisting(t: Tables, email: string, now: nat, k: nat)
    requires t.Valid()
    requires k in t.users && t.users[k].email == email
    ensures t.GetOrCreateUser(email, now) == (t, User(k, email, t.users[k].createdAt))
  {
    match t.LookupUser(email)
    case Some(j) =>
      assert j in t.users && t.users[j].email == email;
    case None =>
      assert false;
  }

  /** A new email: the old user counter is the new id, the counter goes up by one,
      exactly one user is added, and no other table or counter changes. */
  lemma GetOrCreateUserNew(t: Tables, email: string, now: nat)
    requires t.Valid()
    requires forall k :: k in t.users ==> t.users[k].email != email
    ensures var (t', u) := t.GetOrCreateUser(email, now);
      && u == User(t.userIdCounter, email, now)
      && t.userIdCounter !in t.users
      && t'.users == t.users[u.id := UserRecord(email, now)]
      && |t'.users| == |t.users| + 1
      && t'.userIdCounter == t.userIdCounter + 1
      && t'.(users := t.users, userIdCounter := t.userIdCounter) == t
  {
    assert t.userIdCounter !in t.users;
  }

  /** `get_or_create_user` keeps the store valid (in particular emails stay unique)
      and returns a user stored under its id with the requested email. */
  lemma GetOrCreateUserValid(t: Tables, email: string, now: nat)
    requires t.Valid()
    ensures var (t', u) := t.GetOrCreateUser(email, now);
      t'.Valid() && u.id in t'.users && t'.users[u.id] == UserRecord(email, u.createdAt)
  {
    if k :| k in t.users && t.users[k].email == email {
      GetOrCreateUserExisting(t, email, now, k);
    } else {
      GetOrCreateUserNew(t, email, now);
      var (t', u) := t.GetOrCreateUser(email, now);
      forall i, j | i in t'.users && j in t'.users && t'.users[i].email == t'.users[j].email
        ensures i == j
      {
        if i != u.id && j != u.id {
          assert t.users[i].email == t.users[j].email;
        }
      }
    }
  }

  /** Asking twice for the same email returns the same user and the second call
      changes nothing, whatever its timestamp. */
  lemma GetOrCreateUserIdempotent(t: Tables, email: string, now: nat, later: nat)
    requires t.Valid()
    ensures var (t1, u1) := t.GetOrCreateUser(email, now);
      t1.GetOrCreateUser(email, later) == (t1, u1)
  {
    GetOrCreateUserValid(t, email, now);
    var (t1, u1) := t.GetOrCreateUser(email, now);
    GetOrCreateUserExisting(t1, email, later, u1.id);
    if k :| k in t.users && t.users[k].email == email {
      GetOrCreateUserExisting(t, email, now, k);
    } else {
      GetOrCreateUserNew(t, email, now);
    }
  }

  /** `create_task` returns the old task counter as a fresh id, stores its arguments
      unchanged under category "task", and changes only `tasks` and its counter. */
  lemma CreateTaskFresh(t: Tables, userId: int, title: string, description: string, rawInput: string,
                        dueDate: Option<string>, now: nat)
    requires t.Valid()
    ensures var (t', d) := t.CreateTask(userId, title, description, rawInput, dueDate, now);
      && t'.Valid()
      && d == TaskResponse(t.taskIdCounter, TaskRecord(userId, "task", title, description, dueDate, rawInput, now))
      && d.id !in t.tasks
      && t'.tasks == t.tasks[d.id := d.task]
      && |t'.tasks| == |t.tasks| + 1
      && t'.taskIdCounter == t.taskIdCounter + 1
      && t'.(tasks := t.tasks, taskIdCounter := t.taskIdCounter) == t
  {
    assert t.taskIdCounter !in t.tasks;
  }

  /** `create_calendar_event` returns a fresh id, stores date and time (possibly
      absent) as given, and changes only `calendar_events` and its counter. */
  lemma CreateCalendarEventFresh(t: Tables, userId: int, title: string, description: string, eventDate: string,
                                 rawInput: string, eventTime: Option<string>, now: nat)
    requires t.Valid()
    ensures var (t', d) := t.CreateCalendarEvent(userId, title, description, eventDate, rawInput, eventTime, now);
      && t'.Valid()
      && d == CalendarEventResponse(t.calendarEventIdCounter,
               CalendarEventRecord(userId, "calendar_event", title, description, eventDate, eventTime, rawInput, now))
      && d.id !in t.calendarEvents
      && t'.calendarEvents == t.calendarEvents[d.id := d.event]
      && |t'.calendarEvents| == |t.calendarEvents| + 1
      && t'.calendarEventIdCounter == t.calendarEventIdCounter + 1
      && t'.(calendarEvents := t.calendarEvents, calendarEventIdCounter := t.calendarEventIdCounter) == t
  {
    assert t.calendarEventIdCounter !in t.calendarEvents;
  }

  /** The item responses of a new list number the items consecutively from
      `firstId`, in input order, each carrying the list's id and the item's fields. */
  lemma {:induction false} ItemResponsesAt(listId: nat, firstId: nat, items: seq<ShoppingItem>)
    ensures forall i :: 0 <= i < |items| ==>
      ItemResponses(listId, firstId, items)[i]
        == ShoppingItemResponse(firstId + i, ShoppingItemRecord(listId, items[i].itemName, items[i].quantity))
    decreases |items|
  {
    if items != [] {
      ItemResponsesAt(listId, firstId, items[..|items| - 1]);
    }
  }

  /** Storing the responses of `n` items numbered from `first` adds exactly the keys
      `first .. first+n-1`, each holding its item, and leaves every other key alone. */
  lemma {:induction false} StoredItems(m: map<nat, ShoppingItemRecord>, listId: nat, first: nat, items: seq<ShoppingItem>)
    ensures var r := StoreItems(m, ItemResponses(listId, first, items));
      && (forall k :: k in r <==> k in m || first <= k < first + |items|)
      && (forall k :: first <= k < first + |items| ==>
            r[k] == ShoppingItemRecord(listId, items[k - first].itemName, items[k - first].quantity))
      && (forall k :: k in m && !(first <= k < first + |items|) ==> r[k] == m[k])
    decreases |items|
  {
    if items != [] {
      var n := |items| - 1;
      StoredItems(m, listId, first, items[..n]);
      ItemResponsesAt(listId, first, items);
      var rs := ItemResponses(listId, first, items);
      assert rs[..n] == ItemResponses(listId, first, items[..n]);
    }
  }

  /** Adding a list whose items are all stored, to an item table that only grew,
      keeps every list consistent with the items. */
  lemma AddedListMatchesItems(lists: map<nat, ShoppingListRecord>, items: map<nat, ShoppingItemRecord>,
                              items': map<nat, ShoppingItemRecord>, listId: nat, list: ShoppingListRecord)
    requires ListsMatchItems(lists, items)
    requires forall k :: k in items ==> k in items' && items'[k] == items[k]
    requires forall i :: 0 <= i < |list.items| ==> ItemStored(list.items[i], listId, items')
    ensures ListsMatchItems(lists[listId := list], items')
  {
    var lists' := lists[listId := list];
    forall l, i | l in lists' && 0 <= i < |lists'[l].items| ensures ItemStored(lists'[l].items[i], l, items') {
      if l != listId {
        assert ItemStored(lists[l].items[i], l, items);
      }
    }
  }

  /** Storing the items of a new list on a table holding ids `1 .. first-1` gives a
      table holding ids `1 .. first+n-1`, keeps the old entries, and stores every new
      item under its id with the list's id. */
  lemma StoredItemsValid(m: map<nat, ShoppingItemRecord>, listId: nat, first: nat, items: seq<ShoppingItem>)
    requires first >= 1 && KeysBelow(m, first)
    ensures var rs := ItemResponses(listId, first, items);
      var m' := StoreItems(m, rs);
      && KeysBelow(m', first + |items|)
      && (forall k :: k in m ==> k in m' && m'[k] == m[k])
      && (forall i :: 0 <= i < |rs| ==> ItemStored(rs[i], listId, m'))
  {
    var rs := ItemResponses(listId, first, items);
    var m' := StoreItems(m, rs);
    StoredItems(m, listId, first, items);
    assert KeysBelow(m', first + |items|) by {
      forall k: nat ensures k in m' <==> 1 <= k < first + |items| {
        assert k in m <==> 1 <= k < first;
      }
    }
    assert forall k :: k in m ==> k in m' && m'[k] == m[k] by {
      forall k | k in m ensures k in m' && m'[k] == m[k] {
        assert k < first;
      }
    }
    assert forall i :: 0 <= i < |rs| ==> ItemStored(rs[i], listId, m') by {
      ItemResponsesAt(listId, first, items);
      forall i | 0 <= i < |rs| ensures ItemStored(rs[i], listId, m') {
        var k := first + i;
        assert k - first == i;
        assert m'[k] == ShoppingItemRecord(listId, items[i].itemName, items[i].quantity);
      }
    }
  }

  /** `create_shopping_list` keeps the store valid: list and item tables still hold
      exactly the ids their counters handed out, and every item of every list is
      stored under its id and points back to its list. */
  lemma CreateShoppingListValid(t: Tables, userId: int, title: string, items: seq<ShoppingItem>,
                                rawInput: string, now: nat)
    requires t.Valid()
    ensures t.CreateShoppingList(userId, title, items, rawInput, now).0.Valid()
  {
    var first, listId := t.shoppingItemIdCounter, t.shoppingListIdCounter;
    var rs := ItemResponses(listId, first, items);
    var list := ShoppingListRecord(userId, ShoppingListCategory, title, rs, rawInput, now);
    var items' := StoreItems(t.shoppingItems, rs);
    StoredItemsValid(t.shoppingItems, listId, first, items);
    AddedListMatchesItems(t.shoppingLists, t.shoppingItems, items', listId, list);
    assert KeysBelow(t.shoppingLists[listId := list], listId + 1);
  }

  /** `create_shopping_list` returns a fresh list id; for n items it advances the item
      counter by n and gives the items consecutive ids in input order, each pointing
      back to the new list; earlier items are untouched; users, tasks and events do
      not change. */
  lemma CreateShoppingListFresh(t: Tables, userId: int, title: string, items: seq<ShoppingItem>,
                                rawInput: string, now: nat)
    requires t.Valid()
    ensures var (t', d) := t.CreateShoppingList(userId, title, items, rawInput, now);
      && d.ShoppingListResponse?
      && d.id == t.shoppingListIdCounter && d.id !in t.shoppingLists
      && t'.shoppingLists == t.shoppingLists[d.id := d.list]
      && t'.shoppingListIdCounter == t.shoppingListIdCounter + 1
      && d.list.userId == userId && d.list.category == "shopping_list" && d.list.title == title
      && d.list.rawInput == rawInput && d.list.createdAt == now
      && |d.list.items| == |items|
      && (forall i :: 0 <= i < |items| ==>
            d.list.items[i] == ShoppingItemResponse(t.shoppingItemIdCounter + i,
                                 ShoppingItemRecord(d.id, items[i].itemName, items[i].quantity)))
      && t'.shoppingItemIdCounter == t.shoppingItemIdCounter + |items|
      && (forall k :: k in t.shoppingItems ==> k in t'.shoppingItems && t'.shoppingItems[k] == t.shoppingItems[k])
      && t'.users == t.users && t'.tasks == t.tasks && t'.calendarEvents == t.calendarEvents
      && t'.userIdCounter == t.userIdCounter && t'.taskIdCounter == t.taskIdCounter
      && t'.calendarEventIdCounter == t.calendarEventIdCounter
  {
    var first := t.shoppingItemIdCounter;
    var (t', d) := t.CreateShoppingList(userId, title, items, rawInput, now);
    StoredItems(t.shoppingItems, d.id, first, items);
    ItemResponsesAt(d.id, first, items);
    assert d.id !in t.shoppingLists;
    forall k | k in t.shoppingItems ensures !(first <= k < first + |items|) {
      assert k < first;
    }
  }

  /** Rows of a table whose entries carry their own key: `d` is collected exactly when
      it is stored under its id below the bound and belongs to the user. */
  lemma {:induction false} RowsMembership(m: map<nat, BrainDump>, n: nat, userId: int, d: BrainDump)
    requires forall k :: k in m ==> m[k].id == k
    ensures d in Rows(m, n, userId) <==> d.id < n && d.id in m && m[d.id] == d && d.UserId() == userId
  {
    if n > 0 {
      RowsMembership(m, n - 1, userId, d);
    }
  }

  /** The query collects exactly the records of the three tables whose `user_id`
      matches, and nothing else. */
  lemma CollectedMembership(t: Tables, userId: int, d: BrainDump)
    requires t.Valid()
    ensures d in t.Collected(userId) <==> d.UserId() == userId && t.Holds(d)
  {
    RowsMembership(t.TaskDumps(), t.taskIdCounter, userId, d);
    RowsMembership(t.ShoppingListDumps(), t.shoppingListIdCounter, userId, d);
    RowsMembership(t.CalendarEventDumps(), t.calendarEventIdCounter, userId, d);
    match d
    case TaskResponse(k, _) =>
      if k in t.tasks { assert 1 <= k < t.taskIdCounter; }
    case ShoppingListResponse(k, _) =>
      if k in t.shoppingLists { assert 1 <= k < t.shoppingListIdCounter; }
    case CalendarEventResponse(k, _) =>
      if k in t.calendarEvents { assert 1 <= k < t.calendarEventIdCounter; }
  }
}
