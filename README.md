# In-memory resource stores: a Dafny model

This project models the two CRUD services of the repository, each with its in-memory store:

- **The product catalog** (`flask/main.py`) keeps a module-level dictionary `db` from integer ids to records `{name, price}`. Its handlers read one record or all of them, and create, replace (PUT), merge (PATCH) and delete records. There is also a case-insensitive search on names, a count of the entries and a clear. The model is module `Catalog` in `catalog.dfy`, with the string helpers in `text.dfy`.
- **The todo list** (`fast-api/main.py`) keeps a module-level list `all_todos` of `Todo` records `{todo_id, todo_name, todo_description, priority}`, where the priority is the integer enum HIGH=1, MEDIUM=2, LOW=3. Get one, update and delete each search the list linearly for the id and return at the first match. Get the first `n` takes a slice of the list. Create takes the largest id, adds one, and appends the new record. The model is module `Todos` in `todos.dfy`.

Each store is modelled the same way:

- Each handler has a function over the store's value (a `map<int, Item>` or a `seq<Todo>`). The function returns a *step*: the handler's answer (a value, or an error standing for the HTTP status) together with the store afterwards. Its contract states what the handler promises: that the id is fresh, which entries are left unchanged, and which error comes in which case.
- A class (`CatalogStore`, `TodoStore`) holds the store as a field. Its methods update the field in place, as the module-level globals are updated. Each method is proved to produce exactly the step its function gives. The todo methods also preserve the class invariant that todo ids are unique and names are 3 to 512 characters long.
- Lemmas relate the operations to each other. Deleting what was just created restores the store, and reading after a write returns what was written. PATCH with every field is PUT, PATCH with no field changes nothing, and a repeated PATCH does nothing more. After a delete, the id is not found.

A request body is modelled field by field as `Field<T>`: `Absent`, `Null` or `Present(v)`. This keeps apart what pydantic treats differently: a required field, a field with a default, and an `Optional` field whose `None` means "not given". The schemas are checked by `ParseItem`, `ParseCreate` and `ParseUpdate`. FastAPI validates the body before the handler runs, so 422 comes before 404. In Flask, PUT and PATCH check the id before they parse the body, so 404 comes before 400.

Two behaviours of the code are worth stating on their own:

- On an empty list, `create_todo` calls `max` on an empty sequence, which raises. The model therefore answers 500 (`InternalError`) and leaves the list unchanged.
- `update_todo` writes the update into the stored record in place and does not need a full body. The name is written only when the update gives one. As written, the description and priority are written even when the update leaves them out, and they become None (see Findings).

## Model

| member | source | states |
|---|---|---|
| `Catalog.ParseItem` | flask/main.py:15-17 | An `Item` body is accepted exactly when both `name` and `price` are present and not null. The record then carries those values; otherwise the answer is 400. |
| `Catalog.Merge` | flask/main.py:71-72 | PATCH's `update(... exclude_none=True)`: a field sent with a value overwrites the stored one. A field left out or sent as null keeps the stored value. |
| `Catalog.MaxKey` | flask/main.py:55 | The maximum of a non-empty key set is one of the keys and is at least every key. |
| `Catalog.NewId` | flask/main.py:55 | The allocated id is never a key and exceeds every key. It is 1 on an empty dictionary, and otherwise one more than an existing key, which makes it `max(keys)+1`. |
| `Catalog.LargestKey` | flask/main.py:55 | The scan that computes `max(db.keys())` returns a key that is at least every key. |
| `Catalog.Get` | flask/main.py:46-50 | `get_item` succeeds exactly when the id is a key, and then returns that id with its stored record. Otherwise it answers 404. |
| `Catalog.Create` | flask/main.py:53-57 | An invalid body gives 400 and leaves `db` unchanged. A valid body is stored under the id `NewId(db)`, that is `max(keys)+1` (or 1 on an empty dictionary), which was not a key and exceeds every key. The stored record equals the body, and every other entry is unchanged. |
| `Catalog.Put` | flask/main.py:60-65 | An absent id gives 404 and an invalid body gives 400, both with `db` unchanged. Otherwise both fields are replaced with the body's values, and the key set and every other entry are unchanged. |
| `Catalog.Patch` | flask/main.py:68-73 | An absent id gives 404 with `db` unchanged. Otherwise the stored record becomes the merge of the old record and the body, and the key set and every other entry are unchanged. |
| `Catalog.Delete` | flask/main.py:76-80 | An absent id gives 404 with `db` unchanged. Otherwise the id's record is returned and the key is removed; the remaining entries are unchanged. |
| `Catalog.Search` | flask/main.py:83-86 | The result holds exactly the entries whose lower-cased name contains the lower-cased query, with the same ids and records. |
| `Catalog.GetAfterCreate` | flask/main.py:53-57 | Reading the newly allocated id right after a create returns the validated body. |
| `Catalog.DeleteUndoesCreate` | flask/main.py:76-80 | Deleting the item just created returns it and restores the dictionary exactly. |
| `Catalog.CountAfterCreateAndDelete` | flask/main.py:95 | A successful create adds one to the count, and a successful delete takes one away. |
| `Catalog.GetAfterUpdate` | flask/main.py:59-73 | After a successful PUT or PATCH, reading the id gives what the handler returned. |
| `Catalog.GetAfterDelete` | flask/main.py:75-80 | After a delete, reading the id gives 404. |
| `Catalog.PatchWithAllFieldsIsPut` | flask/main.py:67-73 | A PATCH that sends both fields has the same answer and effect as a PUT with that body. |
| `Catalog.PatchWithNoFieldsChangesNothing` | flask/main.py:72 | A PATCH that sends no field with a value leaves `db` unchanged. |
| `Catalog.PatchIdempotent` | flask/main.py:72 | Repeating a PATCH gives the same answer and the same dictionary. |
| `Catalog.SearchEmptyQueryIsEverything` | flask/main.py:84 | The empty query, which is also the default for a missing `name`, returns the whole dictionary. |
| `Catalog.SearchIgnoresQueryCase` | flask/main.py:84-85 | A query and its lower-cased form give the same results. |
| `Catalog.SearchFindsOwnName` | flask/main.py:85 | Every entry is found by a search for its own name. |
| `Catalog.SearchNarrows` | flask/main.py:85 | Lengthening the query can only remove results. |
| `Catalog.CreateIdExamples` | flask/main.py:7-13 | Creating on the initial five-item catalog allocates id 6. Creating after a clear allocates id 1. |
| `Catalog.PatchScenario` | flask/main.py:126 | With items 1 (Apple, 50) and 2 (Banana, 20), PATCH 1 `{"price": 55}` makes item 1 (Apple, 55), and the count stays 2. |
| `Catalog.CatalogStore.constructor` | flask/main.py:7-13 | The store starts with the five seeded records. |
| `Catalog.CatalogStore.GetAll` | flask/main.py:42-43 | Returns the whole dictionary. |
| `Catalog.CatalogStore.GetItem` | flask/main.py:46-50 | Answers as `Get` does and changes nothing. |
| `Catalog.CatalogStore.CreateItem` | flask/main.py:53-57 | Updates `db` in place to the state `Create` gives and returns its answer. |
| `Catalog.CatalogStore.PutItem` | flask/main.py:60-65 | Updates `db` in place to the state `Put` gives and returns its answer. |
| `Catalog.CatalogStore.PatchItem` | flask/main.py:68-73 | Updates `db` in place to the state `Patch` gives and returns its answer. |
| `Catalog.CatalogStore.DeleteItem` | flask/main.py:76-80 | Updates `db` in place to the state `Delete` gives and returns its answer. |
| `Catalog.CatalogStore.SearchItems` | flask/main.py:83-86 | Returns `Search` with the `name` parameter, or with the empty string when the parameter is missing. |
| `Catalog.CatalogStore.Count` | flask/main.py:95 | The `count` of `get_stats` is the number of entries. |
| `Catalog.CatalogStore.ClearAll` | flask/main.py:100-101 | Afterwards `db` is empty. |
| `Text.Lower` | flask/main.py:84-85 | `str.lower()` keeps the length and lower-cases each character (ASCII). |
| `Text.Contains` | flask/main.py:85 | `needle in hay` holds exactly when some slice of `hay` equals `needle`. |
| `Text.EmptyOccursEverywhere` | flask/main.py:84-85 | The empty string is contained in every string. |
| `Todos.PriorityOf` | fast-api/main.py:11-14 | An integer names a priority exactly when it is 1, 2 or 3, and the member it names has that value. |
| `Todos.PriorityRoundTrip` | fast-api/main.py:11-14 | There are exactly three priorities with distinct values, and validating a member's value gives the member back. |
| `Todos.ParseCreate` | fast-api/main.py:17-24 | A `TodoCreate` needs a name of 3 to 512 characters and a description. The priority may be left out, which gives LOW, but may not be null or outside 1..3. Anything else is 422. |
| `Todos.ParseUpdate` | fast-api/main.py:27-30 | In a `TodoUpdate` every field is optional, and null means absent. A name that is given must be 3 to 512 characters, and a priority that is given must be in the enum; anything else is 422. |
| `Todos.ApplyUpdate` | fast-api/main.py:91-99 | The intended update: supplied fields overwrite the stored ones, omitted fields are kept, and the id is unchanged. |
| `Todos.ApplyUpdateLaws` | fast-api/main.py:93-98 | An update supplying nothing is the identity, and applying an update twice is applying it once. |
| `Todos.UpdateAsWritten` | fast-api/main.py:93-98 | As written, the name is replaced exactly when the update gives one and is kept otherwise. On a record whose description and priority are set, those two fields are always overwritten with the update's values, even when those are None. A field already None stays None. The id never changes. |
| `Todos.AsWrittenClearsOmittedFields` | fast-api/main.py:95-98 | As written, an update that only renames a todo sets its description and priority to None, which the intended update does not do. |
| `Todos.AsWrittenNoneSticks` | fast-api/main.py:95-98 | As written, once a description or priority is None, no later update restores it. |
| `Todos.AsWrittenAgreesWhenComplete` | fast-api/main.py:93-98 | When the update supplies a description and a priority, the code as written and the intended update agree. |
| `Todos.IndexOf` | fast-api/main.py:60-63 | The linear search finds the first position whose id matches. When it finds none, no position matches. |
| `Todos.MaxId` | fast-api/main.py:78 | The maximum id of a non-empty list is one of its ids and is at least every id. |
| `Todos.LargestId` | fast-api/main.py:78 | The scan that computes `max(todo.todo_id ...)` returns an id of the list that is at least every id. |
| `Todos.Get` | fast-api/main.py:58-65 | `get_todo` succeeds exactly when some todo has the id, and then returns the first list element with that id. Otherwise it answers 404. |
| `Todos.SliceStop` | fast-api/main.py:72 | Python's stop index for `xs[:n]` always lies within the list. |
| `Todos.FirstN` | fast-api/main.py:69-74 | `get_todos` always returns a prefix of the list. It is the whole list for `None` or 0, and `min(n, len)` elements for `n > 0`. For `n < 0` it drops the last `abs(n)` elements, giving the empty list when `abs(n)` is at least the length. |
| `Todos.NextId` | fast-api/main.py:78 | The new id exceeds every id in the list and is one more than an id in the list. |
| `Todos.Create` | fast-api/main.py:76-87 | An invalid body gives 422, and an empty list gives 500; both leave the list unchanged. Otherwise the new todo carries the body's fields under the id `NextId(todos)`, that is `max(ids)+1`, which is greater than every existing id. It is appended at the end, and the earlier elements are unchanged. |
| `Todos.Update` | fast-api/main.py:89-101 | Corrected handler (see Findings). An invalid body gives 422 and an absent id gives 404, both with the list unchanged. Otherwise the first todo with the id is updated in place and returned, and every other position is unchanged. |
| `Todos.Delete` | fast-api/main.py:103-110 | Corrected handler (see Findings). An absent id gives 404 with the list unchanged. Otherwise the first todo with the id is removed and returned, and the others keep their order. |
| `Todos.DeleteAsWritten` | fast-api/main.py:105-106 | As written, the handler never changes the list. It answers 500 on a non-empty list and 404 only on an empty one. |
| `Todos.DeleteAsWrittenNeverDeletes` | fast-api/main.py:105-110 | For an id that is present, the handler as written answers 500 and deletes nothing, where the intended handler removes one todo. |
| `Todos.IndexOfAppendedLargest` | fast-api/main.py:78-85 | A todo appended with an id above every existing id is the first match for that id. |
| `Todos.CreateKeepsTodosValid` | fast-api/main.py:76-87 | Create keeps ids unique and every name 3 to 512 characters long. |
| `Todos.UpdateKeepsTodosValid` | fast-api/main.py:89-101 | Update keeps ids unique and every name 3 to 512 characters long. |
| `Todos.DeleteKeepsTodosValid` | fast-api/main.py:103-110 | Delete keeps ids unique and every name 3 to 512 characters long. |
| `Todos.GetAfterCreate` | fast-api/main.py:76-87 | Reading the id of a todo just created returns that todo. |
| `Todos.DeleteUndoesCreate` | fast-api/main.py:103-110 | Deleting the todo just created returns it and restores the list exactly. |
| `Todos.GetAfterUpdate` | fast-api/main.py:89-101 | After a successful update, reading the id returns the updated todo. |
| `Todos.GetAfterDelete` | fast-api/main.py:103-110 | When ids are unique, the id of a deleted todo is no longer found. |
| `Todos.DeleteRemovesOne` | fast-api/main.py:105-108 | A delete removes exactly the returned todo: the old list's multiset is the new list's plus that todo. |
| `Todos.FirstNExamples` | fast-api/main.py:69-74 | On the five seeded todos: `first_n` 3 and -2 both give the first three, 0 and 9 give all five, and -9 gives none. |
| `Todos.TodoStore.constructor` | fast-api/main.py:38-44 | The store starts with the five seeded todos and satisfies its invariant. |
| `Todos.TodoStore.GetTodo` | fast-api/main.py:58-65 | The search loop with early return answers as `Get` does and changes nothing. |
| `Todos.TodoStore.GetTodos` | fast-api/main.py:69-74 | Returns `FirstN` of the list. |
| `Todos.TodoStore.CreateTodo` | fast-api/main.py:76-87 | Updates the list in place to the state `Create` gives, returns its answer, and keeps the invariant. |
| `Todos.TodoStore.UpdateTodo` | fast-api/main.py:89-101 | Corrected handler (see Findings). The search loop updates the list in place to the state `Update` gives, returns its answer, and keeps the invariant. |
| `Todos.TodoStore.DeleteTodo` | fast-api/main.py:103-110 | Corrected handler (see Findings). The search loop pops the element as `Delete` does, returns its answer, and keeps the invariant. |

## Left out

- HTTP plumbing: app construction, routes, `jsonify`, the HTML error pages, `app.run`, and the mapping of exceptions to status codes. A 404, 400, 422 or 500 is an `Error` value. Routing details are not modelled: PUT on todos is served at `/todo/{todo_id}` while the others use `/todos`, and Flask's `<int:...>` converter accepts only non-negative ids.
- Pydantic itself: type coercion (the integer `55` becoming the float `55.0`) and rejection of wrongly typed values. A body field is only absent, null or present with a value of the right type.
- `PartialItem` follows pydantic 1, where an `Optional` field without a default defaults to `None`. Under pydantic 2, a PATCH that leaves out a field would be rejected with 400.
- Float arithmetic: prices are exact reals. `get_total_price` and the average with `round(avg, 2)` in `get_stats` are not modelled; the count is.
- Unicode case folding: `Text.Lower` folds only ASCII letters.
- Object identity: stored records are values. Flask's in-place `dict.update` and FastAPI's assignments to the returned `Todo` object are modelled as replacing the entry. The aliasing is not observable because each answer is serialized at once.
- FastAPI's validation of a handler's return value against `response_model` is not modelled.
- The prediction service, the model training script, the app bootstrap files and the unused `all_todos_old` list are not part of this model.
- Concurrency: handlers run one at a time over the module-level state.

## Findings

| source | as written | input that shows it | evidently intended | confidence | as-written member | corrected member |
|---|---|---|---|---|---|---|
| fast-api/main.py:95-98 | The guards test the stored `todo.todo_description` and `todo.priority`, so both are overwritten with the update's values, including `None`. | `PUT /todo/1 {"todo_name": "Clean garage"}` on the seeded list sets todo 1's description and priority to `None`; no later update can restore them. | Test `updated_todo.todo_description` and `updated_todo.priority`, as the name guard does. | high; not executed | `Todos.UpdateAsWritten`, `Todos.AsWrittenClearsOmittedFields` | `Todos.ApplyUpdate`, `Todos.ApplyUpdateLaws` |
| fast-api/main.py:106 | `todo['todo_id']` subscripts a pydantic model, which raises `TypeError` at the first element. | `DELETE /todos/1` on the seeded list answers 500 and deletes nothing. | Compare the attribute `todo.todo_id`. | high; not executed | `Todos.DeleteAsWritten`, `Todos.DeleteAsWrittenNeverDeletes` | `Todos.Delete`, `Todos.DeleteUndoesCreate` |
