/** The product catalog of flask/main.py: a dictionary `db` from integer ids to
    records `{name, price}`, and the handlers that read and update it.

    Each handler is specified by a function over the dictionary's value that gives
    its answer and the dictionary afterwards (a `Step`); the class `CatalogStore`
    holds the dictionary as a field and its methods update it in place, proved
    against those functions. */
module Catalog {
  import opened Wrappers
  import Text

  /** A stored record, the dictionary `Item(...).dict()`; prices are exact reals. */
  datatype Item = Item(name: string, price: real)

  /** The JSON body of a POST, PUT or PATCH request, field by field. */
  datatype Body = Body(name: Field<string>, price: Field<real>)

  /** The failures the handlers answer with: 404 for an id that is not a key,
      400 when the body does not satisfy the `Item` schema. */
  datatype Error = NotFound | BadRequest

  /** What a successful handler returns: `{id: record}`. */
  datatype Entry = Entry(id: int, item: Item)

  type Db = map<int, Item>

  /** A handler's answer together with the dictionary after it ran. */
  datatype Step = Step(reply: Result<Entry, Error>, db: Db)

  /** The dictionary the service starts with. */
  function Seed(): Db {
    map[1 := Item("Apple", 50.0), 2 := Item("Banana", 20.0), 3 := Item("Mango", 70.0),
        4 := Item("Grapes", 40.0), 5 := Item("Orange", 35.0)]
  }

  // ---------------------------------------------------------------- validation

  /** `Item(**request.json)`: both fields are required and neither may be null. */
  function ParseItem(b: Body): (r: Result<Item, Error>)
    ensures r.Ok? <==> b.name.Present? && b.price.Present?
    ensures r.Ok? ==> r.value.name == b.name.value && r.value.price == b.price.value
    ensures r.Err? ==> r.error == BadRequest
  {
    if b.name.Present? && b.price.Present? then Ok(Item(b.name.value, b.price.value))
    else Err(BadRequest)
  }

  /** `record.update(PartialItem(**request.json).dict(exclude_none=True))`: a field
      sent with a value overwrites the stored one; a field left out or sent as null
      keeps the stored value. */
  function Merge(it: Item, b: Body): (r: Item)
    ensures b.name.Present? ==> r.name == b.name.value
    ensures !b.name.Present? ==> r.name == it.name
    ensures b.price.Present? ==> r.price == b.price.value
    ensures !b.price.Present? ==> r.price == it.price
  {
    Item(b.name.OrNone().GetOr(it.name), b.price.OrNone().GetOr(it.price))
  }

  // ---------------------------------------------------------------- id allocation

  /** The largest element of a non-empty set of ids. */
  ghost function MaxKey(keys: set<int>): (m: int)
    requires keys != {}
    ensures m in keys
    ensures forall k :: k in keys ==> k <= m
    decreases keys
  {
    HasElement(keys);
    var k :| k in keys;
    var rest := keys - {k};
    assert forall j :: j in keys ==> j == k || j in rest;
    if rest == {} then k
    else
      var r := MaxKey(rest);
      if k < r then r else k
  }

  /** A non-empty set has an element to pick. */
  lemma HasElement(s: set<int>)
    requires s != {}
    ensures exists x :: x in s
  {
    if forall x :: x !in s {
      assert false;
    }
  }

  /** `max(db.keys()) + 1 if db else 1`: one more than the largest key, or 1 for an
      empty dictionary; so it is never a key and exceeds every key. */
  ghost function NewId(db: Db): (id: int)
    ensures id !in db
    ensures forall k :: k in db ==> k < id
    ensures db == map[] ==> id == 1
    ensures db != map[] ==> id - 1 in db
  {
    if db == map[] then 1 else MaxKey(db.Keys) + 1
  }

  /** `max(db.keys())`, computed by a scan over the keys. */
  method LargestKey(keys: set<int>) returns (m: int)
    requires keys != {}
    ensures m in keys
    ensures forall k :: k in keys ==> k <= m
  {
    HasElement(keys);
    m :| m in keys;
    var rest := keys - {m};
    while rest != {}
      invariant rest <= keys
      invariant m in keys
      invariant forall k :: k in keys && k !in rest ==> k <= m
      decreases rest
    {
      HasElement(rest);
      var k :| k in rest;
      if m < k {
        m := k;
      }
      rest := rest - {k};
    }
  }

  // ---------------------------------------------------------------- handlers

  /** `get_item`: the record stored under `id`, or 404. The stored records are never
      empty dictionaries, so `if not item` fails exactly when `id` is not a key. */
  function Get(db: Db, id: int): (r: Result<Entry, Error>)
    ensures r.Ok? <==> id in db
    ensures r.Ok? ==> r.value == Entry(id, db[id])
    ensures r.Err? ==> r.error == NotFound
  {
    if id in db then Ok(Entry(id, db[id])) else Err(NotFound)
  }

  /** `create_item`: validate the body, then store it under a fresh id. */
  ghost function Create(db: Db, b: Body): (s: Step)
    ensures ParseItem(b).Err? ==> s == Step(Err(BadRequest), db)
    ensures ParseItem(b).Ok? ==>
      && s.reply.Ok?
      && s.reply.value.item == ParseItem(b).value
      && s.reply.value.id == NewId(db)
      && s.reply.value.id !in db
      && (forall k :: k in db ==> k < s.reply.value.id)
      && s.db == db[s.reply.value.id := s.reply.value.item]
  {
    match ParseItem(b)
    case Err(e) => Step(Err(e), db)
    case Ok(it) => var id := NewId(db); Step(Ok(Entry(id, it)), db[id := it])
  }

  /** `put_item`: 404 if `id` is not a key (before the body is looked at), 400 for a
      body missing a field, otherwise both fields are replaced. */
  function Put(db: Db, id: int, b: Body): (s: Step)
    ensures id !in db ==> s == Step(Err(NotFound), db)
    ensures id in db && ParseItem(b).Err? ==> s == Step(Err(BadRequest), db)
    ensures id in db && ParseItem(b).Ok? ==>
      && s.reply == Ok(Entry(id, ParseItem(b).value))
      && s.db.Keys == db.Keys
      && s.db[id] == ParseItem(b).value
      && (forall k :: k in db && k != id ==> s.db[k] == db[k])
  {
    if id !in db then Step(Err(NotFound), db)
    else match ParseItem(b)
      case Err(e) => Step(Err(e), db)
      case Ok(it) => Step(Ok(Entry(id, it)), db[id := it])
  }

  /** `patch_item`: 404 if `id` is not a key, otherwise the fields sent with a value
      are merged into the stored record. */
  function Patch(db: Db, id: int, b: Body): (s: Step)
    ensures id !in db ==> s == Step(Err(NotFound), db)
    ensures id in db ==>
      && s.reply == Ok(Entry(id, Merge(db[id], b)))
      && s.db.Keys == db.Keys
      && s.db[id] == Merge(db[id], b)
      && (forall k :: k in db && k != id ==> s.db[k] == db[k])
  {
    if id !in db then Step(Err(NotFound), db)
    else var it := Merge(db[id], b); Step(Ok(Entry(id, it)), db[id := it])
  }

  /** `delete_item`: 404 if `id` is not a key, otherwise the key is popped and its
      record returned. */
  function Delete(db: Db, id: int): (s: Step)
    ensures id !in db ==> s == Step(Err(NotFound), db)
    ensures id in db ==>
      && s.reply == Ok(Entry(id, db[id]))
      && s.db.Keys == db.Keys - {id}
      && (forall k :: k in s.db ==> s.db[k] == db[k])
  {
    if id !in db then Step(Err(NotFound), db)
    else Step(Ok(Entry(id, db[id])), db - {id})
  }

  /** The search condition: the lower-cased query occurs in the lower-cased name. */
  predicate Matches(query: string, name: string) {
    Text.Contains(Text.Lower(query), Text.Lower(name))
  }

  /** `search_items`: the entries whose name contains the query, ignoring case. */
  function Search(db: Db, query: string): (r: Db)
    ensures forall k :: k in r <==> k in db && Matches(query, db[k].name)
    ensures forall k :: k in r ==> r[k] == db[k]
  {
    map k | k in db && Matches(query, db[k].name) :: db[k]
  }

  // ---------------------------------------------------------------- properties

  /** Reading an item right after creating it gives back the validated body. */
  lemma GetAfterCreate(db: Db, b: Body)
    requires ParseItem(b).Ok?
    ensures Get(Create(db, b).db, NewId(db)) == Ok(Entry(NewId(db), ParseItem(b).value))
  {
  }

  /** Deleting the item just created restores the dictionary. */
  lemma DeleteUndoesCreate(db: Db, b: Body)
    requires ParseItem(b).Ok?
    ensures Delete(Create(db, b).db, NewId(db)) == Step(Ok(Entry(NewId(db), ParseItem(b).value)), db)
  {
  }

  /** Creating grows the count by one; deleting an existing id shrinks it by one. */
  lemma CountAfterCreateAndDelete(db: Db, id: int, b: Body)
    ensures ParseItem(b).Ok? ==> |Create(db, b).db| == |db| + 1
    ensures id in db ==> |Delete(db, id).db| == |db| - 1
  {
  }

  /** After a successful PUT or PATCH, reading the id gives what the handler returned. */
  lemma GetAfterUpdate(db: Db, id: int, b: Body)
    ensures Put(db, id, b).reply.Ok? ==> Get(Put(db, id, b).db, id) == Put(db, id, b).reply
    ensures Patch(db, id, b).reply.Ok? ==> Get(Patch(db, id, b).db, id) == Patch(db, id, b).reply
  {
  }

  /** Reading a deleted id gives 404. */
  lemma GetAfterDelete(db: Db, id: int)
    ensures Get(Delete(db, id).db, id) == Err(NotFound)
  {
  }

  /** A PATCH that sends both fields does what a PUT with the same body does. */
  lemma PatchWithAllFieldsIsPut(db: Db, id: int, b: Body)
    requires b.name.Present? && b.price.Present?
    ensures Patch(db, id, b) == Put(db, id, b)
  {
  }

  /** A PATCH that sends no field with a value changes nothing. */
  lemma PatchWithNoFieldsChangesNothing(db: Db, id: int, b: Body)
    requires !b.name.Present? && !b.price.Present?
    ensures Patch(db, id, b).db == db
  {
  }

  /** Repeating a PATCH has no further effect. */
  lemma PatchIdempotent(db: Db, id: int, b: Body)
    ensures Patch(Patch(db, id, b).db, id, b) == Patch(db, id, b)
  {
  }

  /** An empty query (also the default when the `name` parameter is missing)
      matches every entry. */
  lemma SearchEmptyQueryIsEverything(db: Db)
    ensures Search(db, "") == db
  {
  }

  /** The query's case does not matter. */
  lemma SearchIgnoresQueryCase(db: Db, query: string)
    ensures Search(db, query) == Search(db, Text.Lower(query))
  {
    Text.LowerIdempotent(query);
  }

  /** Every entry is found by a search for its own name. */
  lemma SearchFindsOwnName(db: Db, id: int)
    requires id in db
    ensures id in Search(db, db[id].name)
  {
  }

  /** Lengthening the query can only narrow the results. */
  lemma SearchNarrows(db: Db, query: string, more: string)
    ensures Search(db, query + more).Keys <= Search(db, query).Keys
  {
    Text.LowerConcat(query, more);
    forall k | k in Search(db, query + more)
      ensures Matches(query, db[k].name)
    {
      Text.PrefixOccurs(Text.Lower(query), Text.Lower(more), Text.Lower(db[k].name));
    }
  }

  /** Creating on the seeded catalog allocates id 6; after a clear it allocates 1. */
  lemma CreateIdExamples(b: Body)
    requires ParseItem(b).Ok?
    ensures Create(Seed(), b).reply.value.id == 6
    ensures Create(map[], b).reply.value.id == 1
  {
  }

  /** The scenario: with {1: Apple 50, 2: Banana 20}, PATCH 1 {"price": 55} makes
      item 1 (Apple, 55) and the count stays 2. */
  lemma PatchScenario()
    ensures var db := map[1 := Item("Apple", 50.0), 2 := Item("Banana", 20.0)];
            var s := Patch(db, 1, Body(Absent, Present(55.0)));
            s.db[1] == Item("Apple", 55.0) && |s.db| == 2
  {
  }

  // ---------------------------------------------------------------- the store

  /** The module-level dictionary `db` and the handlers over it. */
  class CatalogStore {
    var db: Db

    /** The dictionary as the module defines it at start-up. */
    constructor ()
      ensures db == Seed()
    {
      db := Seed();
    }

    /** `get_all`: the whole dictionary. */
    method GetAll() returns (all: Db)
      ensures all == db
    {
      all := db;
    }

    /** `get_item`: a read that leaves the dictionary alone. */
    method GetItem(id: int) returns (r: Result<Entry, Error>)
      ensures r == Get(db, id)
    {
      if id !in db {
        return Err(NotFound);
      }
      r := Ok(Entry(id, db[id]));
    }

    /** `create_item`. */
    method CreateItem(b: Body) returns (r: Result<Entry, Error>)
      modifies this
      ensures Step(r, db) == Create(old(db), b)
    {
      var parsed := ParseItem(b);
      if parsed.Err? {
        return Err(parsed.error);
      }
      var newId := 1;
      if db != map[] {
        var m := LargestKey(db.Keys);
        newId := m + 1;
      }
      assert newId == NewId(db);
      db := db[newId := parsed.value];
      r := Ok(Entry(newId, parsed.value));
    }

    /** `put_item`. */
    method PutItem(id: int, b: Body) returns (r: Result<Entry, Error>)
      modifies this
      ensures Step(r, db) == Put(old(db), id, b)
    {
      if id !in db {
        return Err(NotFound);
      }
      var parsed := ParseItem(b);
      if parsed.Err? {
        return Err(parsed.error);
      }
      db := db[id := parsed.value];
      r := Ok(Entry(id, db[id]));
    }

    /** `patch_item`. */
    method PatchItem(id: int, b: Body) returns (r: Result<Entry, Error>)
      modifies this
      ensures Step(r, db) == Patch(old(db), id, b)
    {
      if id !in db {
        return Err(NotFound);
      }
      db := db[id := Merge(db[id], b)];
      r := Ok(Entry(id, db[id]));
    }

    /** `delete_item`. */
    method DeleteItem(id: int) returns (r: Result<Entry, Error>)
      modifies this
      ensures Step(r, db) == Delete(old(db), id)
    {
      if id !in db {
        return Err(NotFound);
      }
      var deleted := db[id];
      db := db - {id};
      r := Ok(Entry(id, deleted));
    }

    /** `search_items`: the `name` query parameter defaults to the empty string. */
    method SearchItems(name: Option<string>) returns (results: Db)
      ensures results == Search(db, if name.Some? then name.value else "")
    {
      var query := if name.Some? then name.value else "";
      results := map k | k in db && Matches(query, db[k].name) :: db[k];
    }

    /** `get_stats`, its `count` only: the number of entries. */
    method Count() returns (count: nat)
      ensures count == |db|
    {
      count := |db|;
    }

    /** `clear_all`: afterwards the dictionary is empty. */
    method ClearAll()
      modifies this
      ensures db == map[]
    {
      db := map[];
    }
  }
}
