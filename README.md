# Actress record store — Dafny model

This project models the record store behind the actress HTTP service in `app.py`. The service keeps a module-level list `actresses`. Each entry is an actress record with these keys: `id`, `name`, `real_name`, `birth_date`, `nationality`, `ethnicity`, `tags` and `images`. Five handlers work on the list:

- list all records;
- get one record by id;
- create a record;
- patch a record by id;
- delete a record by id.

After each successful change the service writes the whole list to `actresses.json`.

The model has two modules:

- `Records` (`records.dfy`) holds the values and the pure functions that specify the handlers:
  - `Actress` is a stored record. JSON null becomes `None`.
  - `Fields` is a request object. Each key is an `Option`, and `None` means the key is absent. The three nullable keys have type `Option<Option<string>>`, so a request can set them to null.
  - `Reply` is a handler's answer: `Ok(record)`, `Deleted`, `NotFound` or `NameRequired`.
  - The pure functions are `FindFirst` (the `next(...)` scan), `FindValue` (the scan inside `list.remove`), `NewActress` (the record that create builds), `Merge` (update's per-key assignments) and `RemoveAt`.
  - The lemmas relate these functions to each other.
- `App` (`app.dfy`) holds the class `Store` and two loop methods:
  - `Store` has a `seq` field `actresses` and a ghost field `persisted`. The ghost field holds the file's contents, and `None` means the file does not exist.
  - The handler methods have `modifies this`. Their postconditions state the new list and the reply in terms of the `Records` functions. They also say when the snapshot is rewritten: on success they set `persisted` to the new list, and on failure they leave it unchanged.
  - `Valid()` is the invariant that ties the file to the list. Every handler keeps it.
  - The loop methods `IndexOf` and `IndexOfValue` are the linear scans, and each is proved equal to its specification function.

In a few places the code does not do what a reader might expect of a record store:

- **Ids.** The code numbers a new record `len(actresses) + 1`, which is the old length plus one. It does not use the largest id so far. So ids are not unique. One example: start with ids 1, 2, 3, delete 2, then create. The new record gets id 3 while the old record 3 is still in the list. `Records.IdCollision` proves this on the functions and `App.ReissuedIdScenario` proves it on the class.
- **Empty names.** Update does not check the name, so a patch can set `name` to the empty string. Only create checks it.
- **Duplicate ids.** Since ids can repeat, get, update and delete always act on the first record in list order with that id.

## Model

| member | source | states |
|---|---|---|
| `Records.FindFirst` | app.py:28 | Returns the position of the first record whose id matches, with no match before it. Returns None exactly when no record has that id. |
| `Records.FindFirstIs` | app.py:28 | The converse: a matching position with no earlier match is the position the scan returns. |
| `Records.FindValue` | app.py:78 | Returns the first position holding a record equal to the given one, or None exactly when no record equals it. |
| `Records.RemoveHitsFound` | app.py:76-78 | `list.remove` called on the record found by id removes that same position. An earlier equal record would have had the same id and been found first. |
| `Records.NameMissing` | app.py:38 | Defines the refusal test `not data.get("name")`: the `name` key is absent or holds the empty string. Any other string passes. `CreateActress` proves that a create is refused exactly in this case. |
| `Records.NewActress` | app.py:41-50 | The created record's id is the old list length plus one. Its name is the given name, which is non-empty. |
| `Records.CreateDefaults` | app.py:44-49 | A present key gives the request's value. An absent key gives the default: null for `real_name`, `birth_date` and `nationality`, and the empty list for `ethnicity`, `tags` and `images`. |
| `Records.CreateIsMergeOfBlank` | app.py:41-68 | A created record equals the all-defaults record with the new id, patched by the same request the way update patches. |
| `Records.CreateFromRecord` | app.py:41-50 | Posting the JSON of a record whose name is non-empty creates an exact copy of it under the next id. A record whose name an update has set to `""` is refused instead. |
| `Records.CreateThenGet` | app.py:26-54 | After a create, a get on the new id returns the new record at the end of the list, as long as no older record already had that id. When the request gave `ethnicity`, `tags` or `images`, the record comes back with exactly those lists, in the same order. |
| `Records.IdCollision` | app.py:42 | Start from ids 1, 2, 3. Deleting id 2 leaves [1, 3], and the next create issues id 3 again while record 3 is still in the list. |
| `Records.Merge` | app.py:62-68 | An update never changes the record's id. |
| `Records.MergeNoFields` | app.py:62-68 | An update with `{}` returns the record unchanged. |
| `Records.MergeFields` | app.py:62-68 | Each present key overwrites its field, and each absent key keeps the old value. |
| `Records.MergeIgnoresId` | app.py:62-68 | An `id` key in the request has no effect on the result. |
| `Records.MergeIdempotent` | app.py:62-68 | Applying the same update twice gives the same result as applying it once. |
| `Records.MergeThen` | app.py:62-68 | Two updates in a row equal one update in which the later request's keys win. |
| `Records.MergeFullRecord` | app.py:62-68 | Updating with another record's full JSON makes the target equal to that record, except that the target keeps its own id. |
| `Records.UpdateThenGet` | app.py:56-70 | After an update, a get on the same id finds the same position, and that position holds the merged record. |
| `Records.UpdateNoFieldsKeepsList` | app.py:60-69 | `update(id, {})` on an existing id leaves the list equal to its earlier value. |
| `Records.RemoveAt` | app.py:78 | Removing a position shortens the list by one. The records before it stay in place, and the records after it move up by one, so relative order is kept. |
| `Records.DeleteThenGet` | app.py:76-78 | After deleting the first record with an id, a get on that id fails exactly when no other record had that id. |
| `App.IndexOf` | app.py:28 | The loop returns exactly what `FindFirst` specifies. |
| `App.IndexOfValue` | app.py:78 | The loop returns exactly what `FindValue` specifies. |
| `App.Store.Valid` | app.py:9-20 | Defines the agreement between file and list: either the file holds exactly the list, or the file does not exist and the list is empty. The constructor's `ensures Valid()` proves that the load sets it up. The `requires Valid()`/`ensures Valid()` pairs on `CreateActress`, `UpdateActress` and `DeleteActress` prove that each handler, including its save, keeps it. |
| `App.Store.constructor` | app.py:9-20 | The list is the file's records, or the empty list when the file is missing. The snapshot is the file itself, so the list and the file agree. |
| `App.Store.GetActresses` | app.py:22-24 | Returns the whole list in list order. |
| `App.Store.GetActress` | app.py:26-32 | Returns Ok with the first record with the id, which is exactly when one exists, and NotFound otherwise. It changes nothing. |
| `App.Store.CreateActress` | app.py:34-54 | A missing or empty name gives NameRequired, with the list and the file unchanged. Otherwise the list becomes the old list with the `NewActress` record appended, that record is returned, and the file becomes the new list. |
| `App.Store.UpdateActress` | app.py:56-72 | An unknown id gives NotFound, with the list and the file unchanged. Otherwise only the first matching position is replaced, by `Merge` of it with the request. The merged record is returned and the file becomes the new list. |
| `App.Store.DeleteActress` | app.py:74-82 | An unknown id gives NotFound, with the list and the file unchanged. Otherwise exactly the first matching position is removed, Deleted is returned, and the file becomes the new list. |
| `App.ReissuedIdScenario` | app.py:42 | A client using only the store's contracts: load [1, 2, 3], delete 2, then create. The list ends as [record 1, record 3, new record], and the new record has id 3, the same as the old record 3. |

## Left out

- Flask routing, `request.get_json`, `jsonify`, HTTP status codes, CORS and the port setting with `app.run` are framework and process glue. The handlers return a `Reply`, and each of its cases stands for one response.
- File I/O and JSON (de)serialisation in `load_data` and `save_data` are not modelled. The loaded file is a constructor argument (`None` when the file is missing), and each save is an assignment to the ghost snapshot `persisted`. A failed or partial write is not modelled.
- Python's dynamic typing of JSON values is not modelled. The model cannot express a non-string or non-list value under a key, a present-but-null `name`, `ethnicity`, `tags` or `images`, a request body that is not an object, or a stored record missing a key. Each key has a fixed type instead.
- Aliasing of record dicts is not modelled. Update changes the found dict in place. Records here are values, which is the same thing as long as no dict appears twice in the list. Loading and creating never put one dict in the list twice.
- Bulk import, other storage backends and id assignment by the largest id plus one are not in `app.py`, so the model does not include them.
- Concurrent requests are not modelled. Each handler is one atomic step.
