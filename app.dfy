/** The record store of the actress service: the module-level list of
    records that the request handlers read and change in place, with the
    file save after every successful change kept as a ghost snapshot. */
module App {
  import opened Records

  /** The first position of `s` whose record has id `id`: the linear scan
      `next((a for a in actresses if a['id'] == id), None)`. */
  method IndexOf(s: seq<Actress>, id: int) returns (k: Option<nat>)
    ensures k == FindFirst(s, id)
  {
    var i := 0;
    while i < |s|
      invariant 0 <= i <= |s|
      invariant forall j :: 0 <= j < i ==> s[j].id != id
    {
      if s[i].id == id {
        FindFirstIs(s, id, i);
        return Some(i);
      }
      i := i + 1;
    }
    return None;
  }

  /** The first position of `s` holding a record equal to `x`: the scan
      `list.remove(x)` does before it deletes. */
  method IndexOfValue(s: seq<Actress>, x: Actress) returns (k: Option<nat>)
    ensures k == FindValue(s, x)
  {
    var i := 0;
    while i < |s|
      invariant 0 <= i <= |s|
      invariant forall j :: 0 <= j < i ==> s[j] != x
    {
      if s[i] == x {
        return Some(i);
      }
      i := i + 1;
    }
    return None;
  }

  class Store {
    /** The in-memory list `actresses`. */
    var actresses: seq<Actress>
    /** The contents of the data file: `None` while the file does not exist. */
    ghost var persisted: Option<seq<Actress>>

    /** The file and the list agree: the list is what was loaded or last
        saved, or the file is absent and the list is empty. */
    ghost predicate Valid()
      reads this
    {
      persisted == Some(actresses) || (persisted == None && actresses == [])
    }

    /** `actresses = load_data()`: the file's records, or the empty list when
        the file does not exist (`stored == None`). */
    constructor (stored: Option<seq<Actress>>)
      ensures Valid()
      ensures actresses == Or(stored, [])
      ensures persisted == stored
    {
      actresses := Or(stored, []);
      persisted := stored;
    }

    /** `get_actresses`: every record, in list order. */
    method GetActresses() returns (all: seq<Actress>)
      ensures all == actresses
    {
      all := actresses;
    }

    /** `get_actress`: the first record with this id, or NotFound. Changes nothing. */
    method GetActress(id: int) returns (res: Reply)
      ensures res.Ok? <==> FindFirst(actresses, id).Some?
      ensures res.Ok? ==> res.actress == actresses[FindFirst(actresses, id).value]
      ensures !res.Ok? ==> res == NotFound
    {
      var k := IndexOf(actresses, id);
      if k.Some? {
        res := Ok(actresses[k.value]);
      } else {
        res := NotFound;
      }
    }

    /** `create_actress`: a request without a non-empty name is refused and
        nothing changes; otherwise one record, numbered by the old length,
        is appended and the list is saved. */
    method CreateActress(f: Fields) returns (res: Reply)
      requires Valid()
      modifies this
      ensures Valid()
      ensures NameMissing(f) ==>
        res == NameRequired && actresses == old(actresses) && persisted == old(persisted)
      ensures !NameMissing(f) ==>
        && res == Ok(NewActress(old(actresses), f))
        && actresses == old(actresses) + [NewActress(old(actresses), f)]
        && persisted == Some(actresses)
    {
      if NameMissing(f) {
        return NameRequired;
      }
      var created := NewActress(actresses, f);
      actresses := actresses + [created];
      persisted := Some(actresses);
      res := Ok(created);
    }

    /** `update_actress`: the first record with this id is patched in place
        with the request's keys and the list is saved; NotFound otherwise. */
    method UpdateActress(id: int, f: Fields) returns (res: Reply)
      requires Valid()
      modifies this
      ensures Valid()
      ensures FindFirst(old(actresses), id).None? ==>
        res == NotFound && actresses == old(actresses) && persisted == old(persisted)
      ensures FindFirst(old(actresses), id).Some? ==>
        var i := FindFirst(old(actresses), id).value;
        && actresses == old(actresses)[i := Merge(old(actresses)[i], f)]
        && res == Ok(actresses[i])
        && persisted == Some(actresses)
    {
      var k := IndexOf(actresses, id);
      if k.None? {
        return NotFound;
      }
      var i := k.value;
      var updated := Merge(actresses[i], f);
      actresses := actresses[i := updated];
      persisted := Some(actresses);
      res := Ok(updated);
    }

    /** `delete_actress`: the record found by id is removed with
        `list.remove` and the list is saved; NotFound otherwise. */
    method DeleteActress(id: int) returns (res: Reply)
      requires Valid()
      modifies this
      ensures Valid()
      ensures FindFirst(old(actresses), id).None? ==>
        res == NotFound && actresses == old(actresses) && persisted == old(persisted)
      ensures FindFirst(old(actresses), id).Some? ==>
        && res == Deleted
        && actresses == RemoveAt(old(actresses), FindFirst(old(actresses), id).value)
        && persisted == Some(actresses)
    {
      var k := IndexOf(actresses, id);
      if k.None? {
        return NotFound;
      }
      var target := actresses[k.value];
      var j := IndexOfValue(actresses, target);
      RemoveHitsFound(actresses, id);
      actresses := RemoveAt(actresses, j.value);
      persisted := Some(actresses);
      res := Deleted;
    }
  }

  /** A client of the store: from records numbered 1, 2, 3, deleting id 2
      and then creating a record issues id 3 again while the old record 3
      is still in the list. */
  method ReissuedIdScenario(a: Actress, b: Actress, c: Actress, f: Fields)
    returns (created: Actress, all: seq<Actress>)
    requires a.id == 1 && b.id == 2 && c.id == 3
    requires !NameMissing(f)
    ensures all == [a, c, created]
    ensures created.id == c.id == 3 && created.name == f.name.value
  {
    var store := new Store(Some([a, b, c]));
    FindFirstIs([a, b, c], 2, 1);
    var deleted := store.DeleteActress(2);
    var res := store.CreateActress(f);
    created := res.actress;
    all := store.GetActresses();
  }
}
