/** Values of the actress record store: the stored record, the field set a
    create or update request carries, the handlers' replies, and the pure
    functions by which the store's handlers are specified. */
module Records {

  datatype Option<+T> = None | Some(value: T)

  /** The value of `o`, or `default` when it is absent (Python's `dict.get(key, default)`). */
  function Or<T>(o: Option<T>, default: T): T {
    match o
    case Some(v) => v
    case None => default
  }

  /** One stored actress record; `None` stands for JSON null. */
  datatype Actress = Actress(
    id: int,
    name: string,
    realName: Option<string>,
    birthDate: Option<string>,
    nationality: Option<string>,
    ethnicity: seq<string>,
    tags: seq<string>,
    images: seq<string>)

  /** The JSON object of a create or update request. A component is `None`
      when its key is absent from the object; the three nullable fields may
      also be present with null, `Some(None)`. */
  datatype Fields = Fields(
    id: Option<int>,
    name: Option<string>,
    realName: Option<Option<string>>,
    birthDate: Option<Option<string>>,
    nationality: Option<Option<string>>,
    ethnicity: Option<seq<string>>,
    tags: Option<seq<string>>,
    images: Option<seq<string>>)

  /** The empty request object `{}`. */
  const NoFields: Fields := Fields(None, None, None, None, None, None, None, None)

  /** What a handler answers: the record (HTTP 200/201), the deletion
      message, "Actress not found" (404) or "Name is required" (400). */
  datatype Reply = Ok(actress: Actress) | Deleted | NotFound | NameRequired

  /** The request object that `jsonify` would produce for `r`, read back as a request. */
  function FieldsOf(r: Actress): Fields {
    Fields(Some(r.id), Some(r.name), Some(r.realName), Some(r.birthDate),
           Some(r.nationality), Some(r.ethnicity), Some(r.tags), Some(r.images))
  }

  // ---------------------------------------------------------------------
  // Lookup

  /** The position of the first record whose id is `id`: what
      `next((a for a in actresses if a['id'] == id), None)` finds. */
  function FindFirst(s: seq<Actress>, id: int): (r: Option<nat>)
    ensures r.Some? ==> r.value < |s| && s[r.value].id == id
    ensures r.Some? ==> forall j :: 0 <= j < r.value ==> s[j].id != id
    ensures r.None? <==> forall j :: 0 <= j < |s| ==> s[j].id != id
  {
    if s == [] then None
    else if s[0].id == id then Some(0)
    else match FindFirst(s[1..], id)
      case None => None
      case Some(k) => Some(k + 1)
  }

  /** The converse of FindFirst's contract: a matching position with no
      matching record before it is the one FindFirst returns. */
  lemma FindFirstIs(s: seq<Actress>, id: int, k: nat)
    requires k < |s| && s[k].id == id
    requires forall j :: 0 <= j < k ==> s[j].id != id
    ensures FindFirst(s, id) == Some(k)
  {
  }

  /** The position of the first record equal to `x`: what `list.remove(x)` removes. */
  function FindValue(s: seq<Actress>, x: Actress): (r: Option<nat>)
    ensures r.Some? ==> r.value < |s| && s[r.value] == x
    ensures r.Some? ==> forall j :: 0 <= j < r.value ==> s[j] != x
    ensures r.None? <==> forall j :: 0 <= j < |s| ==> s[j] != x
  {
    if s == [] then None
    else if s[0] == x then Some(0)
    else match FindValue(s[1..], x)
      case None => None
      case Some(k) => Some(k + 1)
  }

  /** `remove` on the record found by id removes that very position: an
      earlier equal record would have had the same id and been found first. */
  lemma {:induction false} RemoveHitsFound(s: seq<Actress>, id: int)
    requires FindFirst(s, id).Some?
    ensures FindValue(s, s[FindFirst(s, id).value]) == FindFirst(s, id)
  {
  }

  // ---------------------------------------------------------------------
  // Create

  /** `not data.get("name")`: the name key is absent or holds the empty string. */
  predicate NameMissing(f: Fields) {
    f.name.None? || f.name.value == ""
  }

  /** The record `create_actress` appends to `s`: id from the list length,
      the given name, every other field as given or defaulted. */
  function NewActress(s: seq<Actress>, f: Fields): (r: Actress)
    requires !NameMissing(f)
    ensures r.id == |s| + 1 && r.name == f.name.value && r.name != ""
  {
    Actress(|s| + 1, f.name.value,
            Or(f.realName, None), Or(f.birthDate, None), Or(f.nationality, None),
            Or(f.ethnicity, []), Or(f.tags, []), Or(f.images, []))
  }

  /** Each field of a created record is the request's value when the key is
      present and the default (null, or the empty list) when it is absent. */
  lemma CreateDefaults(s: seq<Actress>, f: Fields)
    requires !NameMissing(f)
    ensures var r := NewActress(s, f);
      && (f.realName.None? ==> r.realName == None)
      && (f.birthDate.None? ==> r.birthDate == None)
      && (f.nationality.None? ==> r.nationality == None)
      && (f.ethnicity.None? ==> r.ethnicity == [])
      && (f.tags.None? ==> r.tags == [])
      && (f.images.None? ==> r.images == [])
      && (f.realName.Some? ==> r.realName == f.realName.value)
      && (f.birthDate.Some? ==> r.birthDate == f.birthDate.value)
      && (f.nationality.Some? ==> r.nationality == f.nationality.value)
      && (f.ethnicity.Some? ==> r.ethnicity == f.ethnicity.value)
      && (f.tags.Some? ==> r.tags == f.tags.value)
      && (f.images.Some? ==> r.images == f.images.value)
  {
  }

  /** The all-defaults record with the given id and an empty name. */
  function Blank(id: int): Actress {
    Actress(id, "", None, None, None, [], [], [])
  }

  /** Creating is patching the all-defaults record with the request: create
      and update read the request fields the same way. */
  lemma CreateIsMergeOfBlank(s: seq<Actress>, f: Fields)
    requires !NameMissing(f)
    ensures NewActress(s, f) == Merge(Blank(|s| + 1), f)
  {
  }

  /** Posting the JSON of a record with a non-empty name creates a copy of it
      under the next id. */
  lemma CreateFromRecord(s: seq<Actress>, r: Actress)
    requires r.name != ""
    ensures NewActress(s, FieldsOf(r)) == r.(id := |s| + 1)
  {
  }

  /** After a successful create, looking up the new id finds the new record
      at the end, when no earlier record already carries that id. */
  lemma CreateThenGet(s: seq<Actress>, f: Fields)
    requires !NameMissing(f)
    requires forall j :: 0 <= j < |s| ==> s[j].id != |s| + 1
    ensures var t := s + [NewActress(s, f)];
      && FindFirst(t, |s| + 1) == Some(|s|) && t[|s|] == NewActress(s, f)
      && (f.ethnicity.Some? ==> t[|s|].ethnicity == f.ethnicity.value)
      && (f.tags.Some? ==> t[|s|].tags == f.tags.value)
      && (f.images.Some? ==> t[|s|].images == f.images.value)
  {
    var t := s + [NewActress(s, f)];
    assert forall j :: 0 <= j < |s| ==> t[j] == s[j];
    FindFirstIs(t, |s| + 1, |s|);
  }

  /** The collision the length-based id allows: from ids 1, 2, 3, deleting
      id 2 and creating one record issues id 3 a second time. */
  lemma IdCollision(a: Actress, b: Actress, c: Actress, f: Fields)
    requires a.id == 1 && b.id == 2 && c.id == 3
    requires !NameMissing(f)
    ensures FindFirst([a, b, c], 2) == Some(1)
    ensures RemoveAt([a, b, c], 1) == [a, c]
    ensures var t := [a, c] + [NewActress([a, c], f)];
      t[1] == c && t[2].id == 3 && t[1].id == t[2].id
  {
  }

  // ---------------------------------------------------------------------
  // Update

  /** `update_actress`'s per-key assignments: every present key overwrites
      its field, every absent key keeps the old value, and `id` is never
      assigned. */
  function Merge(r: Actress, f: Fields): (m: Actress)
    ensures m.id == r.id
  {
    Actress(r.id, Or(f.name, r.name),
            Or(f.realName, r.realName), Or(f.birthDate, r.birthDate),
            Or(f.nationality, r.nationality),
            Or(f.ethnicity, r.ethnicity), Or(f.tags, r.tags), Or(f.images, r.images))
  }

  /** The request object with the keys of `g` overriding those of `f`. */
  function Then(f: Fields, g: Fields): Fields {
    Fields(if g.id.Some? then g.id else f.id,
           if g.name.Some? then g.name else f.name,
           if g.realName.Some? then g.realName else f.realName,
           if g.birthDate.Some? then g.birthDate else f.birthDate,
           if g.nationality.Some? then g.nationality else f.nationality,
           if g.ethnicity.Some? then g.ethnicity else f.ethnicity,
           if g.tags.Some? then g.tags else f.tags,
           if g.images.Some? then g.images else f.images)
  }

  /** An update with `{}` changes nothing. */
  lemma MergeNoFields(r: Actress)
    ensures Merge(r, NoFields) == r
  {
  }

  /** Present keys overwrite, absent keys keep. */
  lemma MergeFields(r: Actress, f: Fields)
    ensures var m := Merge(r, f);
      && m.name == (if f.name.Some? then f.name.value else r.name)
      && m.realName == (if f.realName.Some? then f.realName.value else r.realName)
      && m.birthDate == (if f.birthDate.Some? then f.birthDate.value else r.birthDate)
      && m.nationality == (if f.nationality.Some? then f.nationality.value else r.nationality)
      && m.ethnicity == (if f.ethnicity.Some? then f.ethnicity.value else r.ethnicity)
      && m.tags == (if f.tags.Some? then f.tags.value else r.tags)
      && m.images == (if f.images.Some? then f.images.value else r.images)
  {
  }

  /** An `id` key in the request has no effect. */
  lemma MergeIgnoresId(r: Actress, f: Fields, n: Option<int>)
    ensures Merge(r, f.(id := n)) == Merge(r, f)
  {
  }

  /** Repeating the same update changes nothing further. */
  lemma MergeIdempotent(r: Actress, f: Fields)
    ensures Merge(Merge(r, f), f) == Merge(r, f)
  {
  }

  /** Two updates in a row are one update with the later keys winning. */
  lemma MergeThen(r: Actress, f: Fields, g: Fields)
    ensures Merge(Merge(r, f), g) == Merge(r, Then(f, g))
  {
  }

  /** Updating with another record's full JSON makes the target equal to
      that record except for the target's own id. */
  lemma MergeFullRecord(r: Actress, q: Actress)
    ensures Merge(r, FieldsOf(q)) == q.(id := r.id)
  {
  }

  /** After an update, the same id still finds the same position, which now
      holds the merged record. */
  lemma UpdateThenGet(s: seq<Actress>, id: int, f: Fields)
    requires FindFirst(s, id).Some?
    ensures var i := FindFirst(s, id).value;
      var t := s[i := Merge(s[i], f)];
      FindFirst(t, id) == Some(i) && t[i] == Merge(s[i], f)
  {
    var i := FindFirst(s, id).value;
    var t := s[i := Merge(s[i], f)];
    assert forall j :: 0 <= j < i ==> t[j] == s[j];
    FindFirstIs(t, id, i);
  }

  /** `update(id, {})` leaves the list equal to what it was. */
  lemma UpdateNoFieldsKeepsList(s: seq<Actress>, id: int)
    requires FindFirst(s, id).Some?
    ensures var i := FindFirst(s, id).value; s[i := Merge(s[i], NoFields)] == s
  {
  }

  // ---------------------------------------------------------------------
  // Delete

  /** `s` without position `i`; the other records keep their order. */
  function RemoveAt(s: seq<Actress>, i: nat): (t: seq<Actress>)
    requires i < |s|
    ensures |t| == |s| - 1
    ensures forall k :: 0 <= k < i ==> t[k] == s[k]
    ensures forall k :: i <= k < |t| ==> t[k] == s[k + 1]
  {
    s[..i] + s[i + 1..]
  }

  /** After deleting the first record with `id`, looking up `id` fails
      exactly when no other record carried that id. */
  lemma DeleteThenGet(s: seq<Actress>, id: int)
    requires FindFirst(s, id).Some?
    ensures var i := FindFirst(s, id).value;
      FindFirst(RemoveAt(s, i), id).None? <==>
      forall j :: 0 <= j < |s| && j != i ==> s[j].id != id
  {
    var i := FindFirst(s, id).value;
    var t := RemoveAt(s, i);
    if FindFirst(t, id).None? {
      forall j | 0 <= j < |s| && j != i ensures s[j].id != id {
        if j > i { assert t[j - 1] == s[j]; }
      }
    } else {
      var k := FindFirst(t, id).value;
      var j := if k < i then k else k + 1;
      assert s[j].id == id && j != i;
    }
  }
}
