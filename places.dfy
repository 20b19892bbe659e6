/** The Place model's file-mode helpers (`reviews`, `amenities`) and the REST
    handlers for places, each answering with a status and a payload instead of
    going through Flask. */
module Places {
  import opened Models
  import opened DbStorage

  /** What a handler answers: `jsonify(payload), code`; `jsonify({"error": msg}), code`;
      or `abort(code)`, which is also what an uncaught exception becomes (500). */
  datatype Response = Json(code: int, payload: Payload) | JsonError(code: int, msg: string) | Abort(code: int)

  datatype Payload = One(obj: Obj) | Many(objs: seq<Obj>) | Empty

  /** The request body as `request.get_json()` decodes it; None when the
      request carries no JSON. */
  type Request = Option<map<string, Value>>

  /** `request.get_json()` is truthy: there is a body and it is not `{}`. */
  predicate IsJsonBody(req: Request)
  {
    req.Some? && req.value != map[]
  }

  ghost predicate NoDup<T>(xs: seq<T>)
  {
    forall i, j :: 0 <= i < j < |xs| ==> xs[i] != xs[j]
  }

  // ---------------------------------------------------------------------------
  // Relationships, as the tables give them

  /** The rows whose attribute `attr` equals `v`, in table order. */
  function Select(t: seq<Obj>, attr: string, v: Value): seq<Obj>
  {
    if t == [] then []
    else
      var o := t[|t| - 1];
      Select(t[..|t| - 1], attr, v) + (if attr in o.attrs && o.attrs[attr] == v then [o] else [])
  }

  /** `state.cities`: the cities whose `state_id` is the state's id. */
  function CitiesOf(rows: Tables, stateId: string): seq<Obj>
  {
    Select(Table(rows, City), "state_id", VStr(stateId))
  }

  /** `city.places`: the places whose `city_id` is the city's id. */
  function PlacesOf(rows: Tables, cityId: string): seq<Obj>
  {
    Select(Table(rows, Place), "city_id", VStr(cityId))
  }

  lemma {:induction false} SelectMembers(t: seq<Obj>, attr: string, v: Value)
    ensures forall o :: o in Select(t, attr, v) <==> o in t && attr in o.attrs && o.attrs[attr] == v
  {
    if t != [] {
      var init := t[..|t| - 1];
      assert t == init + [t[|t| - 1]];
      SelectMembers(init, attr, v);
    }
  }

  lemma {:induction false} SelectAppend(a: seq<Obj>, b: seq<Obj>, attr: string, v: Value)
    ensures Select(a + b, attr, v) == Select(a, attr, v) + Select(b, attr, v)
  {
    if b != [] {
      var init := b[..|b| - 1];
      assert (a + b)[..|a + b| - 1] == a + init;
      SelectAppend(a, init, attr, v);
    } else {
      assert a + b == a;
    }
  }

  /** Every object `city.places` lists is a stored Place of that city. */
  lemma PlacesOfAreStoredPlaces(rows: Tables, cityId: string)
    requires WellFormed(rows)
    ensures forall p :: p in PlacesOf(rows, cityId) ==>
      p in Table(rows, Place) && p.kind == Place && "city_id" in p.attrs && p.attrs["city_id"] == VStr(cityId)
  {
    SelectMembers(Table(rows, Place), "city_id", VStr(cityId));
    assert KindsAre(Table(rows, Place), Place);
  }

  // ---------------------------------------------------------------------------
  // Place.reviews (file mode)

  /** The objects of the pairs whose key's class part is "Review", in order
      (the list `lista`). */
  function ReviewValues(es: seq<(string, Obj)>): seq<Obj>
  {
    if es == [] then []
    else
      var e := es[|es| - 1];
      ReviewValues(es[..|es| - 1]) + (if ClassPart(e.0) == "Review" then [e.1] else [])
  }

  lemma {:induction false} ReviewValuesAppend(a: seq<(string, Obj)>, b: seq<(string, Obj)>)
    ensures ReviewValues(a + b) == ReviewValues(a) + ReviewValues(b)
  {
    if b != [] {
      var init := b[..|b| - 1];
      assert (a + b)[..|a + b| - 1] == a + init;
      ReviewValuesAppend(a, init);
    } else {
      assert a + b == a;
    }
  }

  /** A composite key's class part is "Review" exactly for the Review class. */
  lemma ReviewKey(c: ClassName, id: string)
    ensures ClassPart(Key(c, id)) == "Review" <==> c == Review
  {
    KeyParts(c, id);
    assert Resolve("Review") == Some(Review);
  }

  /** Of one class's pairs, the key test keeps all of them for Review and none
      for any other class. */
  lemma {:induction false} ReviewValuesOfTable(t: seq<Obj>, c: ClassName)
    requires KindsAre(t, c)
    ensures ReviewValues(TableEntries(t)) == if c == Review then t else []
  {
    if t != [] {
      var init := t[..|t| - 1];
      var o := t[|t| - 1];
      assert TableEntries(t) == TableEntries(init) + [(Key(c, o.id), o)] by {
        assert t == init + [o];
        TableEntriesSnoc(init, o);
      }
      assert KindsAre(init, c);
      ReviewValuesOfTable(init, c);
      ReviewValuesAppend(TableEntries(init), [(Key(c, o.id), o)]);
      assert ReviewValues([(Key(c, o.id), o)]) == if c == Review then [o] else [] by {
        ReviewKey(c, o.id);
        assert [(Key(c, o.id), o)][..0] == [];
      }
      if c == Review {
        assert init + [o] == t;
      }
    }
  }

  /** Filtering `all()` by the key's class part gives exactly the Review table. */
  lemma {:induction false} ReviewValuesOfAll(rows: Tables, cs: seq<ClassName>)
    requires WellFormed(rows) && NoDupClasses(cs)
    ensures ReviewValues(Entries(rows, cs)) == if Review in cs then Table(rows, Review) else []
  {
    if cs != [] {
      var init := cs[..|cs| - 1];
      var c := cs[|cs| - 1];
      assert NoDupClasses(init) && c !in init && (Review in cs <==> Review in init || c == Review) by {
        assert cs == init + [c];
      }
      ReviewValuesOfAll(rows, init);
      assert ReviewValues(Entries(rows, cs)) == ReviewValues(Entries(rows, init)) + ReviewValues(TableEntries(Table(rows, c))) by {
        assert cs == init + [c];
        EntriesSnoc(rows, init, c);
        ReviewValuesAppend(Entries(rows, init), TableEntries(Table(rows, c)));
      }
      assert ReviewValues(TableEntries(Table(rows, c))) == if c == Review then Table(rows, Review) else [] by {
        assert KindsAre(Table(rows, c), c);
        ReviewValuesOfTable(Table(rows, c), c);
      }
    }
  }

  /** Over the six classes, the key test picks out exactly the Review table. */
  lemma ReviewValuesOfAllClasses(rows: Tables)
    requires WellFormed(rows)
    ensures ReviewValues(Entries(rows, AllClasses)) == Table(rows, Review)
  {
    assert NoDupClasses(AllClasses);
    ReviewValuesOfAll(rows, AllClasses);
  }

  /** The first loop of `reviews`: the objects whose key's class part is
      "Review", in order. */
  method ReviewsOfPairs(entries: seq<(string, Obj)>) returns (lista: seq<Obj>)
    ensures lista == ReviewValues(entries)
  {
    lista := [];
    var i := 0;
    while i < |entries|
      invariant 0 <= i <= |entries|
      invariant lista == ReviewValues(entries[..i])
    {
      assert entries[..i + 1][..i] == entries[..i];
      if ClassPart(entries[i].0) == "Review" {
        lista := lista + [entries[i].1];
      }
      i := i + 1;
    }
    assert entries[..i] == entries;
  }

  /** The second loop of `reviews`: the objects whose `place_id` is `placeId`. */
  method OfPlace(lista: seq<Obj>, placeId: string) returns (result: seq<Obj>)
    ensures result == Select(lista, "place_id", VStr(placeId))
  {
    result := [];
    var j := 0;
    while j < |lista|
      invariant 0 <= j <= |lista|
      invariant result == Select(lista[..j], "place_id", VStr(placeId))
    {
      assert lista[..j + 1][..j] == lista[..j];
      var elem := lista[j];
      if "place_id" in elem.attrs && elem.attrs["place_id"] == VStr(placeId) {
        result := result + [elem];
      }
      j := j + 1;
    }
    assert lista[..j] == lista;
  }

  /** `place.reviews`: walks the keys of `all()`, keeps the objects whose key's
      class part is "Review", then those whose `place_id` is this place's id.
      The result is exactly the Review rows of this place, in table order. */
  method Reviews(s: DBStorage, place: Obj) returns (result: seq<Obj>)
    requires s.Valid()
    ensures result == Select(Table(s.rows, Review), "place_id", VStr(place.id))
    ensures forall r :: r in result ==>
      r in Table(s.rows, Review) && r.kind == Review && "place_id" in r.attrs && r.attrs["place_id"] == VStr(place.id)
  {
    var lista := ReviewsOfPairs(Entries(s.rows, AllClasses));
    ReviewValuesOfAllClasses(s.rows);
    result := OfPlace(lista, place.id);
    SelectMembers(lista, "place_id", VStr(place.id));
    assert KindsAre(Table(s.rows, Review), Review);
  }

  // ---------------------------------------------------------------------------
  // Place.amenities (file mode)

  /** The instance's own `amenity_ids` attribute, when it has one (a request
      body can give it one, through `Place(**data)` or `setattr`). */
  function OwnAmenityIds(p: Obj): Option<Value>
  {
    if "amenity_ids" in p.attrs then Some(p.attrs["amenity_ids"]) else None
  }

  /** `type(obj) is Amenity`. */
  predicate IsAmenity(obj: Option<Obj>)
  {
    obj.Some? && obj.value.kind == Amenity
  }

  /** `x in s` on two strings: `x` occurs in `s` as a substring. */
  predicate IsSubstring(x: string, s: string)
  {
    exists i, j :: 0 <= i <= j <= |s| && s[i..j] == x
  }

  /** The setter's step on a list: append `obj.id` when `obj` is an Amenity
      whose id is not yet present. The list only grows, by at most that id,
      and stays free of duplicates. */
  function AppendAmenity(ids: seq<Value>, obj: Option<Obj>): (r: seq<Value>)
    ensures ids <= r && |r| <= |ids| + 1
    ensures IsAmenity(obj) ==> VStr(obj.value.id) in r
    ensures !IsAmenity(obj) ==> r == ids
    ensures obj.Some? && VStr(obj.value.id) in ids ==> r == ids
    ensures forall x :: x in r ==> x in ids || (obj.Some? && x == VStr(obj.value.id))
    ensures NoDup(ids) ==> NoDup(r)
  {
    if IsAmenity(obj) && VStr(obj.value.id) !in ids then ids + [VStr(obj.value.id)] else ids
  }

  /** The Python class object `Place`, holding its class attribute
      `amenity_ids`: one list, shared by every instance without an attribute
      of its own. */
  class PlaceClass {
    var amenityIds: seq<Value>

    constructor ()
      ensures amenityIds == []
    {
      amenityIds := [];
    }

    /** The getter as written: the instance's own attribute, whatever its
        value, else the class's list. */
    function Amenities(p: Obj): Value
      reads this
    {
      match OwnAmenityIds(p)
      case Some(v) => v
      case None => VList(amenityIds)
    }

    /** The setter as written. For an Amenity, `obj.id not in self.amenity_ids`
        and `self.amenity_ids.append(obj.id)` act on the instance's own
        attribute when there is one, and otherwise on the list of the class,
        which every other such instance reads. An own attribute that is a
        string is searched for a substring and then has no `append`; any
        other value that is not a list cannot be searched at all. */
    method SetAmenities(p: Obj, obj: Option<Obj>) returns (r: Result<Obj>)
      modifies this
      ensures !IsAmenity(obj) ==> r == Ok(p) && amenityIds == old(amenityIds)
      ensures OwnAmenityIds(p).None? ==> r == Ok(p) && amenityIds == AppendAmenity(old(amenityIds), obj)
      ensures OwnAmenityIds(p).Some? ==> amenityIds == old(amenityIds)
      ensures IsAmenity(obj) && OwnAmenityIds(p).Some? && OwnAmenityIds(p).value.VList? ==>
        r == Ok(p.(attrs := p.attrs["amenity_ids" := VList(AppendAmenity(OwnAmenityIds(p).value.items, obj))]))
      ensures r.Err? <==>
        IsAmenity(obj) && OwnAmenityIds(p).Some? && !OwnAmenityIds(p).value.VList? &&
        !(OwnAmenityIds(p).value.VStr? && IsSubstring(obj.value.id, OwnAmenityIds(p).value.s))
      ensures r.Ok? && OwnAmenityIds(p).Some? && !OwnAmenityIds(p).value.VList? ==> r == Ok(p)
      ensures r.Ok? && old(Amenities(p)).VList? ==>
        Amenities(r.value) == VList(AppendAmenity(old(Amenities(p)).items, obj))
    {
      if !IsAmenity(obj) {
        return Ok(p);
      }
      match OwnAmenityIds(p) {
        case None =>
          amenityIds := AppendAmenity(amenityIds, obj);
          r := Ok(p);
        case Some(VList(ids)) =>
          var p' := p.(attrs := p.attrs["amenity_ids" := VList(AppendAmenity(ids, obj))]);
          assert OwnAmenityIds(p') == Some(VList(AppendAmenity(ids, obj)));
          r := Ok(p');
        case Some(VStr(str)) =>
          if IsSubstring(obj.value.id, str) {
            r := Ok(p);
          } else {
            r := Err("'str' object has no attribute 'append'");
          }
        case Some(_) =>
          r := Err("argument of type is not iterable");
      }
    }
  }

  /** As written, giving one place an amenity gives it to every place that has
      no attribute of its own. */
  method SharedAmenityListLeak(p: Obj, q: Obj, a: Obj) returns (seenByQ: Value)
    requires p.id != q.id
    requires OwnAmenityIds(p).None? && OwnAmenityIds(q).None?
    requires a.kind == Amenity
    ensures seenByQ.VList? && VStr(a.id) in seenByQ.items
  {
    var placeClass := new PlaceClass();
    var _ := placeClass.SetAmenities(p, Some(a));
    seenByQ := placeClass.Amenities(q);
  }

  /** A place's amenity ids, each place keeping its own list. */
  function AmenityIds(p: Obj): seq<Value>
  {
    match OwnAmenityIds(p)
    case Some(VList(ids)) => ids
    case _ => []
  }

  /** The setter with a list per place: only this place's list changes, it
      grows by the amenity's id when that id is new, and nothing else about
      the place changes. */
  function WithAmenity(p: Obj, obj: Option<Obj>): (p': Obj)
    ensures p'.kind == p.kind && p'.id == p.id
    ensures AmenityIds(p') == AppendAmenity(AmenityIds(p), obj)
    ensures forall k :: k != "amenity_ids" ==>
      (k in p'.attrs <==> k in p.attrs) && (k in p.attrs ==> p'.attrs[k] == p.attrs[k])
  {
    var ids := AppendAmenity(AmenityIds(p), obj);
    if ids == AmenityIds(p) then p
    else
      var p' := p.(attrs := p.attrs["amenity_ids" := VList(ids)]);
      assert OwnAmenityIds(p') == Some(VList(ids));
      p'
  }

  // ---------------------------------------------------------------------------
  // GET /cities/<city_id>/places, GET /places/<place_id>, DELETE /places/<place_id>

  method GetPlaceByCity(s: DBStorage, cityId: string) returns (r: Response)
    requires s.Valid()
    ensures r == Abort(404) <==> !HasId(Table(s.rows, City), cityId)
    ensures r != Abort(404) ==> r == Json(200, Many(PlacesOf(s.rows, cityId)))
    ensures r.Json? ==> forall p :: p in r.payload.objs ==>
      p in Table(s.rows, Place) && "city_id" in p.attrs && p.attrs["city_id"] == VStr(cityId)
  {
    var city := s.Get("City", cityId);
    if city.None? {
      return Abort(404);
    }
    PlacesOfAreStoredPlaces(s.rows, cityId);
    r := Json(200, Many(PlacesOf(s.rows, city.value.id)));
  }

  method GetPlaceId(s: DBStorage, placeId: string) returns (r: Response)
    ensures r == Abort(404) <==> !HasId(Table(s.rows, Place), placeId)
    ensures r != Abort(404) ==>
      r.Json? && r.code == 200 && r.payload.One? && r.payload.obj in Table(s.rows, Place) && r.payload.obj.id == placeId
  {
    var place := s.Get("Place", placeId);
    if place.None? {
      return Abort(404);
    }
    r := Json(200, One(place.value));
  }

  method DeletePlace(s: DBStorage, placeId: string) returns (r: Response)
    requires s.Valid()
    modifies s
    ensures s.Valid()
    ensures !HasId(Table(old(s.rows), Place), placeId) ==>
      r == Abort(404) && s.rows == old(s.rows) && s.committed == old(s.committed)
    ensures HasId(Table(old(s.rows), Place), placeId) ==>
      && r == Json(200, Empty)
      && s.rows == old(s.rows)[Place := RemoveId(Table(old(s.rows), Place), placeId)]
      && s.committed == s.rows
  {
    var place := s.Get("Place", placeId);
    if place.None? {
      return Abort(404);
    }
    assert s.Valid() && KindsAre(Table(s.rows, Place), Place);
    var _ := s.Delete(Some(place.value));
    s.Save();
    r := Json(200, Empty);
  }

  // ---------------------------------------------------------------------------
  // POST /cities/<city_id>/places

  /** The checks `create_place` makes before any lookup, in their order. */
  function CreateCheck(req: Request): (r: Option<Response>)
    ensures r == Some(JsonError(400, "Not a JSON")) <==> !IsJsonBody(req)
    ensures r == Some(JsonError(400, "Missing name")) <==> IsJsonBody(req) && "name" !in req.value
    ensures r == Some(JsonError(400, "Missing user_id")) <==>
      IsJsonBody(req) && "name" in req.value && "user_id" !in req.value
    ensures r.None? <==> IsJsonBody(req) && "name" in req.value && "user_id" in req.value
  {
    if !IsJsonBody(req) then Some(JsonError(400, "Not a JSON"))
    else if "name" !in req.value then Some(JsonError(400, "Missing name"))
    else if "user_id" !in req.value then Some(JsonError(400, "Missing user_id"))
    else None
  }

  /** `storage.get(cls, x)` for a value taken from a request: only a string
      can equal a stored id. */
  function IdLookup(rows: Tables, name: string, v: Value): Option<Obj>
  {
    match v
    case VStr(id) => Lookup(rows, name, id)
    case _ => None
  }

  method GetById(s: DBStorage, name: string, v: Value) returns (r: Option<Obj>)
    ensures r == IdLookup(s.rows, name, v)
    ensures r.Some? ==> v == VStr(r.value.id) && r.value in Table(s.rows, Resolve(name).value)
  {
    match v {
      case VStr(id) => r := s.Get(name, id);
      case _ => r := None;
    }
  }

  /** `create_place`: the request checks come first, then a 404 when the city
      or the user is missing; otherwise the new place, whose id is `newId`
      (the fresh identifier `BaseModel` generates), is appended to the Place
      table with the looked-up city and user ids, committed, and answered
      with 201. */
  method CreatePlace(s: DBStorage, cityId: string, req: Request, newId: string) returns (r: Response)
    requires s.Valid()
    requires !HasId(Table(s.rows, Place), newId)
    modifies s
    ensures s.Valid()
    ensures CreateCheck(req).Some? ==>
      r == CreateCheck(req).value && s.rows == old(s.rows) && s.committed == old(s.committed)
    ensures (CreateCheck(req).None? &&
      (!HasId(Table(old(s.rows), City), cityId) || IdLookup(old(s.rows), "User", req.value["user_id"]).None?)) ==>
      r == Abort(404) && s.rows == old(s.rows) && s.committed == old(s.committed)
    ensures r.Json? ==>
      && CreateCheck(req).None?
      && HasId(Table(old(s.rows), City), cityId)
      && IdLookup(old(s.rows), "User", req.value["user_id"]).Some?
      && r.code == 201 && r.payload.One?
      && var p := r.payload.obj;
      && p.kind == Place && p.id == newId
      && p.attrs == req.value["city_id" := VStr(cityId)]["user_id" := req.value["user_id"]]
      && s.rows == old(s.rows)[Place := Table(old(s.rows), Place) + [p]]
      && s.committed == s.rows
    ensures (CreateCheck(req).None? && HasId(Table(old(s.rows), City), cityId) &&
      IdLookup(old(s.rows), "User", req.value["user_id"]).Some?) ==> r.Json?
    ensures r.Json? || r.JsonError? || r == Abort(404)
  {
    var check := CreateCheck(req);
    if check.Some? {
      return check.value;
    }
    var objData := req.value;
    var city := s.Get("City", cityId);
    var user := GetById(s, "User", objData["user_id"]);
    if city.None? || user.None? {
      return Abort(404);
    }
    objData := objData["city_id" := VStr(city.value.id)];
    objData := objData["user_id" := VStr(user.value.id)];
    var obj := Obj(Place, newId, objData);
    FirstIndexFindsAny(Table(s.rows, Place), newId);
    s.New(obj);
    s.Save();
    r := Json(201, One(obj));
  }

  // ---------------------------------------------------------------------------
  // PUT /places/<place_id>

  /** The attributes `update_place` never overwrites. */
  const Protected: set<string> := {"id", "user_id", "created_at", "updated_at"}

  /** The `setattr` loop of `update_place`: every request key outside the
      protected set takes the request's value, protected attributes keep
      theirs, and attributes the request does not name are unchanged. */
  method ApplyUpdate(attrs: map<string, Value>, data: map<string, Value>) returns (r: map<string, Value>)
    ensures r.Keys == attrs.Keys + (data.Keys - Protected)
    ensures forall k :: k in data && k !in Protected ==> r[k] == data[k]
    ensures forall k :: k in attrs && (k !in data || k in Protected) ==> r[k] == attrs[k]
  {
    r := attrs;
    var todo := data.Keys;
    while todo != {}
      invariant todo <= data.Keys
      invariant r.Keys == attrs.Keys + ((data.Keys - todo) - Protected)
      invariant forall k :: k in data && k !in todo && k !in Protected ==> r[k] == data[k]
      invariant forall k :: k in attrs && (k !in data || k in todo || k in Protected) ==> r[k] == attrs[k]
      decreases todo
    {
      var k :| k in todo;
      if k !in Protected {
        r := r[k := data[k]];
      }
      todo := todo - {k};
    }
  }

  /** `update_place`: "Not a JSON" comes before any lookup, then a 404 for a
      missing place; otherwise the stored place is updated, committed, and
      answered with 200. Its id never changes. */
  method UpdatePlace(s: DBStorage, placeId: string, req: Request) returns (r: Response)
    requires s.Valid()
    modifies s
    ensures s.Valid()
    ensures !IsJsonBody(req) ==>
      r == JsonError(400, "Not a JSON") && s.rows == old(s.rows) && s.committed == old(s.committed)
    ensures IsJsonBody(req) && !HasId(Table(old(s.rows), Place), placeId) ==>
      r == Abort(404) && s.rows == old(s.rows) && s.committed == old(s.committed)
    ensures r.Json? ==>
      && IsJsonBody(req) && HasId(Table(old(s.rows), Place), placeId)
      && r.code == 200 && r.payload.One?
      && var p := r.payload.obj;
      && p.kind == Place && p.id == placeId
      && (exists before :: before in Table(old(s.rows), Place) && before.id == placeId &&
            p.attrs.Keys == before.attrs.Keys + (req.value.Keys - Protected) &&
            (forall k :: k in req.value && k !in Protected ==> p.attrs[k] == req.value[k]) &&
            (forall k :: k in before.attrs && (k !in req.value || k in Protected) ==> p.attrs[k] == before.attrs[k]))
      && s.rows == old(s.rows)[Place := Upsert(Table(old(s.rows), Place), p)]
      && s.committed == s.rows
    ensures IsJsonBody(req) && HasId(Table(old(s.rows), Place), placeId) ==> r.Json?
    ensures r.Json? || r.JsonError? || r == Abort(404)
  {
    if !IsJsonBody(req) {
      return JsonError(400, "Not a JSON");
    }
    var obj := s.Get("Place", placeId);
    if obj.None? {
      return Abort(404);
    }
    var before := obj.value;
    assert KindsAre(Table(s.rows, Place), Place);
    var attrs := ApplyUpdate(before.attrs, req.value);
    var updated := before.(attrs := attrs);
    s.New(updated);
    s.Save();
    r := Json(200, One(updated));
  }

  // ---------------------------------------------------------------------------
  // POST /places_search

  /** `data.get(key, [])`. */
  function Field(data: map<string, Value>, key: string): Value
  {
    if key in data then data[key] else VList([])
  }

  /** The items `for x in v` visits, for a value the handler only iterates
      when it is truthy: a list's items, a string's one-character strings; a
      number or boolean is not iterable. */
  function Iterate(v: Value): Result<seq<Value>>
  {
    if !Truthy(v) then Ok([])
    else match v
      case VList(xs) => Ok(xs)
      case VStr(str) => Ok(seq(|str|, i requires 0 <= i < |str| => VStr([str[i]])))
      case _ => Err("object is not iterable")
  }

  /** `set(amenities)`: the items must also be hashable, which a list is not. */
  function AmenitySet(v: Value): Result<seq<Value>>
  {
    match Iterate(v)
    case Err(msg) => Err(msg)
    case Ok(xs) => if forall x | x in xs :: !x.VList? then Ok(xs) else Err("unhashable type: 'list'")
  }

  /** The places of the given cities, one city after another. */
  function PlacesOfCities(rows: Tables, cities: seq<Obj>): seq<Obj>
  {
    if cities == [] then []
    else PlacesOfCities(rows, cities[..|cities| - 1]) + PlacesOf(rows, cities[|cities| - 1].id)
  }

  /** The places reached from the listed state ids: for each id in order that
      names a stored State, the places of each of its cities in order; an
      unknown id contributes nothing. */
  function StatePlaces(rows: Tables, ids: seq<Value>): seq<Obj>
  {
    if ids == [] then [] else StatePlaces(rows, ids[..|ids| - 1]) + PlacesOfStateId(rows, ids[|ids| - 1])
  }

  /** The places reached from one listed state id. */
  function PlacesOfStateId(rows: Tables, v: Value): seq<Obj>
  {
    match IdLookup(rows, "State", v)
    case None => []
    case Some(state) => PlacesOfCities(rows, CitiesOf(rows, state.id))
  }

  /** The places of the listed city ids, in order; an unknown id contributes
      nothing. */
  function CityPlaces(rows: Tables, ids: seq<Value>): seq<Obj>
  {
    if ids == [] then [] else CityPlaces(rows, ids[..|ids| - 1]) + PlacesOfCityId(rows, ids[|ids| - 1])
  }

  /** The places of one listed city id. */
  function PlacesOfCityId(rows: Tables, v: Value): seq<Obj>
  {
    match IdLookup(rows, "City", v)
    case None => []
    case Some(city) => PlacesOf(rows, city.id)
  }

  /** `amenities_set.issubset(place.amenities)`. */
  predicate HasAll(p: Obj, wanted: seq<Value>)
  {
    forall w | w in wanted :: w in AmenityIds(p)
  }

  /** The comprehension keeping the places that have every wanted amenity. */
  function KeepWithAmenities(places: seq<Obj>, wanted: seq<Value>): seq<Obj>
  {
    if places == [] then []
    else
      var p := places[|places| - 1];
      KeepWithAmenities(places[..|places| - 1], wanted) + (if HasAll(p, wanted) then [p] else [])
  }

  /** The answer of `places_search` for a store and a request. */
  function Search(rows: Tables, req: Request): Response
  {
    if !IsJsonBody(req) then JsonError(400, "Not a JSON")
    else
      var states := Field(req.value, "states");
      var cities := Field(req.value, "cities");
      var amenities := Field(req.value, "amenities");
      if Iterate(states).Err? || Iterate(cities).Err? || AmenitySet(amenities).Err? then Abort(500)
      else
        var candidates :=
          if !Truthy(states) && !Truthy(cities) then Table(rows, Place)
          else StatePlaces(rows, Iterate(states).value) + CityPlaces(rows, Iterate(cities).value);
        Json(200, Many(KeepWithAmenities(candidates, AmenitySet(amenities).value)))
  }

  lemma StatePlacesStep(rows: Tables, ids: seq<Value>, i: nat)
    requires i < |ids|
    ensures StatePlaces(rows, ids[..i + 1]) == StatePlaces(rows, ids[..i]) + PlacesOfStateId(rows, ids[i])
  {
    assert ids[..i + 1][..i] == ids[..i];
  }

  lemma PlacesOfCitiesStep(rows: Tables, gathered: seq<Obj>, cities: seq<Obj>, j: nat)
    requires j < |cities|
    ensures gathered + PlacesOfCities(rows, cities[..j + 1])
         == (gathered + PlacesOfCities(rows, cities[..j])) + PlacesOf(rows, cities[j].id)
  {
    assert cities[..j + 1][..j] == cities[..j];
  }

  /** The inner loop over one state's cities, extending the places gathered
      so far by each city's places. */
  method ExtendByCities(s: DBStorage, gathered: seq<Obj>, cities: seq<Obj>) returns (places: seq<Obj>)
    ensures places == gathered + PlacesOfCities(s.rows, cities)
  {
    places := gathered;
    var j := 0;
    assert gathered + PlacesOfCities(s.rows, cities[..0]) == places;
    while j < |cities|
      invariant 0 <= j <= |cities|
      invariant places == gathered + PlacesOfCities(s.rows, cities[..j])
    {
      PlacesOfCitiesStep(s.rows, gathered, cities, j);
      places := places + PlacesOf(s.rows, cities[j].id);
      j := j + 1;
    }
    assert cities[..j] == cities;
  }

  /** The loop over the listed states: for each state found, the places of
      each of its cities. */
  method PlacesOfStates(s: DBStorage, stateIds: seq<Value>) returns (places: seq<Obj>)
    ensures places == StatePlaces(s.rows, stateIds)
  {
    places := [];
    var i := 0;
    while i < |stateIds|
      invariant 0 <= i <= |stateIds|
      invariant places == StatePlaces(s.rows, stateIds[..i])
    {
      StatePlacesStep(s.rows, stateIds, i);
      var state := GetById(s, "State", stateIds[i]);
      if state.Some? {
        places := ExtendByCities(s, places, CitiesOf(s.rows, state.value.id));
      } else {
        assert places + [] == places;
      }
      i := i + 1;
    }
    assert stateIds[..i] == stateIds;
  }

  /** Every object of the list is a Place. */
  ghost predicate AllPlaces(ps: seq<Obj>)
  {
    forall p :: p in ps ==> p.kind == Place
  }

  /** A stored City is never among the Places gathered so far. */
  lemma CityIsNoPlace(rows: Tables, v: Value, places: seq<Obj>)
    requires WellFormed(rows)
    requires AllPlaces(places)
    ensures IdLookup(rows, "City", v).Some? ==> IdLookup(rows, "City", v).value !in places
  {
    if v.VStr? && Lookup(rows, "City", v.s).Some? {
      var t := Table(rows, City);
      assert Resolve("City") == Some(City);
      assert FirstIndex(t, v.s) < |t|;
      assert KindsAre(t, City);
      assert t[FirstIndex(t, v.s)] in t;
    }
  }

  lemma CityPlacesStep(rows: Tables, ids: seq<Value>, i: nat)
    requires i < |ids|
    ensures CityPlaces(rows, ids[..i + 1]) == CityPlaces(rows, ids[..i]) + PlacesOfCityId(rows, ids[i])
  {
    assert ids[..i + 1][..i] == ids[..i];
  }

  lemma AppendPlacesOf(rows: Tables, places: seq<Obj>, cityId: string)
    requires WellFormed(rows)
    requires AllPlaces(places)
    ensures AllPlaces(places + PlacesOf(rows, cityId))
  {
    PlacesOfAreStoredPlaces(rows, cityId);
  }

  /** One step of the city loop for a found city: appending its places
      extends the places gathered so far. */
  lemma CityFoundStep(rows: Tables, gathered: seq<Obj>, ids: seq<Value>, i: nat, city: Obj)
    requires i < |ids| && IdLookup(rows, "City", ids[i]) == Some(city)
    ensures gathered + CityPlaces(rows, ids[..i + 1]) == (gathered + CityPlaces(rows, ids[..i])) + PlacesOf(rows, city.id)
  {
    assert CityPlaces(rows, ids[..i + 1]) == CityPlaces(rows, ids[..i]) + PlacesOf(rows, city.id) by {
      CityPlacesStep(rows, ids, i);
      assert PlacesOfCityId(rows, ids[i]) == PlacesOf(rows, city.id);
    }
  }

  /** One step of the city loop for an unknown id: nothing is added. */
  lemma CityMissingStep(rows: Tables, ids: seq<Value>, i: nat)
    requires i < |ids| && IdLookup(rows, "City", ids[i]).None?
    ensures CityPlaces(rows, ids[..i + 1]) == CityPlaces(rows, ids[..i])
  {
    CityPlacesStep(rows, ids, i);
    assert PlacesOfCityId(rows, ids[i]) == [];
  }

  /** The body of the city loop: a city found and not yet among the places
      has its places appended. */
  function CityLoopNext(rows: Tables, places: seq<Obj>, city: Option<Obj>): seq<Obj>
  {
    if city.Some? && city.value !in places then places + PlacesOf(rows, city.value.id) else places
  }

  /** One pass of the city loop keeps its invariant. */
  lemma CityLoopStep(rows: Tables, gathered: seq<Obj>, ids: seq<Value>, i: nat, places: seq<Obj>)
    requires WellFormed(rows) && i < |ids|
    requires places == gathered + CityPlaces(rows, ids[..i]) && AllPlaces(places)
    ensures CityLoopNext(rows, places, IdLookup(rows, "City", ids[i])) == gathered + CityPlaces(rows, ids[..i + 1])
    ensures AllPlaces(gathered + CityPlaces(rows, ids[..i + 1]))
  {
    var city := IdLookup(rows, "City", ids[i]);
    if city.Some? {
      CityFoundStep(rows, gathered, ids, i, city.value);
      CityIsNoPlace(rows, ids[i], places);
      AppendPlacesOf(rows, places, city.value.id);
    } else {
      CityMissingStep(rows, ids, i);
    }
  }

  /** The loop over the listed cities, appending to the places gathered so
      far. Its guard `city not in places` compares a City with Places, so it
      never skips a city. */
  method AddPlacesOfCities(s: DBStorage, gathered: seq<Obj>, cityIds: seq<Value>) returns (places: seq<Obj>)
    requires s.Valid()
    requires AllPlaces(gathered)
    ensures places == gathered + CityPlaces(s.rows, cityIds)
  {
    places := gathered;
    var i := 0;
    assert gathered + CityPlaces(s.rows, cityIds[..0]) == places;
    while i < |cityIds|
      invariant 0 <= i <= |cityIds|
      invariant places == gathered + CityPlaces(s.rows, cityIds[..i]) && AllPlaces(places)
    {
      CityLoopStep(s.rows, gathered, cityIds, i, places);
      var city := GetById(s, "City", cityIds[i]);
      if city.Some? && city.value !in places {
        places := places + PlacesOf(s.rows, city.value.id);
      }
      i := i + 1;
    }
    assert cityIds[..i] == cityIds;
  }

  /** `places_search`: the candidates are every place when neither states nor
      cities are given, else the places reached through the listed states
      followed by the places of the listed cities; then only the places having
      every listed amenity are kept. */
  method PlacesSearch(s: DBStorage, req: Request) returns (r: Response)
    requires s.Valid()
    ensures r == Search(s.rows, req)
  {
    if !IsJsonBody(req) {
      return JsonError(400, "Not a JSON");
    }
    var data := req.value;
    var states := Field(data, "states");
    var cities := Field(data, "cities");
    var amenities := Field(data, "amenities");
    var places: seq<Obj>;
    if !Truthy(states) && !Truthy(cities) {
      places := Table(s.rows, Place);
    } else {
      var stateIds := Iterate(states);
      if stateIds.Err? {
        return Abort(500);
      }
      places := PlacesOfStates(s, stateIds.value);
      var cityIds := Iterate(cities);
      if cityIds.Err? {
        return Abort(500);
      }
      StatePlacesArePlaces(s.rows, stateIds.value);
      places := AddPlacesOfCities(s, places, cityIds.value);
    }
    var wanted := AmenitySet(amenities);
    if wanted.Err? {
      return Abort(500);
    }
    if Truthy(amenities) {
      places := KeepWithAmenities(places, wanted.value);
    } else {
      KeepNothingWanted(places, wanted.value);
    }
    r := Json(200, Many(places));
  }

  // ---------------------------------------------------------------------------
  // Properties of the search

  /** With no amenity listed the filter keeps every place. */
  lemma {:induction false} KeepNothingWanted(places: seq<Obj>, wanted: seq<Value>)
    requires wanted == []
    ensures KeepWithAmenities(places, wanted) == places
  {
    if places != [] {
      KeepNothingWanted(places[..|places| - 1], wanted);
      assert places[..|places| - 1] + [places[|places| - 1]] == places;
    }
  }

  /** The filter works place by place, so it distributes over concatenation. */
  lemma {:induction false} KeepWithAmenitiesAppend(a: seq<Obj>, b: seq<Obj>, wanted: seq<Value>)
    ensures KeepWithAmenities(a + b, wanted) == KeepWithAmenities(a, wanted) + KeepWithAmenities(b, wanted)
  {
    if b != [] {
      var init := b[..|b| - 1];
      assert (a + b)[..|a + b| - 1] == a + init;
      KeepWithAmenitiesAppend(a, init, wanted);
    } else {
      assert a + b == a;
    }
  }

  /** The filter keeps exactly the places having every wanted id. */
  lemma {:induction false} KeepWithAmenitiesMembers(a: seq<Obj>, wanted: seq<Value>)
    ensures forall p :: p in KeepWithAmenities(a, wanted) <==> p in a && HasAll(p, wanted)
  {
    if a != [] {
      var init := a[..|a| - 1];
      assert a == init + [a[|a| - 1]];
      KeepWithAmenitiesMembers(init, wanted);
    }
  }

  lemma {:induction false} PlacesOfCitiesArePlaces(rows: Tables, cities: seq<Obj>)
    requires WellFormed(rows)
    ensures forall p :: p in PlacesOfCities(rows, cities) ==> p in Table(rows, Place) && p.kind == Place
  {
    if cities != [] {
      PlacesOfCitiesArePlaces(rows, cities[..|cities| - 1]);
      PlacesOfAreStoredPlaces(rows, cities[|cities| - 1].id);
    }
  }

  lemma {:induction false} StatePlacesArePlaces(rows: Tables, ids: seq<Value>)
    requires WellFormed(rows)
    ensures forall p :: p in StatePlaces(rows, ids) ==> p in Table(rows, Place) && p.kind == Place
  {
    if ids != [] {
      StatePlacesArePlaces(rows, ids[..|ids| - 1]);
      match IdLookup(rows, "State", ids[|ids| - 1]) {
        case None =>
        case Some(state) => PlacesOfCitiesArePlaces(rows, CitiesOf(rows, state.id));
      }
    }
  }

  lemma {:induction false} CityPlacesArePlaces(rows: Tables, ids: seq<Value>)
    requires WellFormed(rows)
    ensures forall p :: p in CityPlaces(rows, ids) ==> p in Table(rows, Place) && p.kind == Place
  {
    if ids != [] {
      CityPlacesArePlaces(rows, ids[..|ids| - 1]);
      match IdLookup(rows, "City", ids[|ids| - 1]) {
        case None =>
        case Some(city) => PlacesOfAreStoredPlaces(rows, city.id);
      }
    }
  }

  /** Every place the search answers with is a stored Place that has every
      listed amenity. */
  lemma SearchAnswersStoredPlaces(rows: Tables, req: Request)
    requires WellFormed(rows)
    ensures Search(rows, req).Json? ==>
      forall p :: p in Search(rows, req).payload.objs ==>
        p in Table(rows, Place) && HasAll(p, AmenitySet(Field(req.value, "amenities")).value)
  {
    var r := Search(rows, req);
    if r.Json? {
      var states := Field(req.value, "states");
      var cities := Field(req.value, "cities");
      var wanted := AmenitySet(Field(req.value, "amenities")).value;
      var candidates :=
        if !Truthy(states) && !Truthy(cities) then Table(rows, Place)
        else StatePlaces(rows, Iterate(states).value) + CityPlaces(rows, Iterate(cities).value);
      StatePlacesArePlaces(rows, Iterate(states).value);
      CityPlacesArePlaces(rows, Iterate(cities).value);
      KeepWithAmenitiesMembers(candidates, wanted);
    }
  }

  /** A JSON body without states, cities or amenities answers every place. */
  lemma SearchWithoutFiltersListsEveryPlace(rows: Tables, req: Request)
    requires IsJsonBody(req)
    requires !Truthy(Field(req.value, "states")) && !Truthy(Field(req.value, "cities"))
    requires !Truthy(Field(req.value, "amenities"))
    ensures Search(rows, req) == Json(200, Many(Table(rows, Place)))
  {
    KeepNothingWanted(Table(rows, Place), []);
  }

  /** Without amenities, a search listing states or cities answers the places
      reached through the states, in the states' order, followed by those of
      the listed cities. */
  lemma SearchWithoutAmenities(rows: Tables, req: Request, stateIds: seq<Value>, cityIds: seq<Value>)
    requires IsJsonBody(req)
    requires Field(req.value, "states") == VList(stateIds) && Field(req.value, "cities") == VList(cityIds)
    requires !Truthy(Field(req.value, "amenities"))
    requires stateIds != [] || cityIds != []
    ensures Search(rows, req) == Json(200, Many(StatePlaces(rows, stateIds) + CityPlaces(rows, cityIds)))
  {
    KeepNothingWanted(StatePlaces(rows, stateIds) + CityPlaces(rows, cityIds), []);
  }

  lemma {:induction false} StatePlacesAppend(rows: Tables, a: seq<Value>, b: seq<Value>)
    ensures StatePlaces(rows, a + b) == StatePlaces(rows, a) + StatePlaces(rows, b)
  {
    if b != [] {
      var init := b[..|b| - 1];
      assert (a + b)[..|a + b| - 1] == a + init;
      StatePlacesAppend(rows, a, init);
    } else {
      assert a + b == a;
    }
  }

  lemma {:induction false} CityPlacesAppend(rows: Tables, a: seq<Value>, b: seq<Value>)
    ensures CityPlaces(rows, a + b) == CityPlaces(rows, a) + CityPlaces(rows, b)
  {
    if b != [] {
      var init := b[..|b| - 1];
      assert (a + b)[..|a + b| - 1] == a + init;
      CityPlacesAppend(rows, a, init);
    } else {
      assert a + b == a;
    }
  }

  /** A listed state id that names no stored State is skipped silently:
      removing it from the list changes nothing. */
  lemma UnknownStateIdIsSkipped(rows: Tables, a: seq<Value>, v: Value, b: seq<Value>)
    requires IdLookup(rows, "State", v).None?
    ensures StatePlaces(rows, a + [v] + b) == StatePlaces(rows, a + b)
  {
    StatePlacesAppend(rows, a + [v], b);
    StatePlacesAppend(rows, a, [v]);
    StatePlacesAppend(rows, a, b);
    assert StatePlaces(rows, [v]) == [] by {
      assert [v][..0] == [];
    }
    assert StatePlaces(rows, a) + [] == StatePlaces(rows, a);
  }

  /** A listed city id that names no stored City is skipped silently. */
  lemma UnknownCityIdIsSkipped(rows: Tables, a: seq<Value>, v: Value, b: seq<Value>)
    requires IdLookup(rows, "City", v).None?
    ensures CityPlaces(rows, a + [v] + b) == CityPlaces(rows, a + b)
  {
    CityPlacesAppend(rows, a + [v], b);
    CityPlacesAppend(rows, a, [v]);
    CityPlacesAppend(rows, a, b);
    assert CityPlaces(rows, [v]) == [] by {
      assert [v][..0] == [];
    }
    assert CityPlaces(rows, a) + [] == CityPlaces(rows, a);
  }

  // ---------------------------------------------------------------------------
  // A city listed directly and through its state

  /** A state "s" whose city "c" holds the place "p". */
  function ExampleRows(): Tables
  {
    map[State := [Obj(State, "s", map[])],
        City := [Obj(City, "c", map["state_id" := VStr("s")])],
        Place := [ExamplePlace()]]
  }

  function ExamplePlace(): Obj
  {
    Obj(Place, "p", map["city_id" := VStr("c")])
  }

  /** {"states": ["s"], "cities": ["c"]} */
  function ExampleRequest(): Request
  {
    Some(map["states" := VList([VStr("s")]), "cities" := VList([VStr("c")])])
  }

  lemma ExampleLookups()
    ensures Lookup(ExampleRows(), "State", "s") == Some(Obj(State, "s", map[]))
    ensures Lookup(ExampleRows(), "City", "c") == Some(Obj(City, "c", map["state_id" := VStr("s")]))
  {
    var rows := ExampleRows();
    assert Resolve("State") == Some(State) && Resolve("City") == Some(City);
    assert Table(rows, State) == [Obj(State, "s", map[])];
    assert Table(rows, City) == [Obj(City, "c", map["state_id" := VStr("s")])];
  }

  /** Through state "s" and directly through city "c" the search reaches the
      place once each. */
  lemma ExampleCandidates()
    ensures StatePlaces(ExampleRows(), [VStr("s")]) == [ExamplePlace()]
    ensures CityPlaces(ExampleRows(), [VStr("c")]) == [ExamplePlace()]
  {
    var rows := ExampleRows();
    var city := Obj(City, "c", map["state_id" := VStr("s")]);
    var place := ExamplePlace();
    ExampleLookups();
    assert Table(rows, City) == [city] && Table(rows, Place) == [place];
    assert CitiesOf(rows, "s") == [city] by {
      assert [city][..0] == [];
    }
    assert PlacesOf(rows, "c") == [place] by {
      assert [place][..0] == [];
    }
    assert PlacesOfCities(rows, [city]) == [place] by {
      assert [city][..0] == [];
    }
    assert PlacesOfStateId(rows, VStr("s")) == [place];
    assert PlacesOfCityId(rows, VStr("c")) == [place];
    assert [VStr("s")][..0] == [] && [VStr("c")][..0] == [];
  }

  /** As written: listing a city both through its state and directly answers
      its place twice. */
  lemma CityListedTwiceAppearsTwice(rows: Tables, req: Request)
    requires rows == ExampleRows() && req == ExampleRequest()
    ensures Search(rows, req) == Json(200, Many([ExamplePlace(), ExamplePlace()]))
  {
    ExampleCandidates();
    ExampleRequestFields();
    OnePlaceEachWay(rows, req, VStr("s"), VStr("c"), ExamplePlace());
  }

  lemma ExampleRequestFields()
    ensures IsJsonBody(ExampleRequest())
    ensures Field(ExampleRequest().value, "states") == VList([VStr("s")])
    ensures Field(ExampleRequest().value, "cities") == VList([VStr("c")])
    ensures !Truthy(Field(ExampleRequest().value, "amenities"))
  {
    assert "states" in ExampleRequest().value;
  }

  /** A request listing one state id and one city id, each reaching exactly
      the same one place, is answered with that place twice. */
  lemma OnePlaceEachWay(rows: Tables, req: Request, sid: Value, cid: Value, place: Obj)
    requires IsJsonBody(req)
    requires Field(req.value, "states") == VList([sid]) && Field(req.value, "cities") == VList([cid])
    requires !Truthy(Field(req.value, "amenities"))
    ensures StatePlaces(rows, [sid]) == [place] && CityPlaces(rows, [cid]) == [place] ==>
      Search(rows, req) == Json(200, Many([place, place]))
  {
    SearchWithoutAmenities(rows, req, [sid], [cid]);
    assert [place] + [place] == [place, place];
  }

  /** A listed state id reaches the places of every city of that state. */
  lemma {:induction false} StatePlacesReach(rows: Tables, ids: seq<Value>, sid: Value, city: Obj, p: Obj)
    requires sid in ids && IdLookup(rows, "State", sid).Some?
    requires city in CitiesOf(rows, IdLookup(rows, "State", sid).value.id) && p in PlacesOf(rows, city.id)
    ensures p in StatePlaces(rows, ids)
  {
    var last := ids[|ids| - 1];
    if sid == last {
      PlacesOfCitiesReach(rows, CitiesOf(rows, IdLookup(rows, "State", sid).value.id), city, p);
    } else {
      assert sid in ids[..|ids| - 1] by {
        assert ids == ids[..|ids| - 1] + [last];
      }
      StatePlacesReach(rows, ids[..|ids| - 1], sid, city, p);
    }
  }

  lemma {:induction false} PlacesOfCitiesReach(rows: Tables, cities: seq<Obj>, city: Obj, p: Obj)
    requires city in cities && p in PlacesOf(rows, city.id)
    ensures p in PlacesOfCities(rows, cities)
  {
    var last := cities[|cities| - 1];
    if city != last {
      assert city in cities[..|cities| - 1] by {
        assert cities == cities[..|cities| - 1] + [last];
      }
      PlacesOfCitiesReach(rows, cities[..|cities| - 1], city, p);
    }
  }

  /** A listed city id reaches the places of that city. */
  lemma {:induction false} CityPlacesReach(rows: Tables, ids: seq<Value>, cid: Value, p: Obj)
    requires cid in ids && IdLookup(rows, "City", cid).Some?
    requires p in PlacesOf(rows, IdLookup(rows, "City", cid).value.id)
    ensures p in CityPlaces(rows, ids)
  {
    var last := ids[|ids| - 1];
    if cid != last {
      assert cid in ids[..|ids| - 1] by {
        assert ids == ids[..|ids| - 1] + [last];
      }
      CityPlacesReach(rows, ids[..|ids| - 1], cid, p);
    }
  }

  /** As written: without amenities, a place of a city that is listed itself
      and also belongs to a listed state is answered at least twice. */
  lemma PlaceReachedTwice(rows: Tables, req: Request, stateIds: seq<Value>, cityIds: seq<Value>, sid: Value, cid: Value, p: Obj)
    requires IsJsonBody(req)
    requires Field(req.value, "states") == VList(stateIds) && Field(req.value, "cities") == VList(cityIds)
    requires !Truthy(Field(req.value, "amenities"))
    requires sid in stateIds && cid in cityIds
    ensures (IdLookup(rows, "State", sid).Some? && IdLookup(rows, "City", cid).Some? &&
      IdLookup(rows, "City", cid).value in CitiesOf(rows, IdLookup(rows, "State", sid).value.id) &&
      p in PlacesOf(rows, IdLookup(rows, "City", cid).value.id)) ==>
      Search(rows, req).Json? && Search(rows, req).payload.Many? && multiset(Search(rows, req).payload.objs)[p] >= 2
  {
    SearchWithoutAmenities(rows, req, stateIds, cityIds);
    if IdLookup(rows, "State", sid).Some? && IdLookup(rows, "City", cid).Some? &&
      IdLookup(rows, "City", cid).value in CitiesOf(rows, IdLookup(rows, "State", sid).value.id) &&
      p in PlacesOf(rows, IdLookup(rows, "City", cid).value.id)
    {
      StatePlacesReach(rows, stateIds, sid, IdLookup(rows, "City", cid).value, p);
      CityPlacesReach(rows, cityIds, cid, p);
      var a := StatePlaces(rows, stateIds);
      var b := CityPlaces(rows, cityIds);
      assert multiset(a + b) == multiset(a) + multiset(b);
    }
  }

  /** Corrected: the same request answers the place once. */
  lemma CityListedTwiceAnsweredOnce(rows: Tables, req: Request)
    requires rows == ExampleRows() && req == ExampleRequest()
    ensures SearchOnce(rows, req) == Json(200, Many([ExamplePlace()]))
  {
    var place := ExamplePlace();
    CityListedTwiceAppearsTwice(rows, req);
    assert Dedup([place, place]) == [place] by {
      assert [place, place][..1] == [place];
      assert Dedup([place]) == [place] by {
        assert [place][..0] == [];
      }
    }
  }

  /** The candidates with each place once, keeping its first position. */
  function Dedup(xs: seq<Obj>): (r: seq<Obj>)
    ensures NoDup(r)
    ensures forall x :: x in r <==> x in xs
    ensures |r| <= |xs|
    ensures NoDup(xs) ==> r == xs
  {
    if xs == [] then []
    else
      var init := Dedup(xs[..|xs| - 1]);
      var x := xs[|xs| - 1];
      assert forall y :: y in xs <==> y in xs[..|xs| - 1] || y == x by {
        assert xs == xs[..|xs| - 1] + [x];
      }
      assert NoDup(xs) ==> NoDup(xs[..|xs| - 1]) && x !in xs[..|xs| - 1];
      assert xs == xs[..|xs| - 1] + [x];
      if x in init then init else init + [x]
  }

  /** Appending to the candidates only appends to the deduplicated list: the
      places kept for a prefix keep their positions, at the front. */
  lemma {:induction false} DedupPrefix(xs: seq<Obj>, ys: seq<Obj>)
    ensures Dedup(xs) <= Dedup(xs + ys)
  {
    if ys != [] {
      var init := ys[..|ys| - 1];
      assert (xs + ys)[..|xs + ys| - 1] == xs + init;
      DedupPrefix(xs, init);
    } else {
      assert xs + ys == xs;
    }
  }

  /** Corrected search, without amenities: its answer starts with the places
      reached through the listed states, each once, in their order; when the
      states reach no place twice, exactly those places in that order. */
  lemma SearchOnceStatesFirst(rows: Tables, req: Request, stateIds: seq<Value>, cityIds: seq<Value>)
    requires IsJsonBody(req)
    requires Field(req.value, "states") == VList(stateIds) && Field(req.value, "cities") == VList(cityIds)
    requires !Truthy(Field(req.value, "amenities"))
    requires stateIds != [] || cityIds != []
    ensures SearchOnce(rows, req).Json? && SearchOnce(rows, req).payload.Many?
    ensures Dedup(StatePlaces(rows, stateIds)) <= SearchOnce(rows, req).payload.objs
    ensures NoDup(StatePlaces(rows, stateIds)) ==> StatePlaces(rows, stateIds) <= SearchOnce(rows, req).payload.objs
  {
    SearchWithoutAmenities(rows, req, stateIds, cityIds);
    DedupPrefix(StatePlaces(rows, stateIds), CityPlaces(rows, cityIds));
  }

  /** Corrected: the answer of the search with every place listed once, at
      its first position; the same places as the code answers, and the same
      errors. */
  function SearchOnce(rows: Tables, req: Request): (r: Response)
    ensures !Search(rows, req).Json? ==> r == Search(rows, req)
    ensures Search(rows, req).Json? ==>
      && r.Json? && r.code == Search(rows, req).code && r.payload.Many?
      && NoDup(r.payload.objs)
      && forall p :: p in r.payload.objs <==> p in Search(rows, req).payload.objs
  {
    match Search(rows, req)
    case Json(code, Many(places)) => Json(code, Many(Dedup(places)))
    case other => other
  }
}
