# AirBnB clone: storage engine and Place routes, in Dafny

This project models two parts of the AirBnB clone (HBnB) REST back end and proves properties of them:

- **The relational storage engine** `DBStorage` (`models/engine/db_storage.py`). The model keeps the ORM session's working set as one table per mapped class: `map<ClassName, seq<Obj>>`, with each table in query order. It models:
  - `all`: the dictionary keyed by `"<ClassName>.<id>"`, for one class or for the fixed list of six classes;
  - `new`, `save` and `delete`;
  - `get`: a linear scan that never raises;
  - `count`: with a class, or over a list of namespace names.

  `DBStorage` is a class. `rows` is the session's working set, `committed` the last committed snapshot, and the methods update them in place.
- **The Place model and its REST handlers** (`api/v1/views/places.py`). This covers:
  - the file-mode `reviews` property and the `amenities` getter and setter;
  - `get_place_by_city`, `get_place_id`, `delete_place`, `create_place`, `update_place` and `places_search`.

  In the program the file-mode properties exist only alongside the file storage. Here they are evaluated over the `DBStorage` model, like the handlers.

  Each handler is a method over a `DBStorage`. Its answer is a `Response`: `Json(code, payload)`, `JsonError(code, msg)` for `jsonify({"error": msg})`, or `Abort(code)`. An uncaught exception is answered as `Abort(500)`.

Files:

- `models.dfy` (module `Models`) defines the shared pieces:
  - the six mapped classes and the resolution of class names;
  - JSON values with Python truthiness;
  - stored objects;
  - composite keys, split back at their first '.'.
- `db_storage.dfy` (module `DbStorage`) defines the tables, the specification functions of `all` and `count`, the class `DBStorage`, and the lemmas about them.
- `places.dfy` (module `Places`) defines the relationships and the Place helpers. It also holds the handlers, the specification function `Search` of `places_search`, and the two findings below.

Relationships are read off the tables:

- `state.cities` is the City rows whose `state_id` is the state's id, in table order.
- `city.places` is the Place rows whose `city_id` is the city's id, in table order.

Where the code and the storage contract it is meant to follow disagree, the model follows the code:

- `all` with an unknown class name raises `NameError`, from `eval`. It does not answer an empty dictionary. `count` with an unknown name raises too, from `getattr`.
- `delete` of an object the session does not hold is not a silent no-op. The ORM refuses it. `Delete` reports this by answering `false` and leaving the rows alone.
- `new` is visible to the next query before `save`. The session autoflushes pending objects. `save` only moves the committed snapshot.

## Model

| member | source | states |
|---|---|---|
| Models.Resolve | models/engine/db_storage.py:44 | A class name resolves exactly when it is the `__name__` of one of the six mapped classes, and then to that class. |
| Models.KeyParts | models/engine/db_storage.py:47-48 | The composite key of a class and an id splits, at its first '.', back into the class name and the id. |
| Models.KeyInjective | models/engine/db_storage.py:54-55 | Two composite keys are equal exactly when class and id are both equal, so rows of different classes never share a key. |
| DbStorage.FirstIndex | models/engine/db_storage.py:95-98 | The scan stops at the first row with the id: no earlier row has it, and the result is the table length when no row has it. |
| DbStorage.FirstIndexFindsAny | models/engine/db_storage.py:95-98 | The scan finds a row exactly when some row has the id. |
| DbStorage.DBStorage.All | models/engine/db_storage.py:36-56 | An unknown class name raises. Otherwise the answer is the dictionary built, pair by pair in query order, over the queried classes: one class, or the six when no class is given. |
| DbStorage.DBStorage.AllOf | models/engine/db_storage.py:42-48 | With a class, the loop's dictionary is the one over that class's query. |
| DbStorage.DBStorage.AllOfEvery | models/engine/db_storage.py:49-55 | Without a class, the nested loops' dictionary is the one over the six queries in their fixed order. |
| DbStorage.AddQuery | models/engine/db_storage.py:46-48 | The loop `dic[key] = elem` over one query extends the dictionary by that query's pairs, later ones overwriting earlier. |
| DbStorage.DBStorage.New | models/engine/db_storage.py:58-61 | The object joins its class's table, replacing the row with the same id or else appended. Nothing else changes, and the table invariant is kept. |
| DbStorage.DBStorage.constructor | models/engine/db_storage.py:74-80 | After `reload` the fresh session sees the stored rows, all committed, and the table invariant holds. |
| DbStorage.DBStorage.Save | models/engine/db_storage.py:63-66 | The committed snapshot becomes the working set, which is unchanged. |
| DbStorage.DBStorage.Delete | models/engine/db_storage.py:68-72 | A falsy argument changes nothing. A stored object's rows are removed from its table. An object the session does not hold is refused, and nothing changes. |
| DbStorage.DBStorage.Get | models/engine/db_storage.py:87-101 | Answers the first row of the named class with the id. It answers None exactly when the name is unknown or no row has the id, and it never raises. |
| DbStorage.DBStorage.Count | models/engine/db_storage.py:103-112 | An unknown class name raises. Otherwise the answer is the class's row count, which equals the size of `all(cls)`. |
| DbStorage.DBStorage.CountNames | models/engine/db_storage.py:113-119 | The loop over the namespace names adds each mapped class's row count, skips "BaseModel", and raises at the first other name. |
| DbStorage.UpsertSpec | models/engine/db_storage.py:58-61 | After `new`, the object is in the table and every other row was there before. The table grows by one exactly when the id was new. Unique ids stay unique. |
| DbStorage.UpsertWellFormed | models/engine/db_storage.py:58-61 | `new` keeps every table of one class with unique ids. |
| DbStorage.RemoveIdMembers | models/engine/db_storage.py:71-72 | After a delete, the rows left are exactly the former rows with another id. |
| DbStorage.RemoveIdLength | models/engine/db_storage.py:71-72 | Deleting a stored id shrinks a table with unique ids by exactly one. Deleting an absent id changes nothing. |
| DbStorage.RemoveIdUnique | models/engine/db_storage.py:71-72 | A delete keeps ids unique. |
| DbStorage.RemoveWellFormed | models/engine/db_storage.py:71-72 | A delete keeps every table of one class with unique ids. |
| DbStorage.ToMapDomain | models/engine/db_storage.py:41-48 | The dictionary's keys are exactly the keys of the pairs inserted, and each entry is one of those pairs. |
| DbStorage.ToMapSize | models/engine/db_storage.py:41-48 | With distinct keys the dictionary has one entry per pair inserted. |
| DbStorage.ToMapValues | models/engine/db_storage.py:41-48 | With distinct keys each pair's key maps to that pair's object. |
| DbStorage.ToMapDistinct | models/engine/db_storage.py:41-48 | Both facts above together. |
| DbStorage.EntriesSize | models/engine/db_storage.py:50-55 | The queries over several classes yield as many pairs as those tables have rows. |
| DbStorage.EntriesSound | models/engine/db_storage.py:50-55 | Each pair is a stored row of a queried class, under its own composite key. |
| DbStorage.EntriesShape | models/engine/db_storage.py:50-55 | Both facts above together. |
| DbStorage.EntriesComplete | models/engine/db_storage.py:50-55 | Every row of a queried class appears as a pair under its key. |
| DbStorage.TableEntriesDistinct | models/engine/db_storage.py:46-48 | In one table with unique ids no two pairs share a key. |
| DbStorage.AppendDistinct | models/engine/db_storage.py:51-55 | Two runs of pairs with distinct keys and no key in common concatenate to a run with distinct keys. |
| DbStorage.EntriesDistinct | models/engine/db_storage.py:50-55 | Over distinct classes of a well-formed store no two pairs share a key. |
| DbStorage.AllOfClassSize | models/engine/db_storage.py:42-48 | `all(cls)` has exactly one entry per row of the class. |
| DbStorage.AllOfClassComplete | models/engine/db_storage.py:42-48 | `all(cls)` holds every row of the class under `"<ClassName>.<id>"`. |
| DbStorage.AllOfClassSound | models/engine/db_storage.py:42-48 | Every key of `all(cls)` is the composite key of the row it holds. It starts with the class name followed by ".", and its class part is the class name. |
| DbStorage.KeyPrefix | models/engine/db_storage.py:47 | A composite key starts with the class name followed by ".", and its class part is that name. |
| DbStorage.AllClassesSize | models/engine/db_storage.py:49-55 | `all()` has exactly one entry per stored row of the six classes. |
| DbStorage.AllClassesComplete | models/engine/db_storage.py:49-55 | `all()` holds every stored row of every class under its composite key. |
| DbStorage.AllClassesSound | models/engine/db_storage.py:49-55 | Every entry of `all()` is a stored row under its own composite key, and nothing else is in it. |
| DbStorage.CountOfNamesErrSticks | models/engine/db_storage.py:113-119 | Once a name has raised, later names do not change the outcome. |
| DbStorage.CountOfNamesFails | models/engine/db_storage.py:113-119 | `count()` raises exactly when some name other than "BaseModel" has no mapped class. |
| DbStorage.CountOfNamesSums | models/engine/db_storage.py:113-119 | Over class names, `count()` is the sum of their row counts. |
| DbStorage.CountNamesIsSizeOfAll | models/engine/db_storage.py:113-119 | Over the names of distinct classes, `count()` equals the size of `all()` over those classes. |
| DbStorage.NewIsVisible | models/engine/db_storage.py:58-66 | After `new(obj)`, with or without `save()`, `all()` holds obj under its key. Its class's count grew by one exactly when the id was new. |
| DbStorage.DeleteIsInvisible | models/engine/db_storage.py:68-72 | After deleting a stored object its key is absent from `all()` and its class's count dropped by one. Other classes are untouched. |
| Places.SelectMembers | api/v1/views/places.py:104 | A relationship lists exactly the rows whose foreign key equals the parent's id. |
| Places.SelectAppend | api/v1/views/places.py:104 | The relationship filter distributes over concatenation, so it keeps the table order. |
| Places.PlacesOfAreStoredPlaces | api/v1/views/places.py:104 | `city.places` lists only stored Places of that city. |
| Places.ReviewKey | api/v1/views/places.py:66-68 | A key's class part is "Review" exactly for the keys of Review rows. |
| Places.ReviewValuesOfTable | api/v1/views/places.py:65-69 | Of one class's pairs the class-part test keeps all for Review and none for any other class. |
| Places.ReviewValuesOfAll | api/v1/views/places.py:62-69 | Over distinct classes the test keeps exactly the Review table, when Review is queried. |
| Places.ReviewValuesOfAllClasses | api/v1/views/places.py:62-69 | Over the six classes of `all()` the test keeps exactly the Review table. |
| Places.ReviewsOfPairs | api/v1/views/places.py:65-69 | The first loop collects, in order, the objects whose key's class part is "Review". |
| Places.OfPlace | api/v1/views/places.py:70-72 | The second loop keeps, in order, the objects whose `place_id` is the place's id. |
| Places.Reviews | api/v1/views/places.py:59-73 | `reviews` is exactly the stored Reviews whose `place_id` is this place's id, in table order. |
| Places.AppendAmenity | api/v1/views/places.py:80-84 | Appends only an Amenity's id, and only when it is absent: a present id leaves the list as it is, even one with repeats. The list only grows, by at most that id, and stays free of duplicates. |
| Places.PlaceClass.SetAmenities | api/v1/views/places.py:75-84 | As written: a non-Amenity changes nothing. For an Amenity, the id is appended to the instance's own list if it has one, else to the class attribute's list, which the getter then answers. An own attribute that is a string raises unless the id is a substring of it, and any other non-list value raises. |
| Places.SharedAmenityListLeak | api/v1/views/places.py:49-84 | As written: an amenity set on one place without an `amenity_ids` attribute of its own is seen by every other such place. |
| Places.WithAmenity | api/v1/views/places.py:80-84 | Corrected setter: only this place's own list changes, by the setter's rule. Nothing else about the place changes. |
| Places.GetPlaceByCity | api/v1/views/places.py:95-105 | Answers 404 exactly when the city is not stored. Otherwise it answers 200 with `city.places`, all stored Places of that city. |
| Places.GetPlaceId | api/v1/views/places.py:108-116 | Answers 404 exactly when no Place has the id. Otherwise it answers 200 with the stored Place of that id. |
| Places.DeletePlace | api/v1/views/places.py:119-130 | A missing place answers 404 and changes nothing. Otherwise its row is removed, the session committed, and `{}` answered with 200. |
| Places.CreateCheck | api/v1/views/places.py:139-144 | The 400 errors come in order: "Not a JSON" exactly when the body is not truthy JSON, then "Missing name", then "Missing user_id". |
| Places.GetById | api/v1/views/places.py:147-150 | `storage.get` with a value from the request finds a row only for a string equal to a stored id. |
| Places.CreatePlace | api/v1/views/places.py:133-155 | The 400 checks come first. Then a missing city or user answers 404, changing nothing. Otherwise the answer is always 201. The new Place, under its fresh id, carries the request's attributes with the looked-up `city_id` and `user_id`. It is appended to the Place table, so that table grows by exactly one, and the session is committed. |
| Places.ApplyUpdate | api/v1/views/places.py:169-173 | `id`, `user_id`, `created_at` and `updated_at` are never overwritten. Every other request key takes its value, `city_id` included, and attributes the request does not name are unchanged. |
| Places.UpdatePlace | api/v1/views/places.py:158-175 | "Not a JSON" (400) comes before any lookup, then 404 for a missing place. Otherwise the answer is always 200. The place's attributes are merged as above under the same id, stored and committed. |
| Places.ExtendByCities | api/v1/views/places.py:196-197 | The inner loop appends each of the state's cities' places, in order. |
| Places.PlacesOfStates | api/v1/views/places.py:192-197 | The state loop gathers, in the listed order, the places of each found state's cities. |
| Places.CityIsNoPlace | api/v1/views/places.py:201 | A found City is never among the Places gathered, so the guard `city not in places` never holds back a city. |
| Places.CityLoopStep | api/v1/views/places.py:199-202 | One pass of the city loop appends the found city's places, or nothing for an unknown id. |
| Places.AddPlacesOfCities | api/v1/views/places.py:198-202 | The city loop appends, in the listed order, the places of every found city after those gathered from the states. |
| Places.PlacesSearch | api/v1/views/places.py:177-208 | The handler answers exactly `Search`. A non-JSON body answers 400 before anything else, and a value that cannot be iterated or hashed answers 500. With neither states nor cities the candidates are every Place. Otherwise they are the state-derived places followed by the listed cities' places. The amenity filter applies last. |
| Places.KeepNothingWanted | api/v1/views/places.py:204-206 | With no amenity listed the filter keeps every place. |
| Places.KeepWithAmenitiesAppend | api/v1/views/places.py:206 | The amenity filter works place by place and keeps the order. |
| Places.KeepWithAmenitiesMembers | api/v1/views/places.py:206 | The filter keeps exactly the places whose amenity ids include every listed id. |
| Places.PlacesOfCitiesArePlaces | api/v1/views/places.py:196-197 | The places of a list of cities are stored Places. |
| Places.StatePlacesArePlaces | api/v1/views/places.py:192-197 | The places reached through states are stored Places. |
| Places.CityPlacesArePlaces | api/v1/views/places.py:198-202 | The places reached through listed cities are stored Places. |
| Places.SearchAnswersStoredPlaces | api/v1/views/places.py:188-208 | Every place the search answers is a stored Place having every listed amenity. |
| Places.SearchWithoutFiltersListsEveryPlace | api/v1/views/places.py:188-206 | A JSON body without states, cities or amenities answers every stored Place. |
| Places.SearchWithoutAmenities | api/v1/views/places.py:188-202 | Without amenities, listing states or cities answers the state-derived places first, in the states' order, then the listed cities' places. |
| Places.StatePlacesAppend | api/v1/views/places.py:193-197 | The places gathered from a list of state ids are the concatenation of those from each part. |
| Places.CityPlacesAppend | api/v1/views/places.py:199-202 | The places gathered from a list of city ids are the concatenation of those from each part. |
| Places.UnknownStateIdIsSkipped | api/v1/views/places.py:193-195 | A listed state id naming no stored State is skipped silently: removing it changes nothing. |
| Places.UnknownCityIdIsSkipped | api/v1/views/places.py:199-201 | A listed city id naming no stored City is skipped silently. |
| Places.OnePlaceEachWay | api/v1/views/places.py:192-202 | A request listing one state id and one city id, each reaching the same single place, answers that place twice. |
| Places.StatePlacesReach | api/v1/views/places.py:192-197 | A listed state id that names a stored State reaches every place of every one of its cities. |
| Places.PlacesOfCitiesReach | api/v1/views/places.py:196-197 | The places gathered from a list of cities include every place of every city in it. |
| Places.CityPlacesReach | api/v1/views/places.py:198-202 | A listed city id that names a stored City reaches every place of that city. |
| Places.PlaceReachedTwice | api/v1/views/places.py:188-202 | As written: without amenities, take a City listed in `cities` whose State is listed in `states`. Every place of that city occurs at least twice in the answer. |
| Places.CityListedTwiceAppearsTwice | api/v1/views/places.py:198-202 | As written: state "s" with city "c" holding place "p", searched with states ["s"] and cities ["c"], answers "p" twice. |
| Places.Dedup | api/v1/views/places.py:198-202 | Keeps each place once, with the same members. A list without repeats is left as it is. |
| Places.DedupPrefix | api/v1/views/places.py:198-202 | What is kept for a prefix of the candidates stays, in the same order, at the front of what is kept for the whole. So each place stays at its first position. |
| Places.SearchOnce | api/v1/views/places.py:198-208 | Corrected: the same answer and the same errors as the search, with the same places each listed once. |
| Places.SearchOnceStatesFirst | api/v1/views/places.py:188-202 | Corrected, without amenities: the answer starts with the places reached through the listed states, each once and in the states' order. When those have no repeats, the answer starts with exactly them. |
| Places.CityListedTwiceAnsweredOnce | api/v1/views/places.py:198-202 | Corrected: the same request answers "p" once. |

## Left out

- Engine construction, environment variables, `drop_all`/`create_all`, the session factory, `reload` and `close`: connection plumbing. The model starts from a given well-formed working set (the `DBStorage` constructor).
- The ORM schema: the Column declarations, the `place_amenity` table and the declarative `relationship`s. Relationships are derived from `state_id`, `city_id` and `place_id` in table order, because the order of an unordered query is not specified.
- Cascading deletes (`cascade='all, delete, delete-orphan'`). `DeletePlace` removes the Place row only. The Reviews that the database would delete with it are not modelled.
- DB-mode `place.amenities`, which is a list of Amenity objects rather than ids. Under the relational storage, `issubset` compares id strings with Amenity objects. So the code as written answers `[]` for every search with a non-empty `amenities` list. The model does not capture this.
- Places.PlacesSearch: the subset test does not read the getter as written (`PlaceClass.Amenities`), which falls back to the one list of the class. It reads each place's own `amenity_ids` list (`AmenityIds`), as the corrected setter keeps it.
- `models/__init__.py`, `BaseModel` and the other model classes are not part of this model. `obj.save()` and `place.delete()` are taken to call `storage.new` + `storage.save` and `storage.delete`. `Place(**obj_data)` is taken to store the request's attributes with a fresh id, which `CreatePlace` receives as the parameter `newId`. UUID generation, timestamps, `to_dict` serialisation and `jsonify` are left out.
- The names `shlex` and `Amenity` are used in the Place model without being imported in this file. The model takes `shlex.split(key.replace('.', ' '))[0]` as the part of the key before its first '.', and `type(obj) is Amenity` as the object being of class Amenity.
- Name resolution by `eval`/`getattr` is limited to the six mapped class names. Other names in the `models` namespace (modules, `BaseModel`, `storage`) are not modelled, and `eval` of an arbitrary expression is not modelled either. `count()` without a class takes the namespace's names as a parameter.
- DbStorage.DBStorage.Get: `get` swallows every exception. The model has no query failures other than an unknown class name, which answers None.
- JSON request bodies are objects whose values are null, booleans, integers, strings or lists. Floats (`latitude`, `longitude`), nested objects and non-object top-level bodies are not modelled. Python's `1 == True` is not modelled: `VInt(1)` and `VBool(true)` are different values.
- Places.ApplyUpdate: `setattr` on a name that is a Python property or method of the instance is modelled as setting a plain attribute.
- Places.PlacesSearch: an `amenity_ids` attribute that is not a list counts as no amenities. In Python, `issubset` would iterate a string and raise on other values. Iterating a string yields its one-character strings. An item of a place's own `amenity_ids` list that is itself a list makes `issubset` raise (500), because it hashes every item. The model's membership test just leaves that place out and answers 200.
- Places.PlacesSearch, Places.Reviews: both read the tables (`Table`, `Entries`) rather than the dictionary that `all` answers. This stands for the fact that a dictionary with distinct keys iterates its values in insertion order, which `ToMapValues` and `AllOfClassSound` pin down.
- Places.WithAmenity: an `amenity_ids` attribute that is not a list is read as an empty list and replaced by a list. The setter as written raises there (`PlaceClass.SetAmenities`).
- DbStorage.DBStorage.New: adding a different object whose id is already stored replaces that row. The session would refuse this identity conflict, or the duplicate primary key, at the next flush. The model cannot tell "the same instance, modified" from "another instance with that id". `CreatePlace` therefore requires a fresh id. The same holds for DbStorage.DBStorage.Delete: the session refuses to delete a transient copy carrying a stored id, but the model removes the stored row.
- DbStorage.DBStorage.Save: a commit never fails in the model, and no database constraint is checked. So `CreatePlace` answers 201 for `{"name": null, "user_id": <stored id>}`, although `name` is NOT NULL and the commit would raise (500). And `UpdatePlace` answers 200 when it sets `city_id` to an unknown id, although the foreign key would make the commit fail.
- HTTP routing, `strict_slashes`, the 405 responses Flask answers for other methods, and `api/v1/views/index.py`.
- `models/user.py` password hashing.

## Findings

| source | as written | input that shows it | evidently intended | confidence | as-written member | corrected member |
|---|---|---|---|---|---|---|
| api/v1/views/places.py:49-84 | `amenity_ids = []` is a class attribute. The setter appends to `self.amenity_ids`, which for an instance without its own list is the one list of the class. | Two places `p`, `q` without their own list; `p.amenities = a` for an Amenity `a`; then `q.amenities` contains `a.id`. | Each place keeps its own list of amenity ids. | high; not executed | Places.SharedAmenityListLeak | Places.WithAmenity |
| api/v1/views/places.py:198-202 | `city not in places` compares a City with a list of Places, so it is always true and a city's places are added even when its state was listed. | State `s` with city `c` holding place `p`; body `{"states": ["s"], "cities": ["c"]}` answers `[p, p]`. | A city already covered by a listed state adds nothing, so each place is answered once. | medium; not executed | Places.CityListedTwiceAppearsTwice | Places.SearchOnce |

`PlacesSearch` and `Search` model the handler as written. The search's amenity test reads each place's own list (`AmenityIds`), as the corrected setter keeps it. `SearchOnce` removes repeats place by place, keeping first positions. So it also answers once a place that the code repeats for another reason, such as a state listed twice. The guard aimed only at cities already covered by a listed state.
