# HBnB-Evolution core, modelled in Dafny

HBnB-Evolution is the back end of a small holiday-rental service written in Python. This project models its core:

- **The in-memory `DataManager`** (`data_manager.py`). It keeps a two-level dictionary `storage[entity_id][class name] -> entity` and offers `save`, `get`, `update` and `delete`. Module `DataStore` gives the pure meaning of each operation on a storage value and proves facts about it. These include the round trip of save then get, "nothing else changes", and the invariant that no id maps to an empty inner dictionary. It also proves that saving an entity whose id and class were absent, and then deleting it, restores the storage exactly. Class `DataStore.DataManager` performs the operations in place and is proved against those functions.
- **The Flask handlers of `app.py`**. These are user, country and city create/read/update/delete over the module-level dicts `users_db`, `countries_db` and `cities_db`.
  - Module `AppSpec` holds this file's validators and its country and city creation.
  - The get, update, delete and create-user logic is shared with the second API, so it lives in module `Crud`.
  - Class `App.Store` owns the three dicts. Its create, update and delete methods change them in place; its get methods only read them. Every method returns the handler's response.
- **The Flask handlers of `api/app.py` (lines 12-143)**. This second version has:
  - its own email pattern;
  - a preset `countries_db` holding US, CA and MX;
  - per-country uniqueness of city names on creation;
  - a country-code check on city update;
  - a list of the cities of one country.

  Module `ApiSpec` holds the pure part. Class `Api.Store` owns `users_db` and `cities_db`. The store also keeps the insertion order of `cities_db`, because both the uniqueness loop and the city list walk `cities_db.values()`.
- **The email registry of `models/user.py`**. A `User` can only be built with an email that is not in the class-level set `_existing_emails`; `clear_existing_emails` empties that set. Dafny has no class-level state, so the set is an `EmailRegistry` object, and the checked construction is its `NewUser` method.
- **`Place` in `models/place.py`**. Its constructor stores its arguments, and `add_review` appends to `reviews` in place.

How handlers are modelled:

- Responses are the datatype `Json.Response`, one constructor per HTTP status the handlers return. The error strings are the source's own.
- Request bodies and stored records are `map<string, Value>`.
- The uuid and the current time are parameters of each handler.

Some behaviours of the source are kept as written. Lemmas state them:

- `app.py` and `api/app.py` compare a new user's email with the user *ids* (`data['email'] in users_db`), so two users may share an email. See `Crud.DuplicateEmailAccepted`.
- The `api/app.py` pattern is the raw string `r'[^@]+@[^@]+\\.[^@]+'`. Its `\\.` is a literal backslash followed by any character, so every address it accepts contains a backslash, and `test@example.com` is refused. See the contract of `ApiSpec.IsEmailValid` and `ApiSpec.PlainAddressRejected`.
- `re.match` anchors only at the start, so any text after an accepted address is accepted too. See `AppSpec.EmailWithTrailingTextAccepted` and `ApiSpec.EmailWithTrailingTextAccepted`.
- City names are unique per country on creation, but an update can break that uniqueness. See `ApiSpec.UpdateCanBreakUniqueness`.

## Model

| member | source | states |
|---|---|---|
| Json.Merge | app.py:58 | `dict.update`: the keys are the union of both key sets, the patch's values win, and every other value is kept |
| Json.Stamped | app.py:33-34 | the body gains `id`, `created_at` and `updated_at` with the given values; every other field is kept |
| Json.Patched | app.py:58-59 | after merge and stamp: the keys are the old keys plus the body's keys, `updated_at` is the new time, the body's fields win, and the rest is kept |
| Strings.IndexOf | app.py:15-16 | the first occurrence of a character at or after a position, or the length if there is none; there is no occurrence before it |
| Strings.IndexOfIsFirst | app.py:15-16 | a position holding the character, with none before it from `from` on, is exactly what `IndexOf` returns |
| Strings.IndexOfBeyondRun | app.py:15-16 | if no occurrence lies in `[from, hi)`, `IndexOf` returns at least `hi` |
| Crud.Get | app.py:44-48 | `Ok` with the stored record if and only if the key is present, otherwise 404 with the given message |
| Crud.Update | app.py:51-60 | 404 for an unknown id and 400 "No data provided" for an empty body, both with the table unchanged; otherwise the same keys, the record merged and stamped, and the response carries the new record; other records are unchanged |
| Crud.Delete | app.py:63-68 | the key set loses exactly the id; 204 if and only if the id was present, otherwise 404 |
| Crud.CreateUser | app.py:24-36 | 201 if and only if the required fields are present, the email is a string, it passes the pattern and it is not a key; the checks come in the source's order with their messages; a non-string email is an uncaught error; on 201 the stamped body is stored under the new id, otherwise the table is unchanged |
| Crud.CreatedUserCanBeRead | app.py:32-36 | after a 201, a read of the new id returns the body; the body carries the id and equal timestamps; other users are unchanged |
| Crud.DuplicateEmailAccepted | app.py:30-31 | the same body is accepted again under a second id, and the two stored users share the email |
| Crud.DeleteThenGetIsNotFound | app.py:63-68 | after a delete, a read is 404, and deleting again is a 404 that changes nothing |
| Crud.UpdateThenGet | app.py:51-60 | after a successful update, a read returns what the update returned |
| DataStore.Lookup | data_manager.py:14-15 | `Some` if and only if the id and class name are present; under the keying invariant the entity has that id and class |
| DataStore.Saved | data_manager.py:7-12 | the saved entity is found under its own id and class, every other pair reads as before, and both invariants are kept |
| DataStore.Updated | data_manager.py:17-21 | when the pair is absent, nothing changes and nothing is created; when it is present, the result is the same as a save; both invariants are kept |
| DataStore.Deleted | data_manager.py:23-27 | the pair reads as absent afterwards and every other pair is untouched; deleting an absent pair changes nothing; the emptied inner dictionary is pruned, so the invariants are kept |
| DataStore.LookupDeterminesStorage | data_manager.py:23-27 | when no id maps to an empty inner dictionary, two storages that answer every `get` alike are equal |
| DataStore.DeleteUndoesSave | data_manager.py:7-27 | saving an absent entity and then deleting it gives back exactly the original storage |
| DataStore.SaveAfterDelete | data_manager.py:7-27 | deleting and then saving the same id and class equals saving straight away |
| DataStore.DataManager.constructor | data_manager.py:4-5 | the storage starts empty |
| DataStore.DataManager.Save | data_manager.py:7-12 | the new storage is `Saved` of the old one, and the invariant is kept |
| DataStore.DataManager.Get | data_manager.py:14-15 | finds an entity if and only if its id and class name are present; the entity carries both |
| DataStore.DataManager.Update | data_manager.py:17-21 | the new storage is `Updated` of the old one, and the invariant is kept |
| DataStore.DataManager.Delete | data_manager.py:23-27 | the new storage is `Deleted` of the old one, and the invariant is kept |
| AppSpec.MatchesEmailPattern | app.py:15-16 | the reading of `re.match` with `[^@]+@[^@]+\.[^@]+`: some `@` and a later `.` split a prefix into three non-empty `@`-free parts; a match needs at least five characters, a first character other than `@`, an `@` and a `.` |
| AppSpec.IsEmailValid | app.py:13-16 | `is_email_valid` as a scan for the first `@` and a `.` before the next `@`; an accepted address has at least five characters, does not start with `@`, and holds an `@` and a `.` |
| AppSpec.EmailValidIffPatternMatches | app.py:13-16 | the scan accepts a string if and only if `[^@]+@[^@]+\.[^@]+` matches at its start |
| AppSpec.EmailWithTrailingTextAccepted | app.py:16 | for every accepted address and every text `t`, the address followed by `t` is accepted |
| AppSpec.EmailWithoutDotRejected | app.py:15-16 | `test@example` is refused |
| AppSpec.IsValidCountryCode | app.py:19-20 | when every country is filed under its code, a code is valid if and only if a stored country has it |
| AppSpec.CreateCountry | app.py:72-79 | 201 if and only if `name` and `code` are present and the code is new; the body itself is stored under its code; 400 or 409 otherwise, with the countries unchanged; keying by code is kept |
| AppSpec.CreateCity | app.py:95-105 | 201 if and only if `name` and `country_code` are present and the code is a stored country; the stamped body is stored under the new id; 400 otherwise, with the cities unchanged |
| AppSpec.CreatedCountryValidatesCities | app.py:72-105 | after a country is created, a city body with its code is accepted |
| App.Store.constructor | app.py:8-10 | the three dicts start empty |
| App.Store.CreateUser | app.py:24-36 | the response and the new `users_db` are `Crud.CreateUser` with this file's pattern |
| App.Store.GetUser | app.py:44-48 | the response is `Crud.Get` on `users_db` |
| App.Store.UpdateUser | app.py:51-60 | the response and the new `users_db` are `Crud.Update` |
| App.Store.DeleteUser | app.py:63-68 | the response and the new `users_db` are `Crud.Delete` |
| App.Store.CreateCountry | app.py:72-79 | the response and the new `countries_db` are `AppSpec.CreateCountry`, and keying by code is kept |
| App.Store.GetCountry | app.py:88-91 | the response is `Crud.Get` on `countries_db` |
| App.Store.CreateCity | app.py:95-105 | the response and the new `cities_db` are `AppSpec.CreateCity` |
| App.Store.GetCity | app.py:114-117 | the response is `Crud.Get` on `cities_db` |
| App.Store.UpdateCity | app.py:121-129 | the response and the new `cities_db` are `Crud.Update`, with no check of a new country code |
| App.Store.DeleteCity | app.py:133-137 | the response and the new `cities_db` are `Crud.Delete` |
| ApiSpec.MatchesEmailPattern | api/app.py:17-18 | the reading of `re.match` with `[^@]+@[^@]+\\.[^@]+`: a non-empty `@`-free part, an `@`, a non-empty `@`-free part, a backslash, any character but a newline, and a character other than `@`; a match needs at least six characters, a first character other than `@`, an `@` and a backslash |
| ApiSpec.IsEmailValid | api/app.py:15-18 | `is_email_valid` as a scan for the first `@` and a later backslash before the next `@`; every accepted address has at least six characters, does not start with `@`, and contains an `@` and a backslash |
| ApiSpec.EmailValidIffPatternMatches | api/app.py:15-18 | the scan accepts a string if and only if `[^@]+@[^@]+\\.[^@]+` matches at its start |
| ApiSpec.ValidEmailMatchesPattern | api/app.py:15-18 | every string the scan accepts is matched by the pattern |
| ApiSpec.PatternMatchIsValidEmail | api/app.py:15-18 | every string the pattern matches is accepted by the scan |
| ApiSpec.PlainAddressRejected | api/app.py:17-18 | `test@example.com` is refused |
| ApiSpec.EmailWithTrailingTextAccepted | api/app.py:18 | for every accepted address and every text `t`, the address followed by `t` is accepted |
| ApiSpec.ValidateCountryCode | api/app.py:70-79 | valid if and only if the code is US, CA or MX, and the preset record carries that code |
| ApiSpec.NameTaken | api/app.py:107-109 | the condition the loop of `create_city` looks for: some stored city has the body's `name` and `country_code`; it can only hold for a body with both fields and a non-empty `cities_db` |
| ApiSpec.CreateCity | api/app.py:101-113 | 201 if and only if the fields are present, the code is a preset one and no stored city has the same name in that country; otherwise the source's 400, 400 or 409 with the cities unchanged; on 201 the body is stored with both timestamps; well-formedness and name uniqueness are kept |
| ApiSpec.SameNameOtherCountryAccepted | api/app.py:107-109 | a name already used in one country is accepted in another |
| ApiSpec.UpdateCity | api/app.py:126-136 | 404, then 400 "No data provided", then 400 "Invalid country code" for a body carrying a code that is not a preset one; otherwise the same as `Crud.Update`; well-formedness is kept |
| ApiSpec.UpdateCanBreakUniqueness | api/app.py:126-136 | a rename can give two cities of one country the same name |
| ApiSpec.DeleteKeepsCityInvariants | api/app.py:139-143 | a delete keeps well-formedness and name uniqueness |
| ApiSpec.Without | api/app.py:142 | removing a key from the insertion order keeps every other key, keeps the keys distinct, and changes nothing if the key is absent |
| ApiSpec.WithoutCutsOnePosition | api/app.py:142 | in a duplicate-free order, removing a present key cuts out exactly its one position and keeps the other keys in their relative order |
| ApiSpec.MatchingKeys | api/app.py:96 | the keys the comprehension keeps are exactly the keys of the order whose city has that code, and they stay distinct |
| ApiSpec.CitiesIn | api/app.py:96 | the filtered list holds only cities with that code, each a stored city, and every stored city with that code is in it; it has one entry per matching key, the `i`-th being the city of the `i`-th matching key in iteration order |
| ApiSpec.CitiesInCount | api/app.py:96 | over a duplicate-free order, the list is exactly as long as the number of stored cities with that code, so no city is listed twice |
| Api.Store.constructor | api/app.py:69-75 | `users_db` and `cities_db` start empty |
| Api.Store.CreateUser | api/app.py:22-34 | the response and the new `users_db` are `Crud.CreateUser` with this file's pattern |
| Api.Store.GetUser | api/app.py:43-46 | the response is `Crud.Get` on `users_db` |
| Api.Store.UpdateUser | api/app.py:50-58 | the response and the new `users_db` are `Crud.Update` |
| Api.Store.DeleteUser | api/app.py:62-66 | the response and the new `users_db` are `Crud.Delete` |
| Api.Store.GetCountry | api/app.py:87-90 | the response is `Crud.Get` on the preset countries |
| Api.Store.GetCitiesByCountry | api/app.py:93-97 | 400 for a code that is not a preset one; otherwise the list `CitiesIn` of the cities in insertion order |
| Api.Store.NameTakenInCountry | api/app.py:107-109 | the loop over the stored cities finds a match if and only if a stored city has the body's name and country code |
| Api.Store.CreateCity | api/app.py:101-113 | the response and the new `cities_db` are `ApiSpec.CreateCity`; a new id goes at the end of the insertion order; name uniqueness is kept |
| Api.Store.GetCity | api/app.py:120-123 | the response is `Crud.Get` on `cities_db` |
| Api.Store.UpdateCity | api/app.py:126-136 | the response and the new `cities_db` are `ApiSpec.UpdateCity` |
| Api.Store.DeleteCity | api/app.py:139-143 | the response and the new `cities_db` are `Crud.Delete`; the id leaves the insertion order; name uniqueness is kept |
| UserModel.User.constructor | models/user.py:8-9 | the user's email and password are the arguments |
| UserModel.EmailRegistry.constructor | models/user.py:2 | the set of taken emails starts empty |
| UserModel.EmailRegistry.NewUser | models/user.py:4-10 | fails with "Email already exists" if and only if the email is taken, changing nothing; otherwise adds exactly that email and returns a new user with the arguments; the set stays the emails of the users built since the last clear, with no two sharing one |
| UserModel.EmailRegistry.ClearExistingEmails | models/user.py:12-14 | the set is empty afterwards, so every email is accepted again |
| PlaceModel.Place.constructor | models/place.py:5-21 | every attribute is the argument of the same name (`description` from `descrition`), and `reviews` is empty |
| PlaceModel.Place.AddReview | models/place.py:23-24 | the review is appended at the end, earlier reviews keep their order, and no other attribute changes |

## Left out

- Flask itself is left out: routing, `request.get_json`, `jsonify`/`make_response` and `app.run`. A handler's outcome is a `Response` value. A body that is not a JSON object is not modelled; a `null` body would behave like an empty one.
- JSON values are limited to strings, integers and null. Booleans, floats, lists and nested objects are left out. This matters because Python's `True == 1` would make value equality differ from structural equality.
- `uuid.uuid4()` and `datetime.now().isoformat()` become parameters. No freshness of the id is required: a colliding id overwrites, as the dict assignment does. The two `now()` calls of `api/app.py:111` are two parameters.
- `get_users`, `get_countries` and `get_cities` (app.py:40-41, 83-84, 109-110; api/app.py:38-39, 83-84, 116-117) are left out. They only list the values of a dict.
- Parts of `api/app.py` outside lines 12-143 are left out:
  - lines 1-2 and 149-153 refer to names that are never defined, so the module cannot be imported;
  - the rebinding of `users_db` at line 69 happens before any request, so `Api.Store` has a single `users_db`.
- persistence/main.py is not part of this model. It is a printing demo that calls a method `DataManager` does not have.
- `models/review.py` and `models/city.py` are not part of this model; their constructors call `super().__init__()` of the unavailable `BaseModel` and then store their arguments.
- PlaceModel.Place.constructor: the source of the base class `BaseModel` is not available, so whatever `super().__init__()` (models/place.py:8) sets is left out.
- In `DataManager`, an entity is an id, a class name and attributes. `type(entity).__name__` becomes the stored class name.
- Entities and records are values, so aliasing between a stored object and its caller is not modelled. This covers the handlers storing the request body itself, and the shared default `amenities=[]` of models/place.py:7.
- UserModel.EmailRegistry.NewUser: `User.email` is a `const`, while in models/user.py:8 it is an ordinary attribute a caller could reassign; no modelled code reassigns it, so the registry's distinctness is about the emails given at construction.
- UserModel.EmailRegistry.NewUser: `self.id = id(self)` (models/user.py:10) is CPython object identity. It is left out; the new `User` object stands for it.
- JSON-file persistence is not done by any modelled code, and the tests use a different `DataManager` interface, so both are left out.
- PlaceModel.Place.constructor: latitude, longitude and the price are Dafny `real`, which is exact, not a binary float; no arithmetic is done on them.
