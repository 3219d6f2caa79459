/**
 * The handlers of api/app.py (lines 12-143), stripped of Flask: methods on the
 * store that owns `users_db` and `cities_db`. `countries_db` is the constant
 * `ApiSpec.CountriesDb`, since no handler here changes it. `cities_db` keeps its
 * insertion order in `cityOrder`, because `create_city` and
 * `get_cities_by_country` walk `cities_db.values()`.
 */
module Api {
  import opened Json
  import Crud
  import ApiSpec

  class Store {
    var users: Crud.Table
    var cities: Crud.Table
    var cityOrder: seq<string>

    ghost predicate Valid()
      reads this
    {
      && ApiSpec.CitiesWellFormed(cities)
      && ApiSpec.IsOrderOf(cityOrder, cities)
    }

    /** `users_db` and `cities_db` start empty. */
    constructor ()
      ensures Valid()
      ensures users == map[] && cities == map[] && cityOrder == []
    {
      users, cities, cityOrder := map[], map[], [];
    }

    /** POST /users, with this file's email pattern. */
    method CreateUser(data: Record, userId: string, now: string) returns (r: Response)
      requires Valid()
      modifies this`users
      ensures Valid()
      ensures (r, users) == Crud.CreateUser(ApiSpec.IsEmailValid, old(users), data, userId, now)
    {
      if !HasFields(data, Crud.UserFields) {
        return BadRequest("Missing required fields");
      }
      var email := data["email"];
      if !email.Str? {
        // re.match raises TypeError on a value that is not a string
        return ServerError;
      }
      if !ApiSpec.IsEmailValid(email.s) {
        return BadRequest("Invalid email format");
      }
      if email.s in users {
        return Conflict("Email already exists");
      }
      var record := Stamped(data, userId, now, now);
      users := users[userId := record];
      r := Created(record);
    }

    /** GET /users/<user_id> */
    method GetUser(userId: string) returns (r: Response)
      ensures r == Crud.Get(users, userId, "User not found")
    {
      if userId !in users {
        return NotFound("User not found");
      }
      r := Ok(users[userId]);
    }

    /** PUT /users/<user_id> */
    method UpdateUser(userId: string, data: Record, now: string) returns (r: Response)
      requires Valid()
      modifies this`users
      ensures Valid()
      ensures (r, users) == Crud.Update(old(users), userId, data, now, "User not found")
    {
      if userId !in users {
        return NotFound("User not found");
      }
      if data == map[] {
        return BadRequest("No data provided");
      }
      users := users[userId := Merge(users[userId], data)];
      users := users[userId := users[userId]["updated_at" := Str(now)]];
      assert users == old(users)[userId := Patched(old(users)[userId], data, now)];
      r := Ok(users[userId]);
    }

    /** DELETE /users/<user_id> */
    method DeleteUser(userId: string) returns (r: Response)
      requires Valid()
      modifies this`users
      ensures Valid()
      ensures (r, users) == Crud.Delete(old(users), userId, "User not found")
    {
      if userId !in users {
        return NotFound("User not found");
      }
      users := users - {userId};
      r := NoContent;
    }

    /** GET /countries/<country_code> */
    method GetCountry(countryCode: string) returns (r: Response)
      ensures r == Crud.Get(ApiSpec.CountriesDb, Str(countryCode), "Country not found")
    {
      if Str(countryCode) !in ApiSpec.CountriesDb {
        return NotFound("Country not found");
      }
      r := Ok(ApiSpec.CountriesDb[Str(countryCode)]);
    }

    /** GET /countries/<country_code>/cities */
    method GetCitiesByCountry(countryCode: string) returns (r: Response)
      requires Valid()
      ensures !ApiSpec.ValidateCountryCode(Str(countryCode)) ==> r == BadRequest("Invalid country code")
      ensures ApiSpec.ValidateCountryCode(Str(countryCode)) ==>
        r == OkList(ApiSpec.CitiesIn(cityOrder, cities, Str(countryCode)))
    {
      if !ApiSpec.ValidateCountryCode(Str(countryCode)) {
        return BadRequest("Invalid country code");
      }
      r := OkList(ApiSpec.CitiesIn(cityOrder, cities, Str(countryCode)));
    }

    /** The loop of `create_city` over `cities_db.values()`: is the body's name taken in its country? */
    method NameTakenInCountry(data: Record) returns (taken: bool)
      requires Valid() && HasFields(data, Crud.CityFields)
      ensures taken == ApiSpec.NameTaken(cities, data)
    {
      var i := 0;
      while i < |cityOrder|
        invariant 0 <= i <= |cityOrder|
        invariant forall j :: 0 <= j < i ==> !ApiSpec.SameNameAndCountry(cities[cityOrder[j]], data)
      {
        var city := cities[cityOrder[i]];
        if city["name"] == data["name"] && city["country_code"] == data["country_code"] {
          return true;
        }
        i := i + 1;
      }
      forall k | k in cities ensures !ApiSpec.SameNameAndCountry(cities[k], data) {
        var j :| 0 <= j < |cityOrder| && cityOrder[j] == k;
      }
      return false;
    }

    /** POST /cities; the two calls of `now()` give `createdAt` and `updatedAt`. */
    method CreateCity(data: Record, cityId: string, createdAt: string, updatedAt: string) returns (r: Response)
      requires Valid()
      modifies this`cities, this`cityOrder
      ensures Valid()
      ensures (r, cities) == ApiSpec.CreateCity(old(cities), data, cityId, createdAt, updatedAt)
      ensures cityOrder == if r.Created? && cityId !in old(cities) then old(cityOrder) + [cityId] else old(cityOrder)
      ensures ApiSpec.UniqueCityNames(old(cities)) ==> ApiSpec.UniqueCityNames(cities)
    {
      if !HasFields(data, Crud.CityFields) {
        return BadRequest("Missing required fields");
      }
      if !ApiSpec.ValidateCountryCode(data["country_code"]) {
        return BadRequest("Invalid country code");
      }
      var taken := NameTakenInCountry(data);
      if taken {
        return Conflict("City name must be unique within the same country");
      }
      var record := Stamped(data, cityId, createdAt, updatedAt);
      if cityId !in cities {
        cityOrder := cityOrder + [cityId];
      }
      cities := cities[cityId := record];
      r := Created(record);
    }

    /** GET /cities/<city_id> */
    method GetCity(cityId: string) returns (r: Response)
      ensures r == Crud.Get(cities, cityId, "City not found")
    {
      if cityId !in cities {
        return NotFound("City not found");
      }
      r := Ok(cities[cityId]);
    }

    /** PUT /cities/<city_id>, which checks a supplied `country_code`. */
    method UpdateCity(cityId: string, data: Record, now: string) returns (r: Response)
      requires Valid()
      modifies this`cities
      ensures Valid()
      ensures (r, cities) == ApiSpec.UpdateCity(old(cities), cityId, data, now)
    {
      if cityId !in cities {
        return NotFound("City not found");
      }
      if data == map[] {
        return BadRequest("No data provided");
      }
      if "country_code" in data && !ApiSpec.ValidateCountryCode(data["country_code"]) {
        return BadRequest("Invalid country code");
      }
      cities := cities[cityId := Merge(cities[cityId], data)];
      cities := cities[cityId := cities[cityId]["updated_at" := Str(now)]];
      assert cities == old(cities)[cityId := Patched(old(cities)[cityId], data, now)];
      r := Ok(cities[cityId]);
    }

    /** DELETE /cities/<city_id> */
    method DeleteCity(cityId: string) returns (r: Response)
      requires Valid()
      modifies this`cities, this`cityOrder
      ensures Valid()
      ensures (r, cities) == Crud.Delete(old(cities), cityId, "City not found")
      ensures cityOrder == ApiSpec.Without(old(cityOrder), cityId)
      ensures ApiSpec.UniqueCityNames(old(cities)) ==> ApiSpec.UniqueCityNames(cities)
    {
      if cityId !in cities {
        assert cityId !in cityOrder;
        return NotFound("City not found");
      }
      cities := cities - {cityId};
      cityOrder := ApiSpec.Without(cityOrder, cityId);
      r := NoContent;
      ApiSpec.DeleteKeepsCityInvariants(old(cities), cityId);
    }
  }
}
