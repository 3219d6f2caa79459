/**
 * The handlers of app.py, stripped of Flask: each is a method on the store that
 * owns the module-level dicts `users_db`, `countries_db` and `cities_db`, changes
 * them in place and returns the response. The uuid and the current time are
 * parameters.
 */
module App {
  import opened Json
  import Crud
  import AppSpec

  class Store {
    var users: Crud.Table
    var countries: map<Value, Record>
    var cities: Crud.Table

    ghost predicate Valid()
      reads this
    {
      AppSpec.CountriesKeyed(countries)
    }

    /** The three dicts start empty. */
    constructor ()
      ensures Valid()
      ensures users == map[] && countries == map[] && cities == map[]
    {
      users, countries, cities := map[], map[], map[];
    }

    /** POST /users */
    method CreateUser(data: Record, userId: string, now: string) returns (r: Response)
      requires Valid()
      modifies this`users
      ensures Valid()
      ensures (r, users) == Crud.CreateUser(AppSpec.IsEmailValid, old(users), data, userId, now)
    {
      if !HasFields(data, Crud.UserFields) {
        return BadRequest("Missing required fields");
      }
      var email := data["email"];
      if !email.Str? {
        // re.match raises TypeError on a value that is not a string
        return ServerError;
      }
      if !AppSpec.IsEmailValid(email.s) {
        return BadRequest("Invalid email format");
      }
      if email.s in users {
        return Conflict("Email already exists");
      }
      var record := Stamped(data, userId, now, now);
      users := users[userId := record];
      r := Created(record);
    }

    /** GET /users/<user_id> */
    method GetUser(userId: string) returns (r: Response)
      ensures r == Crud.Get(users, userId, "User not found")
    {
      if userId !in users {
        return NotFound("User not found");
      }
      r := Ok(users[userId]);
    }

    /** PUT /users/<user_id> */
    method UpdateUser(userId: string, data: Record, now: string) returns (r: Response)
      requires Valid()
      modifies this`users
      ensures Valid()
      ensures (r, users) == Crud.Update(old(users), userId, data, now, "User not found")
    {
      if userId !in users {
        return NotFound("User not found");
      }
      if data == map[] {
        return BadRequest("No data provided");
      }
      users := users[userId := Merge(users[userId], data)];
      users := users[userId := users[userId]["updated_at" := Str(now)]];
      assert users == old(users)[userId := Patched(old(users)[userId], data, now)];
      r := Ok(users[userId]);
    }

    /** DELETE /users/<user_id> */
    method DeleteUser(userId: string) returns (r: Response)
      requires Valid()
      modifies this`users
      ensures Valid()
      ensures (r, users) == Crud.Delete(old(users), userId, "User not found")
    {
      if userId !in users {
        return NotFound("User not found");
      }
      users := users - {userId};
      r := NoContent;
    }

    /** POST /countries */
    method CreateCountry(data: Record) returns (r: Response)
      requires Valid()
      modifies this`countries
      ensures Valid()
      ensures (r, countries) == AppSpec.CreateCountry(old(countries), data)
    {
      if !HasFields(data, AppSpec.CountryFields) {
        return BadRequest("Missing required fields");
      }
      if data["code"] in countries {
        return Conflict("Country code already exists");
      }
      countries := countries[data["code"] := data];
      r := Created(data);
    }

    /** GET /countries/<country_code> */
    method GetCountry(countryCode: string) returns (r: Response)
      ensures r == Crud.Get(countries, Str(countryCode), "Country not found")
    {
      if Str(countryCode) !in countries {
        return NotFound("Country not found");
      }
      r := Ok(countries[Str(countryCode)]);
    }

    /** POST /cities */
    method CreateCity(data: Record, cityId: string, now: string) returns (r: Response)
      requires Valid()
      modifies this`cities
      ensures Valid()
      ensures (r, cities) == AppSpec.CreateCity(countries, old(cities), data, cityId, now)
    {
      if !HasFields(data, Crud.CityFields) {
        return BadRequest("Missing required fields");
      }
      if !AppSpec.IsValidCountryCode(countries, data["country_code"]) {
        return BadRequest("Invalid country code");
      }
      var record := Stamped(data, cityId, now, now);
      cities := cities[cityId := record];
      r := Created(record);
    }

    /** GET /cities/<city_id> */
    method GetCity(cityId: string) returns (r: Response)
      ensures r == Crud.Get(cities, cityId, "City not found")
    {
      if cityId !in cities {
        return NotFound("City not found");
      }
      r := Ok(cities[cityId]);
    }

    /** PUT /cities/<city_id>: no check of a new `country_code` in this file. */
    method UpdateCity(cityId: string, data: Record, now: string) returns (r: Response)
      requires Valid()
      modifies this`cities
      ensures Valid()
      ensures (r, cities) == Crud.Update(old(cities), cityId, data, now, "City not found")
    {
      if cityId !in cities {
        return NotFound("City not found");
      }
      if data == map[] {
        return BadRequest("No data provided");
      }
      cities := cities[cityId := Merge(cities[cityId], data)];
      cities := cities[cityId := cities[cityId]["updated_at" := Str(now)]];
      assert cities == old(cities)[cityId := Patched(old(cities)[cityId], data, now)];
      r := Ok(cities[cityId]);
    }

    /** DELETE /cities/<city_id> */
    method DeleteCity(cityId: string) returns (r: Response)
      requires Valid()
      modifies this`cities
      ensures Valid()
      ensures (r, cities) == Crud.Delete(old(cities), cityId, "City not found")
    {
      if cityId !in cities {
        return NotFound("City not found");
      }
      cities := cities - {cityId};
      r := NoContent;
    }
  }
}
