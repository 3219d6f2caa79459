/**
 * The pure part of app.py: the email and country-code validators, and what the
 * country and city creation handlers do to their dicts.
 */
module AppSpec {
  import opened Json
  import opened Strings
  import Crud

  /**
   * The regular expression `[^@]+@[^@]+\.[^@]+` matches at the START of `s`:
   * `re.match` anchors only there, so any text may follow the match.
   */
  ghost function MatchesEmailPattern(s: string): (m: bool)
    ensures m ==> 5 <= |s| && s[0] != '@' && '@' in s && '.' in s
  {
    exists at, dot :: MatchesAt(s, at, dot)
  }

  /** The pattern matches a prefix of `s` with its `@` at `at` and its `.` at `dot`. */
  ghost predicate MatchesAt(s: string, at: int, dot: int) {
    && 0 < at && at + 1 < dot && dot + 1 < |s|
    && s[at] == '@'
    && s[dot] == '.'
    && s[dot + 1] != '@'
    && NoneIn(s, 0, at, '@')
    && NoneIn(s, at + 1, dot, '@')
  }

  /**
   * `is_email_valid`: the first `@` is not at the start, and between it and the
   * next `@` (or the end) there is a `.` with at least one character on each side.
   */
  function IsEmailValid(email: string): (valid: bool)
    ensures valid ==> 5 <= |email| && email[0] != '@' && '@' in email && '.' in email
  {
    var at := IndexOf(email, '@', 0);
    && 0 < at < |email|
    && var end := IndexOf(email, '@', at + 1);
       exists dot | at + 1 < dot && dot + 1 < end :: email[dot] == '.'
  }

  /** The scan accepts exactly the strings the regular expression matches at their start. */
  lemma EmailValidIffPatternMatches(email: string)
    ensures IsEmailValid(email) <==> MatchesEmailPattern(email)
  {
    var at := IndexOf(email, '@', 0);
    if IsEmailValid(email) {
      var end := IndexOf(email, '@', at + 1);
      var dot :| at + 1 < dot && dot + 1 < end && email[dot] == '.';
      assert MatchesAt(email, at, dot);
    }
    if MatchesEmailPattern(email) {
      var at', dot :| MatchesAt(email, at', dot);
      IndexOfIsFirst(email, '@', 0, at');
      IndexOfBeyondRun(email, '@', at + 1, dot + 2);
    }
  }

  /** Text after an accepted address does not matter, whatever it holds: `re.match` anchors only at the start. */
  lemma EmailWithTrailingTextAccepted(s: string, t: string)
    requires IsEmailValid(s)
    ensures IsEmailValid(s + t)
  {
    EmailValidIffPatternMatches(s);
    var at, dot :| MatchesAt(s, at, dot);
    assert MatchesAt(s + t, at, dot);
    EmailValidIffPatternMatches(s + t);
  }

  /** An address without a dot after the `@` is refused. */
  lemma EmailWithoutDotRejected()
    ensures !IsEmailValid("test@example")
  {
    var s := "test@example";
    IndexOfIsFirst(s, '@', 0, 4);
    assert IndexOf(s, '@', 5) == |s| by { IndexOfBeyondRun(s, '@', 5, |s|); }
  }

  /** Every stored country is filed under its own `code` (create_country stores `data` under `data['code']`). */
  ghost predicate CountriesKeyed(countries: map<Value, Record>) {
    forall c :: c in countries ==> "code" in countries[c] && countries[c]["code"] == c
  }

  /** `is_valid_country_code`: the code is a key of `countries_db`, that is, a stored country has that code. */
  function IsValidCountryCode(countries: map<Value, Record>, code: Value): (valid: bool)
    ensures CountriesKeyed(countries) ==>
      (valid <==> exists c :: c in countries && countries[c]["code"] == code)
  {
    code in countries
  }

  const CountryFields: set<string> := {"name", "code"}

  /**
   * `create_country`: 400 if `name` or `code` is missing, 409 if the code is
   * already a key, else 201 and the body itself (no id, no timestamps) is stored
   * under its code.
   */
  function CreateCountry(countries: map<Value, Record>, data: Record): (out: (Response, map<Value, Record>))
    ensures out.0.Created? <==> HasFields(data, CountryFields) && data["code"] !in countries
    ensures out.0.Created? ==> out.0.body == data && out.1 == countries[data["code"] := data]
    ensures !out.0.Created? ==> out.1 == countries
    ensures !HasFields(data, CountryFields) ==> out.0 == BadRequest("Missing required fields")
    ensures HasFields(data, CountryFields) && data["code"] in countries ==> out.0 == Conflict("Country code already exists")
    ensures CountriesKeyed(countries) ==> CountriesKeyed(out.1)
  {
    if !HasFields(data, CountryFields) then (BadRequest("Missing required fields"), countries)
    else if data["code"] in countries then (Conflict("Country code already exists"), countries)
    else (Created(data), countries[data["code"] := data])
  }

  /**
   * `create_city`: 400 if `name` or `country_code` is missing, 400 if the
   * country code is unknown, else 201 and the body is stored under `cityId` with
   * both timestamps `now`.
   */
  function CreateCity(countries: map<Value, Record>, cities: Crud.Table, data: Record, cityId: string, now: string)
    : (out: (Response, Crud.Table))
    ensures out.0.Created? <==> HasFields(data, Crud.CityFields) && data["country_code"] in countries
    ensures out.0.Created? ==> out.0.body == Stamped(data, cityId, now, now) && out.1 == cities[cityId := out.0.body]
    ensures !out.0.Created? ==> out.1 == cities
    ensures !HasFields(data, Crud.CityFields) ==> out.0 == BadRequest("Missing required fields")
    ensures HasFields(data, Crud.CityFields) && data["country_code"] !in countries ==> out.0 == BadRequest("Invalid country code")
  {
    if !HasFields(data, Crud.CityFields) then (BadRequest("Missing required fields"), cities)
    else if !IsValidCountryCode(countries, data["country_code"]) then (BadRequest("Invalid country code"), cities)
    else
      var record := Stamped(data, cityId, now, now);
      (Created(record), cities[cityId := record])
  }

  /** A country created with code `k` makes a city with `country_code` `k` acceptable. */
  lemma CreatedCountryValidatesCities(countries: map<Value, Record>, data: Record, city: Record, cities: Crud.Table, cityId: string, now: string)
    requires CreateCountry(countries, data).0.Created?
    requires HasFields(city, Crud.CityFields) && city["country_code"] == data["code"]
    ensures CreateCity(CreateCountry(countries, data).1, cities, city, cityId, now).0.Created?
  {
  }
}
