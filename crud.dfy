/**
 * The request-handler logic that app.py and api/app.py repeat for every
 * table: read, shallow-merge update and delete by key, and user creation.
 * Each function gives the response and the table afterwards.
 */
module Crud {
  import opened Json

  /** A module-level dict such as `users_db` or `cities_db`: generated id -> record. */
  type Table = map<string, Record>

  /** The fields `create_user` insists on. */
  const UserFields: set<string> := {"email", "first_name", "last_name"}

  /** The fields `create_city` insists on, in both app.py and api/app.py. */
  const CityFields: set<string> := {"name", "country_code"}

  /** `get_user`, `get_city`, `get_country`: 200 with the record, or 404. */
  function Get<K>(table: map<K, Record>, key: K, missing: string): (r: Response)
    ensures r.Ok? <==> key in table
    ensures r.Ok? ==> r.body == table[key]
    ensures !r.Ok? ==> r == NotFound(missing)
  {
    if key !in table then NotFound(missing) else Ok(table[key])
  }

  /**
   * `update_user`, and `update_city` of app.py: 404 for an unknown id, 400 for
   * an empty body, otherwise merge the body into the record and stamp `updated_at`.
   */
  function Update(table: Table, id: string, data: Record, now: string, missing: string): (out: (Response, Table))
    ensures id !in table ==> out == (NotFound(missing), table)
    ensures id in table && data == map[] ==> out == (BadRequest("No data provided"), table)
    ensures id in table && data != map[] ==>
      && out.1.Keys == table.Keys
      && out.1[id] == Patched(table[id], data, now)
      && out.0 == Ok(out.1[id])
      && forall other :: other in table && other != id ==> out.1[other] == table[other]
  {
    if id !in table then (NotFound(missing), table)
    else if data == map[] then (BadRequest("No data provided"), table)
    else
      var record := Patched(table[id], data, now);
      (Ok(record), table[id := record])
  }

  /** `delete_user`, `delete_city`: 204 and the key is gone, or 404 and nothing changes. */
  function Delete(table: Table, id: string, missing: string): (out: (Response, Table))
    ensures out.1.Keys == table.Keys - {id}
    ensures forall other :: other in out.1 ==> out.1[other] == table[other]
    ensures out.0 == NoContent <==> id in table
    ensures out.0 != NoContent ==> out.0 == NotFound(missing)
  {
    if id !in table then (NotFound(missing), table)
    else (NoContent, table - {id})
  }

  /**
   * `create_user`: 400 if a required field is missing, then 500 if the email is
   * not a string (`re.match` raises), then 400 if the email pattern fails, then
   * 409 if the email is a KEY of `users` (the keys are user ids, not emails),
   * else 201 and the body is stored under `userId` with both timestamps `now`.
   */
  function CreateUser(isEmailValid: string -> bool, users: Table, data: Record, userId: string, now: string)
    : (out: (Response, Table))
    ensures out.0.Created? <==>
      && HasFields(data, UserFields)
      && data["email"].Str?
      && isEmailValid(data["email"].s)
      && data["email"].s !in users
    ensures out.0.Created? ==> out.0.body == Stamped(data, userId, now, now) && out.1 == users[userId := out.0.body]
    ensures !out.0.Created? ==> out.1 == users
    ensures !HasFields(data, UserFields) ==> out.0 == BadRequest("Missing required fields")
    ensures HasFields(data, UserFields) && !data["email"].Str? ==> out.0 == ServerError
    ensures HasFields(data, UserFields) && data["email"].Str? && !isEmailValid(data["email"].s) ==>
      out.0 == BadRequest("Invalid email format")
    ensures HasFields(data, UserFields) && data["email"].Str? && isEmailValid(data["email"].s) && data["email"].s in users ==>
      out.0 == Conflict("Email already exists")
  {
    if !HasFields(data, UserFields) then (BadRequest("Missing required fields"), users)
    else if !data["email"].Str? then (ServerError, users)
    else if !isEmailValid(data["email"].s) then (BadRequest("Invalid email format"), users)
    else if data["email"].s in users then (Conflict("Email already exists"), users)
    else
      var record := Stamped(data, userId, now, now);
      (Created(record), users[userId := record])
  }

  /** A created user can be read back under its id, and carries that id and equal timestamps. */
  lemma CreatedUserCanBeRead(isEmailValid: string -> bool, users: Table, data: Record, userId: string, now: string)
    requires CreateUser(isEmailValid, users, data, userId, now).0.Created?
    ensures var (r, after) := CreateUser(isEmailValid, users, data, userId, now);
      && Get(after, userId, "User not found") == Ok(r.body)
      && r.body["id"] == Str(userId)
      && r.body["created_at"] == r.body["updated_at"]
      && forall other :: other in users && other != userId ==> other in after && after[other] == users[other]
  {
  }

  /**
   * The duplicate check compares the email with user ids, so the same body can be
   * created twice under two ids: two stored users then share one email.
   */
  lemma DuplicateEmailAccepted(isEmailValid: string -> bool, users: Table, data: Record, id1: string, id2: string, now: string)
    requires CreateUser(isEmailValid, users, data, id1, now).0.Created?
    requires id1 != id2 && "email" in data && data["email"] != Str(id1)
    ensures var after := CreateUser(isEmailValid, users, data, id1, now).1;
      var (r2, after2) := CreateUser(isEmailValid, after, data, id2, now);
      && r2.Created?
      && id1 in after2 && id2 in after2
      && after2[id1]["email"] == after2[id2]["email"] == data["email"]
  {
  }

  /** After a successful delete a read is a 404, and a second delete is a 404 that changes nothing. */
  lemma DeleteThenGetIsNotFound(table: Table, id: string, missing: string)
    requires id in table
    ensures var after := Delete(table, id, missing).1;
      && Get(after, id, missing) == NotFound(missing)
      && Delete(after, id, missing) == (NotFound(missing), after)
  {
  }

  /** After a successful update a read returns what the update returned. */
  lemma UpdateThenGet(table: Table, id: string, data: Record, now: string, missing: string)
    requires id in table && data != map[]
    ensures var (r, after) := Update(table, id, data, now, missing);
      Get(after, id, missing) == r
  {
  }
}
