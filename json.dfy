/**
 * JSON request bodies and stored records as the Flask handlers see them,
 * and the handlers' outcomes with their HTTP status codes.
 */
module Json {

  /** A scalar JSON value: string, integer number or null. */
  datatype Value = Str(s: string) | Num(n: int) | Null

  /** A JSON object: one request body or one stored record (a Python dict). */
  type Record = map<string, Value>

  datatype Option<T> = None | Some(value: T)

  /** What a handler returns, stripped of Flask; the comments give each outcome's HTTP status code. */
  datatype Response =
    | Created(body: Record)        // 201
    | Ok(body: Record)             // 200, one record
    | OkList(items: seq<Record>)   // 200, a list of records
    | NoContent                    // 204
    | BadRequest(error: string)    // 400
    | NotFound(error: string)      // 404
    | Conflict(error: string)      // 409
    | ServerError                  // 500, an exception the handler does not catch

  /** Every field name in `fields` is a key of `data`. */
  predicate HasFields(data: Record, fields: set<string>) {
    fields <= data.Keys
  }

  /** `target.update(patch)`: a shallow merge in which the patch's keys win. */
  function Merge(target: Record, patch: Record): (r: Record)
    ensures r.Keys == target.Keys + patch.Keys
    ensures forall k :: k in patch ==> r[k] == patch[k]
    ensures forall k :: k in target && k !in patch ==> r[k] == target[k]
  {
    target + patch
  }

  /**
   * A request body as stored by a successful create: `id`, `created_at` and
   * `updated_at` are written over whatever the body held, every other field is kept.
   */
  function Stamped(data: Record, id: string, createdAt: string, updatedAt: string): (r: Record)
    ensures r.Keys == data.Keys + {"id", "created_at", "updated_at"}
    ensures r["id"] == Str(id) && r["created_at"] == Str(createdAt) && r["updated_at"] == Str(updatedAt)
    ensures forall k :: k in data && k !in {"id", "created_at", "updated_at"} ==> r[k] == data[k]
  {
    Merge(data, map["id" := Str(id), "created_at" := Str(createdAt), "updated_at" := Str(updatedAt)])
  }

  /**
   * A stored record after a successful update: merged with the body, then
   * `updated_at` set to `now` (even when the body supplied its own).
   */
  function Patched(current: Record, data: Record, now: string): (r: Record)
    ensures r.Keys == current.Keys + data.Keys + {"updated_at"}
    ensures r["updated_at"] == Str(now)
    ensures forall k :: k in data && k != "updated_at" ==> r[k] == data[k]
    ensures forall k :: k in current && k !in data && k != "updated_at" ==> r[k] == current[k]
  {
    Merge(current, data)["updated_at" := Str(now)]
  }
}
