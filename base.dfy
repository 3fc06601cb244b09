/** Values shared by every resource handler: optional values, the fields of a
    JSON request body as the handlers see them after destructuring, and the
    HTTP outcome of a handler. */
module Base {

  datatype Option<+T> = None | Some(value: T)

  /** One field of a request body: missing (`undefined` in JavaScript),
      JSON `null`, or a given value. */
  datatype Input<+T> = Absent | Null | Given(value: T)

  /** A given id-like value by what `Number(...)` makes of it: the integer
      `n` (which the SQL engine reads as the same integer), a finite number
      that is not an integer (`1.5`, `"2.5"`), or a value that is not finite
      (NaN from a non-numeric string such as `"abc"`, or an infinity). The
      driver writes a non-finite number into the SQL text as `NaN` or
      `Infinity`, which the engine takes for an unknown column. */
  datatype Num = Int(n: int) | Fraction | NonFinite

  /** Why a handler answered 400; each stands for one error message. */
  datatype Reason =
    | NameRequired       // "name requis"
    | InvalidName        // "name invalide"
    | LabelRequired      // "label requis"
    | InvalidType        // "type invalide"
    | CompanyRequired    // "company_id requis"
    | UnknownCompany     // "company_id inconnu"
    | InvalidCategoryId  // "category_id invalide"
    | UnknownCategory    // "category_id inconnu"
    | InvalidModelId     // "furniture_model_id invalide"
    | UnknownModel       // "furniture_model_id inconnu"
    | InvalidMaterialId  // "material_id invalide"
    | UnknownMaterial    // "material_id inconnu"
    | NothingToUpdate    // "aucune donnée à mettre à jour"

  /** The HTTP status a handler answers with (200, 201, 204, 400, 404, 409,
      and 500 for a statement the store refuses). */
  datatype Status =
    | Ok
    | Created
    | NoContent
    | BadRequest(reason: Reason)
    | NotFound
    | Conflict
    | ServerError

  /** The answer of a read-only handler: a body, or an error status. */
  datatype Reply<+T> = Success(body: T) | Failure(status: Status)

  /** `Number.isInteger(Number(x))`: `Number(undefined)` is NaN, while
      `Number(null)` is 0. */
  predicate IsInteger(x: Input<Num>)
    ensures IsInteger(x) <==> x.Null? || SqlKey(x).Some?
  {
    match x
    case Absent => false
    case Null => true
    case Given(v) => v.Int?
  }

  /** JavaScript truthiness of an id-like field: falsy when missing, `null`
      or a value `Number` reads as 0. */
  predicate Truthy(x: Input<Num>)
    ensures Truthy(x) ==> x.Given?
    ensures x.Given? ==> (Truthy(x) <==> x.value != Int(0))
  {
    match x
    case Absent => false
    case Null => false
    case Given(v) => !v.Int? || v.n != 0
  }

  /** A query-string filter that `pool.query` writes into the statement text
      as `NaN` or `Infinity`: the engine refuses the statement, and the
      handler's `catch` answers 500. */
  predicate Unwritable(x: Option<Num>)
  {
    x.Some? && x.value.NonFinite?
  }

  /** The id a `WHERE id = ?` lookup compares with: `NULL` equals nothing,
      and a value that is not an integer, bound as a statement parameter,
      matches no integer key. */
  function SqlKey(x: Input<Num>): (k: Option<int>)
    ensures k.Some? <==> x.Given? && x.value.Int?
    ensures k.Some? ==> k.value == x.value.n
  {
    match x
    case Given(Int(n)) => Some(n)
    case _ => None
  }

  /** `x ?? null` on a field that defaults to `null`: both a missing field
      and an explicit `null` store SQL `NULL`. */
  function OrNull<T>(x: Input<T>): (r: Option<T>)
    ensures r.Some? <==> x.Given?
    ensures r.Some? ==> r.value == x.value
  {
    match x
    case Given(v) => Some(v)
    case _ => None
  }
}
