/**
 * The shapes the core writes back through Express: JSON values and objects, the
 * response bodies of the handlers, and the reply (HTTP status plus body).
 */
module Http {
  import opened Wrappers

  /** A JSON-serialisable field value of a user document. */
  datatype Value = Str(s: string) | Num(n: int) | ObjectId(hex: string)

  /** A plain JavaScript object: property name to value. */
  type Obj = map<string, Value>

  /** `{ user, accessToken, refreshToken }`: a user view spread together with a token pair.
      `user` is `None` when the view was re-read and the record had gone (`null` in JSON). */
  datatype TokenBundle = TokenBundle(user: Option<Obj>, accessToken: string, refreshToken: string)

  /** `{ field, message }`, one entry of a validation report. */
  datatype FieldError = FieldError(field: string, message: string)

  datatype Body =
    /** `{ code, msg }` */
    | Coded(code: int, msg: string)
    /** `{ code, data, msg }` */
    | CodedData(code: int, msg: string, data: Option<TokenBundle>)
    /** `{ code, data: null, msg: error }` where `error` is a thrown `Error`, which serialises to `{}` */
    | CodedError(code: int)
    /** `{ success, message, errors? }` */
    | Outcome(success: bool, message: string, errors: Option<seq<string>>)
    /** `{ success, errors }` */
    | FieldReport(success: bool, fieldErrors: seq<FieldError>)

  /** `res.status(s).json(b)` or `res.send(text)` (which answers with status 200). */
  datatype Reply = Json(status: int, body: Body) | Text(status: int, text: string)
}
