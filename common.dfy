/** Values shared by every part of the export model: optional values, results
    carrying the exceptions the Python code raises, and the JSON-like values
    that extents and request parameters hold. */
module Common {

  datatype Option<+T> = None | Some(value: T)

  /** The exceptions `vtpk_export` raises (explicitly or through Python itself),
      one constructor per distinct failure. */
  datatype Error =
    | ParamsNotDict(typeName: string)   // `params` is neither None nor a dict
    | LevelsNotList(typeName: string)   // `levels_of_detail` is neither None nor a list
    | ServerError(message: string)      // a 500 error whose message is not the overflow message
    | EmptyCount                        // `int('')` on an empty `\d*` capture (ValueError)
    | ZeroDivision                      // division by a zero max count or a zero factor
    | UnboundResult                     // an error code other than 500: `vtpk_lst` is never bound
    | MissingKey(key: string)           // `extent[key]` on a dict without that key (KeyError)
    | NotSubscriptable                  // `extent[key]` on a value that is not a dict (TypeError)
    | NotNumeric                        // arithmetic on a coordinate that is not a number (TypeError)
    | MissingJobId                      // the submit response carries no `jobId` (AssertionError)
    | NoOutputUrl                       // the finished job lists no output URL (IndexError)

  datatype Result<+T> = Success(value: T) | Failure(error: Error)

  /** A JSON-like value. `Json(v)` stands for the text `json.dumps(v)`. */
  datatype Value =
    | Null                          // Python's `None`
    | Num(n: real)
    | Str(s: string)
    | Dict(fields: map<string, Value>)
    | Json(of: Value)
}
