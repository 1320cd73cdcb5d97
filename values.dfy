/**
 * Values held by content items.
 *
 * A content item is a Python dict of named fields; here it is a map from field
 * name to a dynamically typed `Value`. Python's truthiness, `dict.get` and
 * `dict.setdefault` are spelled out, because the hooks branch on them.
 */
module Values {

  datatype Option<+T> = None | Some(value: T)

  datatype Result<+T, +E> = Ok(value: T) | Err(error: E)

  /** The exceptions the core raises or lets propagate. */
  datatype Error =
    | KeyError(key: string)          // `d[key]` on a missing key
    | TypeError                      // subscripting or `in` on something that is not a dict
    | AttributeError                 // an attribute or method the value does not have
    | IndexError                     // `content_type.split('/')[1]` without a '/'
    | NotFound                       // the media storage has no file with that id
    | ImageError                     // the image library cannot open the upload
    | ResizeError                    // the image library fails to resize it
    | DownloadError                  // the remote file cannot be fetched
    | SuperdeskError(payload: string)
    | Abort(code: int)               // `abort(code)`: the request fails with that status

  /** How a hook ended: normally, or with an exception that escapes it. */
  datatype Outcome = Done | Raised(error: Error)

  /** Opaque identifier the media storage hands out for a stored file. */
  type MediaId = nat

  /** A naive `datetime`, as `utcnow()` and `datetime.today()` return it. */
  datatype DateTime = DateTime(year: nat, month: nat, day: nat,
                               hour: nat, minute: nat, second: nat, microsecond: nat)
  {
    /** The ranges Python's `datetime` constructor enforces. */
    predicate Valid() {
      1 <= year <= 9999 && 1 <= month <= 12 && 1 <= day <= 31 &&
      hour < 24 && minute < 60 && second < 60 && microsecond < 1000000
    }
  }

  /** A field value of a content item. */
  datatype Value =
    | Null
    | Bool(b: bool)
    | Int(i: int)
    | Str(s: string)
    | Time(t: DateTime)
    | MediaRef(id: MediaId)          // a stored file's id, as held in `media`
    | Blob(file: File)               // an uploaded file object, as held in `media_fetched`
    | List(items: seq<Value>)
    | Dict(fields: map<string, Value>)

  /** A stored or uploaded file: its declared content type, its bytes, its metadata. */
  datatype File = File(contentType: string, content: seq<bv8>, metadata: Value)

  type Doc = map<string, Value>

  /** Python truthiness (`if v:`). A file object is taken to be truthy. */
  predicate Truthy(v: Value) {
    match v
    case Null => false
    case Bool(b) => b
    case Int(i) => i != 0
    case Str(s) => s != ""
    case Time(_) => true
    case MediaRef(_) => true
    case Blob(_) => true
    case List(items) => items != []
    case Dict(fields) => fields != map[]
  }

  /** `doc.get(key)`: the value, or None when the key is absent. */
  function Get(doc: Doc, key: string): Value {
    if key in doc then doc[key] else Null
  }

  /** `doc.setdefault(key, v)`: store `v` only when `key` is absent. */
  function SetDefault(doc: Doc, key: string, v: Value): Doc {
    if key in doc then doc else doc[key := v]
  }
}
