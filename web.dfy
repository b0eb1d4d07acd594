/**
 * What the HTTP handlers exchange: response statuses, the fields of a JSON
 * request body, and MongoDB object ids as the handlers parse and print them.
 */
module Web {
  import opened Common
  import opened Strings

  /** The response classes the handlers produce. `ServerError` stands for an
      exception the handler does not catch (Flask answers 500). */
  datatype Status = Success | BadRequest | Unauthorized | Forbidden | NotFound | ServerError {
    function Code(): (c: int)
      ensures 200 <= c < 600
      ensures (c == 200) <==> this == Success
    {
      match this
      case Success => 200
      case BadRequest => 400
      case Unauthorized => 401
      case Forbidden => 403
      case NotFound => 404
      case ServerError => 500
    }
  }

  /** A string-valued field of a JSON object: the key is absent, holds `null`, or holds a string. */
  datatype Field = Missing | Null | Given(s: string) {

    /** `data.get(key)` is truthy. */
    predicate Truthy() {
      Given? && s != ""
    }

    /** `data.get(key) or ''`. */
    function OrEmpty(): (r: string)
      ensures r != "" <==> Truthy()
    {
      if Given? then s else ""
    }

    /** `data.get(key, default)`: only an absent key takes the default; `null` stays `null`. */
    function GetOr(default: string): (r: Field)
      ensures r != Missing
      ensures Given? ==> r == this
    {
      if Missing? then Given(default) else this
    }
  }

  /** A JSON value as Python sees it after `request.json` (numbers are integers here). */
  datatype Json = JNull | JBool(b: bool) | JInt(i: int) | JStr(str: string) {

    /** Python truthiness. */
    predicate Truthy() {
      match this
      case JNull => false
      case JBool(b) => b
      case JInt(i) => i != 0
      case JStr(s) => s != ""
    }

    /** `str(v).isdigit()`: `str` of a non-negative int is its decimal digits, of a negative
        one starts with `-`, of `None`, `True` and `False` is a word. */
    predicate StrIsDigits() {
      match this
      case JInt(i) => i >= 0
      case JStr(s) => IsDigits(s)
      case _ => false
    }

    /** `int(v)`: `None` raises, a bool is 0 or 1, a string is parsed. */
    function PyInt(): (r: Option<int>)
      ensures JNull? ==> r == None
      ensures JInt? ==> r == Some(i)
    {
      match this
      case JNull => None
      case JBool(b) => Some(if b then 1 else 0)
      case JInt(i) => Some(i)
      case JStr(s) => ParseInt(s)
    }

    /** `v or ''`. */
    function OrEmpty(): (r: Json)
      ensures Truthy() ==> r == this
      ensures !Truthy() ==> r == JStr("")
    {
      if Truthy() then this else JStr("")
    }
  }

  /** A MongoDB object id as `str(ObjectId(...))` prints it: 24 lower-case hex digits. */
  type Id = string

  predicate IsHexDigit(c: char) {
    IsDigit(c) || 'a' <= c <= 'f' || 'A' <= c <= 'F'
  }

  predicate IsObjectIdText(s: string) {
    |s| == 24 && forall i | 0 <= i < |s| :: IsHexDigit(s[i])
  }

  predicate ValidId(id: Id) {
    IsObjectIdText(id) && HasNoUpper(id)
  }

  /** `ObjectId(s)` for a string `s`: 24 hex digits in either case, else it raises. */
  function ParseObjectId(s: string): (r: Option<Id>)
    ensures r.Some? <==> IsObjectIdText(s)
    ensures r.Some? ==> ValidId(r.value) && r.value == Lower(s)
  {
    if IsObjectIdText(s) then Some(Lower(s)) else None
  }

  /** Printing an id and parsing it back gives the same id. */
  lemma ParsePrintedId(id: Id)
    requires ValidId(id)
    ensures ParseObjectId(id) == Some(id)
  {
    LowerOfLowerCase(id);
  }

  /** A valid id never reads as Python's `str(None)`. */
  lemma IdIsNotNone(id: Id)
    requires ValidId(id)
    ensures id != "None"
  {
  }
}
