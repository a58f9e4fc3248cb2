/** The error taxonomy of the inventory engine (src/InventoryError.js). */
module InventoryErrors {
  import opened Values

  /** A value passed to an error as a formatting argument. */
  datatype ErrArg = Number(n: JsNumber) | Text(s: string)

  /** The closed set of codes an error may carry after construction. */
  datatype Code = EBADVALUE | ELOCKED | ENOTAVAILABLE | EINTERNAL

  /** The key under which a code appears in ERRORS. */
  function CodeName(c: Code): string {
    match c
    case EBADVALUE => "EBADVALUE"
    case ELOCKED => "ELOCKED"
    case ENOTAVAILABLE => "ENOTAVAILABLE"
    case EINTERNAL => "EINTERNAL"
  }

  /** The message template of every known error code. */
  const ERRORS: map<string, string> := map[
    "EBADVALUE" := "Invalid value \"%j\" for field %s",
    "ELOCKED" := "Inventory for product is currently locked",
    "ENOTAVAILABLE" := "Unable to remove more items than available",
    "EINTERNAL" := "Internal server error"
  ]

  /** The fields an InventoryError carries after construction. Its
      `raw_message` is RawMessage(e), so it is not stored; the constant
      `name`, the formatted `message` and the `stack` are not modelled. */
  datatype InventoryError = InventoryError(code: Code, raw_args: seq<ErrArg>)

  /** The template a code's errors are formatted from, written per code;
      it agrees with the ERRORS table. */
  function Template(c: Code): (t: string)
    ensures CodeName(c) in ERRORS && t == ERRORS[CodeName(c)]
  {
    match c
    case EBADVALUE => "Invalid value \"%j\" for field %s"
    case ELOCKED => "Inventory for product is currently locked"
    case ENOTAVAILABLE => "Unable to remove more items than available"
    case EINTERNAL => "Internal server error"
  }

  /** The `raw_message` property: the unformatted template of the code. */
  function RawMessage(e: InventoryError): string {
    Template(e.code)
  }

  /** The code a string names, if it is a key of ERRORS. */
  function ParseCode(s: string): (r: Option<Code>)
    ensures r.Some? <==> s in ERRORS
    ensures r.Some? ==> CodeName(r.value) == s
  {
    if s == "EBADVALUE" then Some(EBADVALUE)
    else if s == "ELOCKED" then Some(ELOCKED)
    else if s == "ENOTAVAILABLE" then Some(ENOTAVAILABLE)
    else if s == "EINTERNAL" then Some(EINTERNAL)
    else None
  }

  /** The keys of ERRORS are exactly the names of the four codes. */
  lemma ErrorsTableKeys()
    ensures forall c: Code :: CodeName(c) in ERRORS
    ensures forall s :: s in ERRORS <==> exists c: Code :: CodeName(c) == s
  {
    forall s | s in ERRORS ensures exists c: Code :: CodeName(c) == s {
      assert CodeName(ParseCode(s).value) == s;
    }
  }

  /** Code normalisation: a missing or empty code, or one that is not a key
      of ERRORS, becomes EINTERNAL; a key of ERRORS is kept. */
  function NormalizeCode(code: Option<string>): (c: Code)
    ensures CodeName(c) in ERRORS
    ensures code.Some? && code.value in ERRORS ==> CodeName(c) == code.value
    ensures code.None? || code.value !in ERRORS ==> c == EINTERNAL
  {
    if code.None? || code.value == "" then EINTERNAL
    else match ParseCode(code.value)
      case None => EINTERNAL
      case Some(c) => c
  }

  /** The constructor, with the corrected code test of NormalizeCode (the
      membership test as written also keeps inherited property names; see
      NormalizeCodeAsWritten): an unknown code becomes EINTERNAL, missing
      arguments default to the empty list, and the raw message is the
      ERRORS template of the code kept. */
  function NewInventoryError(code: Option<string>, args: Option<seq<ErrArg>>): (e: InventoryError)
    ensures e.code == NormalizeCode(code)
    ensures RawMessage(e) == ERRORS[CodeName(e.code)]
    ensures args.None? ==> e.raw_args == []
    ensures args.Some? ==> e.raw_args == args.value
  {
    InventoryError(NormalizeCode(code), args.GetOr([]))
  }

  /** The engine raises each error by naming its code: the constructor keeps
      that code, with or without arguments. */
  lemma {:induction false} ConstructorKeepsOwnCodes(c: Code, args: seq<ErrArg>)
    ensures NewInventoryError(Some(CodeName(c)), None) == InventoryError(c, [])
    ensures NewInventoryError(Some(CodeName(c)), Some(args)) == InventoryError(c, args)
  {
    assert ParseCode(CodeName(c)) == Some(c);
  }

  // The constructor tests membership with the JavaScript `in` operator, which
  // also sees the properties every object literal inherits from
  // Object.prototype. The following models that test as written.

  /** The property names an object literal inherits from Object.prototype. */
  const INHERITED_KEYS: set<string> := {
    "constructor", "hasOwnProperty", "isPrototypeOf", "propertyIsEnumerable",
    "toLocaleString", "toString", "valueOf", "__proto__",
    "__defineGetter__", "__defineSetter__", "__lookupGetter__", "__lookupSetter__"
  }

  /** The code string the constructor keeps, with `code in ERRORS` read as
      JavaScript reads it (own or inherited property). */
  function NormalizeCodeAsWritten(code: Option<string>): (c: string)
    ensures code.Some? && code.value in INHERITED_KEYS ==> c == code.value
    ensures code.Some? && code.value in ERRORS ==> c == code.value
    ensures code.None? ==> c == "EINTERNAL"
    ensures code.Some? && code.value !in ERRORS && code.value !in INHERITED_KEYS ==> c == "EINTERNAL"
  {
    if code.None? || code.value == "" || !(code.value in ERRORS.Keys + INHERITED_KEYS) then "EINTERNAL"
    else code.value
  }

  /** An inherited property name passes the membership test as written and
      survives as a code outside the closed set, with no template, while
      NormalizeCode maps it to EINTERNAL. */
  lemma InheritedNameEscapesNormalisation()
    ensures NormalizeCodeAsWritten(Some("toString")) == "toString"
    ensures "toString" !in ERRORS
    ensures NormalizeCode(Some("toString")) == EINTERNAL
  {
  }
}
