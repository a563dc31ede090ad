/** Vocabulary shared by every controller: optional values, request fields as the
    framework's validator sees them, the validation rules the controllers use, and
    a first-match search over the rows of a table. */
module Common {

  datatype Option<T> = None | Some(value: T)

  /** One field of an incoming request, after the framework's input middleware
      (which trims strings and turns empty strings into null). */
  datatype Field<T> =
    | Absent          // the key is not in the request
    | Null            // the key is present with a null value
    | Malformed       // the key is present but fails its type rule (string, integer, numeric, boolean, url)
    | Given(value: T) // the key is present with a well-typed value

  /** A JSON reply: its HTTP status code and the `message` the controller sends. */
  datatype Reply = Reply(code: nat, message: string)

  /** What implicit route-model binding answers for an id that is not in the table. */
  const ModelNotFound := Reply(404, "No query results for model")

  /** The characters PHP's `trim` strips. */
  predicate Trimmed(c: char) {
    c == ' ' || c == '\t' || c == '\n' || c == '\r' || c as int == 0 || c as int == 11
  }

  /** The `required` rule rejects a string that trims to nothing. */
  predicate Blank(s: string) {
    forall i :: 0 <= i < |s| ==> Trimmed(s[i])
  }

  /** `required|string|max:<max>` */
  predicate RequiredString(f: Field<string>, max: nat) {
    f.Given? && !Blank(f.value) && |f.value| <= max
  }

  /** `required|string` */
  predicate RequiredText(f: Field<string>) {
    f.Given? && !Blank(f.value)
  }

  /** `nullable|<type>`: null or absent pass, a present value must be well-typed. */
  predicate Nullable<T>(f: Field<T>) {
    !f.Malformed?
  }

  /** The value a `nullable` field writes into its column. */
  function ColumnValue<T>(f: Field<T>): Option<T> {
    if f.Given? then Some(f.value) else None
  }

  /** A column after `update($request->only([...]))` for a field that validation only lets
      through with a value: a present key writes it, an absent key keeps the column. */
  function Patch<T>(f: Field<T>, current: T): T {
    if f.Given? then f.value else current
  }

  /** The same for a `nullable` column: a key present with null writes null. */
  function PatchNullable<T>(f: Field<T>, current: Option<T>): Option<T> {
    match f
    case Given(v) => Some(v)
    case Null => None
    case _ => current
  }

  /** PHP truthiness of a string: "" and "0" are false. */
  predicate Truthy(s: string) {
    s != "" && s != "0"
  }

  /** The index of the first element satisfying `p`, as a `where(...)->first()` query
      over a table kept in insertion order returns it. */
  function FirstIndex<T>(s: seq<T>, p: T -> bool): (r: Option<nat>)
    ensures r.Some? ==> r.value < |s| && p(s[r.value])
    ensures r.Some? ==> forall j :: 0 <= j < r.value ==> !p(s[j])
    ensures r.None? ==> forall j :: 0 <= j < |s| ==> !p(s[j])
  {
    if |s| == 0 then None
    else if p(s[0]) then Some(0)
    else match FirstIndex(s[1..], p)
      case None => None
      case Some(i) => Some(i + 1)
  }
}
