/** The values the handlers and the form work on: JavaScript values as a schema sees them,
    uploaded files, and the fields of a multipart form. */
module JsValues {

  datatype Option<+T> = None | Some(value: T)

  newtype byte = x: int | 0 <= x < 256

  /** A `File` object: its name and its content. */
  datatype File = File(name: string, bytes: seq<byte>)

  /** A JavaScript value. An absent property is not a value: `Prop` answers `None`
      (`undefined`) for it. Numbers are integers (`VNum`) or `NaN` (`VNaN`); a `File`
      object read from a form is kept as `VFile`. */
  datatype Value =
    | VNull
    | VBool(b: bool)
    | VNum(n: int)
    | VNaN
    | VStr(s: string)
    | VArr(elems: seq<Value>)
    | VObj(props: map<string, Value>)
    | VFile(file: File)

  /** `v[key]`: `None` stands for `undefined`. */
  function Prop(v: Value, key: string): (r: Option<Value>)
    ensures r.Some? <==> v.VObj? && key in v.props
    ensures r.Some? ==> r.value == v.props[key]
  {
    if v.VObj? && key in v.props then Some(v.props[key]) else None
  }

  /** One field of a multipart form: a text or a file. */
  datatype FormValue = Text(text: string) | Blob(file: File)

  type FormData = map<string, FormValue>

  /** `formData.get(name)`: `None` stands for `null`. */
  function Get(form: FormData, name: string): (r: Option<FormValue>)
    ensures r.Some? <==> name in form
    ensures r.Some? ==> r.value == form[name]
  {
    if name in form then Some(form[name]) else None
  }

  /** JavaScript truthiness of a form field: `null` and `""` are falsy, a file is truthy. */
  predicate Truthy(f: Option<FormValue>) {
    match f
    case None => false
    case Some(Text(s)) => s != ""
    case Some(Blob(_)) => true
  }

  /** What `String(x)` gives for a form field. */
  function TextOf(f: FormValue): string {
    match f
    case Text(s) => s
    case Blob(_) => "[object File]"
  }

  /** `formData.get(name) as string`, as a schema sees it: the cast changes nothing, so a
      missing field is `null` and a file stays a `File` object. */
  function AsValue(f: Option<FormValue>): (r: Value)
    ensures r.VStr? <==> f.Some? && f.value.Text?
    ensures r.VNull? <==> f.None?
  {
    match f
    case None => VNull
    case Some(Text(s)) => VStr(s)
    case Some(Blob(file)) => VFile(file)
  }

  /** `Number(formData.get(name))`: `Number(null)` is 0; otherwise the field is read as text
      by `toNumber`, which stands for JavaScript's string-to-number conversion (`None` for NaN). */
  function NumberValue(f: Option<FormValue>, toNumber: string -> Option<int>): (r: Value)
    ensures r.VNum? || r.VNaN?
    ensures f.None? ==> r == VNum(0)
  {
    match f
    case None => VNum(0)
    case Some(v) =>
      match toNumber(TextOf(v))
      case Some(n) => VNum(n)
      case None => VNaN
  }
}
