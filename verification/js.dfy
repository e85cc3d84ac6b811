/** Values as the JavaScript and Python code sees them: absent fields,
    truthiness, the `a || b` defaulting idiom and bytes. */
module Js {

  /** A field that may be missing from a JSON body (`undefined` / `None`). */
  datatype Option<+T> = None | Some(value: T)

  /** An octet of a request body or a file buffer. */
  type byte = x: int | 0 <= x < 256

  /** A string field is truthy when it is present and not the empty string. */
  predicate Truthy(o: Option<string>)
  {
    o.Some? && o.value != ""
  }

  /** `o || fallback` on a string field: the field when it is truthy, the
      fallback otherwise. */
  function Or(o: Option<string>, fallback: string): (r: string)
    ensures Truthy(o) ==> r == o.value
    ensures !Truthy(o) ==> r == fallback
  {
    if Truthy(o) then o.value else fallback
  }

  /** What a JavaScript template literal prints for a string field that may be
      missing: the field itself, or the text "undefined". */
  function Interpolate(o: Option<string>): (r: string)
    ensures o.Some? ==> r == o.value
    ensures o.None? ==> r == "undefined"
  {
    match o
    case Some(s) => s
    case None => "undefined"
  }
}

/** The request shapes the Express controllers receive. */
module Http {
  import opened Js

  /** The file `multer` attaches to a request as `req.file` (memory storage). */
  datatype UploadedFile = UploadedFile(buffer: seq<byte>, originalName: string, mimeType: string)
}
