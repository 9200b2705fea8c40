/** The `searchParams` a server page receives: each key maps to a string, or
    to the values of a key repeated in the URL. */
module PageParams {

  /** One entry: a single value, or the values of a repeated key (the
      framework builds an array only for a key that occurs more than once, so
      it is never empty). */
  datatype ParamValue = Str(s: string) | Arr(first: string, rest: seq<string>)

  type SearchParams = map<string, ParamValue>
}
