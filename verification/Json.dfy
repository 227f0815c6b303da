/** Decoded JSON documents, and the library functions the emulator calls but does not define. */
module Json {
  import opened Common

  /** `any` after `json.Unmarshal`: numbers are exact, and an object is an unordered map. */
  datatype JSON =
    | JNull
    | JBool(b: bool)
    | JNum(n: real)
    | JStr(s: string)
    | JArr(items: seq<JSON>)
    | JObj(members: map<string, JSON>)

  /** A JSON-bearing string, seen through the decoder the emulator applies to it. */
  datatype Text<+T> = Blank | Malformed | Parsed(value: T)

  /**
   Library calls left uninterpreted: every result of the project holds for all choices of them.
   `fold` gives the canonical form that `strings.EqualFold` compares, `parseFloat` is
   `strconv.ParseFloat`, `sprint` is `fmt.Sprint`, `validPrefix` and `contains` are
   `netip.ParsePrefix` and `Prefix.Contains(ParseAddr(..))`, `decode` is `json.Unmarshal` of any value,
   `sha256` is the hex digest used for content-based deduplication.
   */
  datatype Platform = Platform(
    fold: string -> string,
    upper: string -> string,
    lower: string -> string,
    trim: string -> string,
    parseFloat: string -> Option<real>,
    sprint: JSON -> string,
    validPrefix: string -> bool,
    contains: (string, string) -> bool,
    decode: string -> Option<JSON>,
    sha256: string -> string)
  {
    predicate EqualFold(a: string, b: string) { fold(a) == fold(b) }
  }
}
