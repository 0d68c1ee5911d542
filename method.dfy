/** The HTTP request methods the server knows, as the `Method` enum of src/server/http/method.rs. */
module Methods {

  /** Declared in this order; Rust's derived `PartialOrd` compares by declaration order. */
  datatype Method = GET | POST | PUT | DELETE | UNKNOWN

  /** `Method::default()`. */
  const DefaultMethod: Method := UNKNOWN

  /** The position of a variant in the declaration, which the derived ordering compares. */
  function Rank(m: Method): nat {
    match m
    case GET => 0
    case POST => 1
    case PUT => 2
    case DELETE => 3
    case UNKNOWN => 4
  }

  /** `a < b` under the derived ordering. */
  predicate Less(a: Method, b: Method) {
    Rank(a) < Rank(b)
  }

  /**
    The derived order is the chain GET < POST < PUT < DELETE < UNKNOWN, and it
    is a strict total order: two methods are equal or one is below the other.
   */
  lemma DerivedOrder(a: Method, b: Method)
    ensures Less(GET, POST) && Less(POST, PUT) && Less(PUT, DELETE) && Less(DELETE, UNKNOWN)
    ensures !Less(a, a)
    ensures a == b || Less(a, b) || Less(b, a)
    ensures Less(a, b) ==> !Less(b, a)
  {
  }

  /** `Method::from(&str)`: the four method names map to their variants, everything else to UNKNOWN. */
  function FromStr(s: string): (m: Method)
    ensures m == GET <==> s == "GET"
    ensures m == POST <==> s == "POST"
    ensures m == PUT <==> s == "PUT"
    ensures m == DELETE <==> s == "DELETE"
    ensures m == UNKNOWN <==> s !in {"GET", "POST", "PUT", "DELETE"}
  {
    if s == "GET" then GET
    else if s == "POST" then POST
    else if s == "PUT" then PUT
    else if s == "DELETE" then DELETE
    else UNKNOWN
  }

  /** `Display for Method`: each variant prints as its own name, and parsing that name gives the variant back. */
  function ToStr(m: Method): (s: string)
    ensures FromStr(s) == m
    ensures s in {"GET", "POST", "PUT", "DELETE", "UNKNOWN"}
  {
    match m
    case GET => "GET"
    case POST => "POST"
    case PUT => "PUT"
    case DELETE => "DELETE"
    case UNKNOWN => "UNKNOWN"
  }
}
