/** The `origin` callback handed to the CORS middleware: it decides, for the
    `Origin` header of a request, whether cross-origin access is allowed. */
module Cors {
  import opened Wrappers

  /** The two front-ends the server trusts. */
  const AllowedOrigins: seq<string> := ["http://localhost:5173", "https://fixit-bot.vercel.app"]

  /** The message of the error the callback reports for any other origin. */
  const CorsError: string := "Not allowed by CORS"

  /** What the callback passes back: `callback(null, true)` or
      `callback(new Error(...))`. */
  datatype Verdict = Allow | Reject(error: string)

  /** The callback. `None` is a request without an `Origin` header; the
      empty header value is falsy in the source and is let through the
      same way. A present origin is allowed exactly when it is one of the
      two trusted front-ends, and every refusal carries the same error. */
  function OriginCallback(origin: Option<string>): (v: Verdict)
    ensures v == Allow <==>
              || origin == None
              || origin == Some("")
              || origin == Some("http://localhost:5173")
              || origin == Some("https://fixit-bot.vercel.app")
    ensures v != Allow ==> v == Reject("Not allowed by CORS")
  {
    if origin.None? || origin.value == "" then Allow
    else if origin.value in AllowedOrigins then Allow
    else Reject(CorsError)
  }
}
