/**
 What a network request can come back with, as seen by the CVE pipeline.
 The HTTP client, TLS and JSON decoding are not modelled: a request is
 replaced by the answer it produced, and a decoded body by a small record of
 the fields the code reads.
 */
module Http {
  import opened Wrappers

  /**
   Why a lookup failed; the Rust code boxes these as `dyn Error`. `BadStatus`
   is the older pipeline's "API error" for a non-success status other than 404.
   */
  datatype Error = ClientBuild | Transport | Decode | BadStatus(code: nat)

  /** The reply to one request: it was not delivered, or it has a status and a body that decoded (or not). */
  datatype Answer<B> = SendError | Status(code: nat, body: Option<B>)

  /** A request made by a function that builds its own client, which can itself fail to build. */
  datatype Fetch<B> = NoClient | Sent(answer: Answer<B>)

  /** `StatusCode::is_success`: a 2xx status. */
  predicate Success(code: nat) {
    200 <= code < 300
  }
}
