/** The exceptions that can escape the pipeline's calls to outside services. */
module Errors {

  /** Why a call to an outside service raised instead of returning. */
  datatype Failure =
    | CompletionFailed      // the language-model API call raised
    | HttpStatus(code: int) // `raise_for_status` on a 4xx or 5xx answer
    | Timeout               // the request exceeded its timeout
    | ConnectionFailed      // `requests` could not reach the server
    | MalformedJson         // `r.json()` could not decode the ESearch body
    | MalformedXml          // `ET.fromstring` could not parse the EFetch body
}
