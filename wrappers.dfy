/** Failure-carrying values shared by the whole model. */
module Wrappers {

  datatype Option<+T> = None | Some(value: T)

  datatype Result<+R, +E> = Success(value: R) | Failure(error: E)

  /** The exceptions the analysis pipeline raises, catches or turns into sentinels. */
  datatype Error =
    | ChatNotFound          // `analyze` on a chat id the registry does not know
    | MessageQueryFailed    // the message query raised
    | PromptNotFound        // the chat's default prompt is missing or empty
    | AnalysisServiceError  // the completion call raised
    | PersistenceError      // the result store failed to commit
    | MalformedFilterData   // `json.loads` refused a stored filters blob
    | PromptLookupFailed    // `get_prompt_name` found no prompt record
    | StoreQueryFailed      // a query or count on the result store raised
}
