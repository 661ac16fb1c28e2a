/** What a handler asks the chat platform or the web framework to do, as a value. */
module Actions {
  import opened Wrappers

  datatype Action =
      /** `say(text=…, thread_ts=…)`: an FAQ answer threaded on the triggering message. */
    | Reply(text: string, threadTs: string)
      /** `say(text=…, thread_ts=…)` carrying the hand-off notice. */
    | Handoff(text: string, threadTs: string)
      /** The handler returns without saying anything. */
    | NoReply
      /**
       * The webhook's error response: the HTTP status, the body's `status` and
       * `message` fields, and any value serialized after the body object.
       */
    | Reject(httpStatus: int, status: string, message: string, trailing: Option<int>)
      /** One message posted to the named channel. */
    | Post(channel: string, text: string)

  /** The chat platform's mention syntax for a member or user id. */
  function Mention(id: string): string {
    "<@" + id + ">"
  }
}
