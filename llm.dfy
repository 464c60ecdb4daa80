/** What the services receive from the OpenAI-compatible chat-completion
    client. The call itself (prompt, network, model) is not modelled: its
    outcome is an input of each operation. */
module Llm {

  datatype Option<+T> = None | Some(value: T) {
    function GetOr(default: T): T {
      match this
      case Some(v) => v
      case None => default
    }
  }

  /** The outcome of `client.chat.completions.create(...)`:
      the call raised, the response had an empty `choices` list, or the first
      choice's `message.content` (which the API may leave null). */
  datatype Completion = Raised | NoChoices | Reply(content: Option<string>)

  /** `response.choices[0].message.content or ""` for a response that has a choice. */
  function ReplyText(c: Completion): string
    requires c.Reply?
  {
    c.content.GetOr("")
  }
}
