/**
  The messages the a2a protocol carries, as far as the reply-set code reads them. A body is
  a datatype rather than JSON: schema validation and marshaling are environment answers.
 */
module Wire {
  import opened Wrappers

  /** The cap every body is held to, in bytes. */
  const MAX_MESSAGE_SIZE: nat := 768 * 1024

  datatype ElicitKind = Approve | Confirm | Input | Select | Unnamed

  datatype ElicitRequest = ElicitRequest(
    questionId: string, toolUseId: string, kind: ElicitKind, options: seq<string>, waitMillis: int)

  datatype Message =
    | Ack(accepted: bool, reason: string, token: string)
    | Event(block: string)
    | Elicit(ask: ElicitRequest)
    | TaskResult(text: string)
    | TaskError(code: string)
    | ToolReply(isError: bool, output: string, replyCode: string)
    | Foreign(protocol: string)
  {
    /** A message that ends the set it is published on. */
    predicate Terminal() {
      TaskResult? || TaskError? || ToolReply?
    }
  }

  /** One message as it crossed: its sequence number, its body, and the final flag. */
  datatype Sent = Sent(number: nat, body: Message, final: bool)
}
