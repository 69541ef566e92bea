/** How the frontend reads what the backend sends. The backend answers
    with an "answer", "message" or "error" field; the frontend shows only a
    "reply" field. */
module Interop {
  import RagService
  import VoiceQuery

  /** Every body the backend produces, successful answers included, makes
      the frontend show the fallback text. */
  lemma EveryBackendReplyShowsFallback(reply: RagService.Reply)
    ensures "reply" !in RagService.ReplyBody(reply)
    ensures VoiceQuery.ResponseText(VoiceQuery.Parsed(RagService.ReplyBody(reply))) == VoiceQuery.Fallback
  {
  }
}
