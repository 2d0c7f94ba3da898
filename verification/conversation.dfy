/**
  The message entry point. In this version it is an echo: the message is trimmed, a blank
  message is rejected, and any other message is acknowledged with a fixed prefix. It
  consults neither tools nor agents nor the store.
*/
module Conversation {
  import opened Wrappers
  import opened Text
  import opened ChatTypes

  /** Who sent the message; each identifier may be absent. */
  datatype UserIdentifier = UserIdentifier(telegramId: Option<string>, email: Option<string>)

  datatype HandleParams = HandleParams(user: UserIdentifier, channel: Channel, message: string)

  const EmptyMessageError: string := "Message cannot be empty"
  const EchoPrefix: string := "پیامت را گرفتم: "

  /** `sanitizeMessage`: trimming. */
  function Sanitize(message: string): (r: string)
    ensures IsTrimmed(r)
    ensures r == "" <==> AllWhitespace(message)
    ensures IsTrimmed(message) ==> r == message
  {
    Trim(message)
  }

  /** `handleUserMessage`: fails exactly on a blank message, with the fixed error text; otherwise the
      reply is the prefix followed by the trimmed message. */
  function HandleUserMessage(params: HandleParams): (r: Result<string, string>)
    ensures r.Failure? <==> AllWhitespace(params.message)
    ensures r.Failure? ==> r.error == EmptyMessageError
    ensures r.Success? ==> && StartsWith(r.value, EchoPrefix)
                           && r.value[|EchoPrefix|..] == Trim(params.message)
                           && |r.value| > |EchoPrefix|
  {
    var trimmed := Sanitize(params.message);
    if trimmed == "" then Failure(EmptyMessageError)
    else
      var reply := EchoPrefix + trimmed;
      assert reply[|EchoPrefix|..] == trimmed;
      Success(reply)
  }

  /** The echo can be read back: dropping the prefix recovers the message as the user typed it,
      apart from surrounding white space. */
  lemma EchoRecoversMessage(params: HandleParams)
    requires !AllWhitespace(params.message)
    ensures var r := HandleUserMessage(params);
      && r.Success?
      && r.value[|EchoPrefix|..] != ""
      && IsTrimmed(r.value[|EchoPrefix|..])
      && Trim(r.value[|EchoPrefix|..]) == Trim(params.message)
  {
    TrimIdempotent(params.message);
  }

  /** Trimming the message first changes nothing. */
  lemma HandleIgnoresSurroundingWhitespace(params: HandleParams)
    ensures HandleUserMessage(params) == HandleUserMessage(params.(message := Trim(params.message)))
  {
    TrimIdempotent(params.message);
    assert AllWhitespace(params.message) <==> AllWhitespace(Trim(params.message));
  }

  /** The outcome depends on the message only: neither the channel nor the sender matters. */
  lemma HandleIgnoresSender(p: HandleParams, q: HandleParams)
    requires p.message == q.message
    ensures HandleUserMessage(p) == HandleUserMessage(q)
  {
  }
}
