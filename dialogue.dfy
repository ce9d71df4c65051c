/** One client's transcript and what a single `/api/chat` request does to
    it: take the transcript as it stands, reject a falsy message, push the
    user's turn, hand the whole transcript to the completion provider and,
    when the provider answers, push the assistant's turn. A failed call
    keeps the pushed user turn. */
module Dialogue {
  import opened JsValues

  datatype Role = User | Assistant

  /** One `{role, content}` entry of a transcript. */
  datatype Turn = Turn(role: Role, content: string)

  /** The fixed greeting that opens every transcript. */
  const Greeting: string := "¡Hola! Soy la IA de tu escuela. ¿Qué aprenderemos hoy? 😊"

  const InitialMessage: Turn := Turn(Assistant, Greeting)

  /** A fresh transcript: `[initialMessage]`. */
  const Seed: seq<Turn> := [InitialMessage]

  /** What the completion provider did with a transcript: answered with the
      text of its first content block, or threw. */
  datatype Outcome = Completed(text: string) | Failed

  /** The handler's response: `{response}` (200), the missing-message error
      (400) or the server error (500). */
  datatype Reply = Response(text: string) | NoMessage | ServerError

  /** The transcript a request leaves behind and the reply it sends. */
  datatype Exchanged = Exchanged(transcript: seq<Turn>, reply: Reply)

  /** One `/api/chat` request against the transcript `before`; `complete`
      is the provider, given the transcript it is sent. */
  function Exchange(before: seq<Turn>, message: Option<string>, complete: seq<Turn> -> Outcome): (r: Exchanged)
    ensures before <= r.transcript
    ensures r.reply == NoMessage <==> !Truthy(message)
    ensures r.reply == NoMessage ==> r.transcript == before
    ensures r.reply.Response? ==>
      && complete(before + [Turn(User, message.value)]) == Completed(r.reply.text)
      && r.transcript == before + [Turn(User, message.value), Turn(Assistant, r.reply.text)]
    ensures r.reply == ServerError ==>
      && complete(before + [Turn(User, message.value)]) == Failed
      && r.transcript == before + [Turn(User, message.value)]
  {
    if !Truthy(message) then Exchanged(before, NoMessage)
    else
      var sent := before + [Turn(User, message.value)];
      match complete(sent)
      case Completed(text) => Exchanged(sent + [Turn(Assistant, text)], Response(text))
      case Failed => Exchanged(sent, ServerError)
  }

  /** A transcript in which every user turn has been answered: the greeting,
      then user and assistant turns in strict alternation, ending with the
      assistant. */
  predicate Settled(h: seq<Turn>) {
    && |h| % 2 == 1
    && h[0] == InitialMessage
    && forall i :: 0 <= i < |h| ==> h[i].role == if i % 2 == 0 then Assistant else User
  }

  lemma SeedSettled()
    ensures Settled(Seed)
  {
  }

  /** A request the provider answers, or one without a message, keeps every
      user turn answered. */
  lemma AnsweredKeepsSettled(before: seq<Turn>, message: Option<string>, complete: seq<Turn> -> Outcome)
    requires Settled(before)
    requires Exchange(before, message, complete).reply != ServerError
    ensures Settled(Exchange(before, message, complete).transcript)
  {
  }

  /** A failed provider call leaves the user's turn unanswered at the end of
      the transcript. */
  lemma FailureLeavesUserTurnLast(before: seq<Turn>, message: Option<string>, complete: seq<Turn> -> Outcome)
    requires Settled(before)
    requires Exchange(before, message, complete).reply == ServerError
    ensures var t := Exchange(before, message, complete).transcript;
      && |t| == |before| + 1
      && t[|t| - 1] == Turn(User, message.value)
      && !Settled(t)
  {
  }

  /** After a failed call, the next request that carries a message sends
      the provider two user turns in a row, the unanswered one and the new
      one, and leaves them side by side in the transcript. */
  lemma RetryAfterFailureRepeatsUser(before: seq<Turn>, first: Option<string>, second: Option<string>,
                                     complete: seq<Turn> -> Outcome)
    requires Exchange(before, first, complete).reply == ServerError
    requires Truthy(second)
    ensures var mid := Exchange(before, first, complete).transcript;
      var sent := before + [Turn(User, first.value), Turn(User, second.value)];
      var t := Exchange(mid, second, complete).transcript;
      && Exchange(mid, second, complete).reply != NoMessage
      && (complete(sent).Completed? <==> Exchange(mid, second, complete).reply.Response?)
      && sent <= t
      && t[|before|] == Turn(User, first.value)
      && t[|before| + 1] == Turn(User, second.value)
  {
    var mid := Exchange(before, first, complete).transcript;
    assert mid + [Turn(User, second.value)] == before + [Turn(User, first.value), Turn(User, second.value)];
  }

  /** The transcript after a client's requests, one after another. */
  function Replay(h: seq<Turn>, messages: seq<Option<string>>, complete: seq<Turn> -> Outcome): seq<Turn>
    decreases |messages|
  {
    if messages == [] then h
    else Replay(Exchange(h, messages[0], complete).transcript, messages[1..], complete)
  }

  /** With a provider that never fails, every user turn of a settled
      transcript stays answered however many requests follow. */
  lemma {:induction false} ReliableProviderKeepsSettled(h: seq<Turn>, messages: seq<Option<string>>,
                                                        complete: seq<Turn> -> Outcome)
    requires Settled(h)
    requires forall s :: complete(s).Completed?
    ensures Settled(Replay(h, messages, complete))
    decreases |messages|
  {
    if messages != [] {
      AnsweredKeepsSettled(h, messages[0], complete);
      ReliableProviderKeepsSettled(Exchange(h, messages[0], complete).transcript, messages[1..], complete);
    }
  }

  /** Each request with a message that the provider answers adds exactly two
      turns. */
  lemma {:induction false} ReliableProviderLength(h: seq<Turn>, messages: seq<Option<string>>,
                                                  complete: seq<Turn> -> Outcome)
    requires forall s :: complete(s).Completed?
    requires forall i :: 0 <= i < |messages| ==> Truthy(messages[i])
    ensures |Replay(h, messages, complete)| == |h| + 2 * |messages|
    decreases |messages|
  {
    if messages != [] {
      assert Truthy(messages[0]);
      ReliableProviderLength(Exchange(h, messages[0], complete).transcript, messages[1..], complete);
    }
  }
}
