/**
  fetchResponseFromAPI, the call to the remote text-generation service, as
  an oracle. Each call records the question it was asked and hands back the
  next scripted reply: `Some(text)` for the reply's `data.text`, `None` for
  an error (the source catches every error and returns null). Once the
  script is exhausted every call fails.
 */
module Generator {
  import opened Store

  /** The answer both programs give when generation fails. */
  const Fallback := "Sorry, I could not find an answer."

  /** JavaScript truthiness of the reply: null and "" are falsy. */
  predicate Truthy(reply: Option<string>)
  {
    reply.Some? && reply.value != ""
  }

  class AnswerApi {
    var replies: seq<Option<string>>
    var asked: seq<string>

    constructor (replies: seq<Option<string>>)
      ensures this.replies == replies && asked == []
    {
      this.replies := replies;
      asked := [];
    }

    /** The reply the next call will return. */
    function NextReply(): Option<string>
      reads this
    {
      if replies == [] then None else replies[0]
    }

    /** The script left after the next call. */
    function Remaining(): seq<Option<string>>
      reads this
    {
      if replies == [] then [] else replies[1..]
    }

    method FetchResponseFromApi(question: string) returns (text: Option<string>)
      modifies this
      ensures asked == old(asked) + [question]
      ensures text == old(NextReply()) && replies == old(Remaining())
    {
      asked := asked + [question];
      if replies == [] {
        text := None;
      } else {
        text := replies[0];
        replies := replies[1..];
      }
    }
  }
}
