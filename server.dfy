/**
  The HTTP server variant (app.js). findSimilarQuestion scans every stored
  entry and keeps the LAST one whose string similarity is at least 0.90 or
  whose token overlap is at least 90%; getResponse answers from the store
  on a hit and otherwise asks the generator, re-checks the store and saves
  the new pair when configSave.dataSet is on.
 */
module Server {
  import opened Store
  import opened Text
  import opened Generator

  /** A JavaScript number as far as the token overlap needs one: 0 / 0 is NaN. */
  datatype Number = NaN | Finite(value: real)

  /** A comparison `n >= bound`; every comparison with NaN is false. */
  predicate AtLeast(n: Number, bound: real)
  {
    n.Finite? && n.value >= bound
  }

  /** `inputTokens.filter(t => itemTokens.includes(t))`: the input tokens
      that also occur in the item, duplicates kept. */
  function CommonTokens(inputTokens: seq<string>, itemTokens: seq<string>): (common: seq<string>)
    ensures |common| <= |inputTokens|
    ensures forall t :: multiset(common)[t] == if t in itemTokens then multiset(inputTokens)[t] else 0
  {
    if inputTokens == [] then []
    else
      var head := inputTokens[0];
      var rest := CommonTokens(inputTokens[1..], itemTokens);
      assert inputTokens == [head] + inputTokens[1..];
      (if head in itemTokens then [head] else []) + rest
  }

  /** When every input token occurs in the item, the filter keeps them all. */
  lemma {:induction false} AllTokensCommon(inputTokens: seq<string>, itemTokens: seq<string>)
    requires forall i :: 0 <= i < |inputTokens| ==> inputTokens[i] in itemTokens
    ensures CommonTokens(inputTokens, itemTokens) == inputTokens
    decreases |inputTokens|
  {
    if inputTokens != [] {
      AllTokensCommon(inputTokens[1..], itemTokens);
    }
  }

  /** `(commonTokens.length / inputTokens.length) * 100`, in exact arithmetic. */
  function TokenSimilarity(inputTokens: seq<string>, itemTokens: seq<string>): (n: Number)
    ensures n.NaN? <==> inputTokens == []
    ensures n.Finite? ==> 0.0 <= n.value <= 100.0
  {
    if inputTokens == [] then NaN
    else
      var c := |CommonTokens(inputTokens, itemTokens)| as real;
      var total := |inputTokens| as real;
      RatioAtMostOne(c, total);
      Finite((c / total) * 100.0)
  }

  lemma RatioAtMostOne(c: real, total: real)
    requires 0.0 <= c <= total && total > 0.0
    ensures 0.0 <= c / total <= 1.0
  {
    assert (c / total) * total == c;
  }

  /** Comparing a share of n with a percentage, scaled by n > 0. */
  lemma ScaledRatio(c: nat, n: nat, percent: nat)
    requires n > 0
    ensures (c as real / n as real) * 100.0 >= percent as real <==> 100 * c >= percent * n
  {
    var ratio := c as real / n as real;
    assert ratio * n as real == c as real;
    assert (ratio * 100.0) * n as real == (100 * c) as real;
    assert percent as real * n as real == (percent * n) as real;
    ScaleBothSides(ratio * 100.0, percent as real, n as real);
  }

  lemma ScaleBothSides(x: real, y: real, n: real)
    requires n > 0.0
    ensures x >= y <==> x * n >= y * n
  {
    if x < y {
      assert (y - x) * n > 0.0;
    }
  }

  /** The token-overlap test in integers: it holds exactly when at least
      90% of the (non-empty) list of input tokens occur in the item. */
  lemma TokenOverlapExact(inputTokens: seq<string>, itemTokens: seq<string>)
    ensures AtLeast(TokenSimilarity(inputTokens, itemTokens), 90.0)
        <==> |inputTokens| > 0 && 100 * |CommonTokens(inputTokens, itemTokens)| >= 90 * |inputTokens|
  {
    if inputTokens != [] {
      ScaledRatio(|CommonTokens(inputTokens, itemTokens)|, |inputTokens|, 90);
    }
  }

  /** The match predicate of findSimilarQuestion for one stored entry. */
  predicate Qualifies(sim: Similarity, tokenize: Tokenizer, input: string, item: QAEntry)
  {
    sim(input, item.question) >= 0.90
    || AtLeast(TokenSimilarity(tokenize(input), tokenize(item.question)), 90.0)
  }

  /** An entry qualifies exactly when its similarity is at least 0.90, or
      the input has tokens and at least 90% of them occur in the entry's. */
  lemma QualifiesExact(sim: Similarity, tokenize: Tokenizer, input: string, item: QAEntry)
    ensures Qualifies(sim, tokenize, input, item) <==>
      || sim(input, item.question) >= 0.90
      || (|tokenize(input)| > 0
          && 100 * |CommonTokens(tokenize(input), tokenize(item.question))| >= 90 * |tokenize(input)|)
  {
    TokenOverlapExact(tokenize(input), tokenize(item.question));
  }

  /** What findSimilarQuestion returns for the entries `data`: the last
      qualifying entry, or None when no entry qualifies. */
  function LastMatch(sim: Similarity, tokenize: Tokenizer, input: string, data: seq<QAEntry>): (r: Option<QAEntry>)
    ensures r.None? <==> forall i :: 0 <= i < |data| ==> !Qualifies(sim, tokenize, input, data[i])
    ensures r.Some? ==> exists i :: 0 <= i < |data| && data[i] == r.value
                         && Qualifies(sim, tokenize, input, data[i])
                         && forall j :: i < j < |data| ==> !Qualifies(sim, tokenize, input, data[j])
    decreases |data|
  {
    if data == [] then None
    else if Qualifies(sim, tokenize, input, data[|data| - 1]) then Some(data[|data| - 1])
    else LastMatch(sim, tokenize, input, data[..|data| - 1])
  }

  /** One more step of the scan over a prefix of `data`. */
  lemma LastMatchStep(sim: Similarity, tokenize: Tokenizer, input: string, data: seq<QAEntry>, i: nat)
    requires i < |data|
    ensures LastMatch(sim, tokenize, input, data[..i + 1])
         == if Qualifies(sim, tokenize, input, data[i]) then Some(data[i])
            else LastMatch(sim, tokenize, input, data[..i])
  {
    assert data[..i + 1][..i] == data[..i];
  }

  /** A question whose own tokens are non-empty, or which is at least 0.90
      similar to itself, matches an entry stored under that question. */
  lemma SelfQualifies(sim: Similarity, tokenize: Tokenizer, input: string, answer: string)
    requires |tokenize(input)| > 0 || sim(input, input) >= 0.90
    ensures Qualifies(sim, tokenize, input, QAEntry(input, answer))
  {
    var tokens := tokenize(input);
    if sim(input, input) < 0.90 {
      AllTokensCommon(tokens, tokens);
      TokenOverlapExact(tokens, tokens);
    }
  }

  /** The reply `{ response, savedToDb }` of getResponse. */
  datatype Reply = Reply(response: string, savedToDb: bool)

  /** What one getResponse call does: its reply, whether it asked the
      generator, and the entry it saved, if any. */
  datatype Resolution = Resolution(reply: Reply, asked: bool, saved: Option<QAEntry>)

  /** getResponse on the entries `store`, with the generator reply
      `apiResponse` and the entries `racing` that other requests save while
      this one awaits the generator (the store seen by the re-check is
      `store + racing`). */
  function Resolve(sim: Similarity, tokenize: Tokenizer, dataSet: bool, store: seq<QAEntry>,
                   input: string, apiResponse: Option<string>, racing: seq<QAEntry>): (res: Resolution)
    ensures res.asked <==> forall i :: 0 <= i < |store| ==> !Qualifies(sim, tokenize, input, store[i])
    ensures res.reply.savedToDb <==> !res.asked || res.saved.Some?
    ensures res.saved.Some? ==> res.saved.value == QAEntry(input, res.reply.response) && res.reply.response != ""
    ensures res.saved.Some? ==> dataSet && Truthy(apiResponse)
    ensures res.asked && !Truthy(apiResponse) ==> res.reply == Reply(Fallback, false)
  {
    match LastMatch(sim, tokenize, input, store)
    case Some(similar) =>
      Resolution(Reply(similar.answer, true), false, None)
    case None =>
      if Truthy(apiResponse) && LastMatch(sim, tokenize, input, store + racing).None? then
        if dataSet then
          Resolution(Reply(apiResponse.value, true), true, Some(QAEntry(input, apiResponse.value)))
        else
          Resolution(Reply(apiResponse.value, false), true, None)
      else
        Resolution(Reply(Fallback, false), true, None)
  }

  /** A hit: some stored entry qualifies. The reply is the stored answer of
      the last qualifying entry, savedToDb is true, the generator is not
      asked and nothing is saved. */
  lemma ResolveHit(sim: Similarity, tokenize: Tokenizer, dataSet: bool, store: seq<QAEntry>,
                   input: string, apiResponse: Option<string>, racing: seq<QAEntry>)
    requires exists i :: 0 <= i < |store| && Qualifies(sim, tokenize, input, store[i])
    ensures var res := Resolve(sim, tokenize, dataSet, store, input, apiResponse, racing);
      && !res.asked && res.saved.None? && res.reply.savedToDb
      && exists i :: 0 <= i < |store| && Qualifies(sim, tokenize, input, store[i])
                     && res.reply.response == store[i].answer
                     && forall j :: i < j < |store| ==> !Qualifies(sim, tokenize, input, store[j])
  {
  }

  /** A miss: no stored entry qualifies, so the generator is asked. An entry
      is saved exactly when the reply is truthy, the re-check still misses
      and dataSet is on; the saved entry is (input, reply). A truthy reply is
      returned, with savedToDb equal to dataSet, exactly when the re-check
      misses; when a racing save makes it hit, the reply is the fallback. */
  lemma ResolveMiss(sim: Similarity, tokenize: Tokenizer, dataSet: bool, store: seq<QAEntry>,
                    input: string, apiResponse: Option<string>, racing: seq<QAEntry>)
    requires forall i :: 0 <= i < |store| ==> !Qualifies(sim, tokenize, input, store[i])
    ensures var res := Resolve(sim, tokenize, dataSet, store, input, apiResponse, racing);
      && res.asked
      && (res.saved.Some? <==>
            Truthy(apiResponse) && dataSet
            && forall i :: 0 <= i < |racing| ==> !Qualifies(sim, tokenize, input, racing[i]))
      && (res.saved.Some? ==> res.saved.value == QAEntry(input, apiResponse.value) && res.saved.value.answer != "")
      && (!Truthy(apiResponse) ==> res.reply == Reply(Fallback, false))
      && (var recheckMisses := forall i :: 0 <= i < |racing| ==> !Qualifies(sim, tokenize, input, racing[i]);
          && (Truthy(apiResponse) && recheckMisses ==> res.reply == Reply(apiResponse.value, dataSet))
          && (!(Truthy(apiResponse) && recheckMisses) ==> res.reply == Reply(Fallback, false)))
  {
    var res := Resolve(sim, tokenize, dataSet, store, input, apiResponse, racing);
    var seen := store + racing;
    assert forall i :: 0 <= i < |racing| ==> seen[|store| + i] == racing[i];
    assert forall i :: 0 <= i < |seen| ==> seen[i] == if i < |store| then store[i] else racing[i - |store|];
  }

  /** The re-check guards only against saves made by other requests during
      the await: a generator reply that is truthy, and a store no other
      request wrote to, always yields the generated answer. */
  lemma SequentialRecheckMisses(sim: Similarity, tokenize: Tokenizer, dataSet: bool, store: seq<QAEntry>,
                                input: string, apiResponse: Option<string>)
    requires forall i :: 0 <= i < |store| ==> !Qualifies(sim, tokenize, input, store[i])
    requires Truthy(apiResponse)
    ensures Resolve(sim, tokenize, dataSet, store, input, apiResponse, [])
         == if dataSet then Resolution(Reply(apiResponse.value, true), true, Some(QAEntry(input, apiResponse.value)))
            else Resolution(Reply(apiResponse.value, false), true, None)
  {
    assert store + [] == store;
  }

  /** Idempotence: when neither look finds a match, a truthy reply is saved
      with dataSet on; asking the same question again with nothing saved in
      between is then a hit that returns the saved answer without asking the
      generator. It needs the question to match itself, which holds when its
      token list is not empty (100% overlap). */
  lemma RepeatedQuestionHits(sim: Similarity, tokenize: Tokenizer, store: seq<QAEntry>,
                             input: string, apiResponse: Option<string>, racing: seq<QAEntry>,
                             nextResponse: Option<string>, nextRacing: seq<QAEntry>)
    requires |tokenize(input)| > 0 || sim(input, input) >= 0.90
    requires LastMatch(sim, tokenize, input, store + racing).None?
    requires Truthy(apiResponse)
    ensures var entry := QAEntry(input, apiResponse.value);
      && Resolve(sim, tokenize, true, store, input, apiResponse, racing)
           == Resolution(Reply(apiResponse.value, true), true, Some(entry))
      && Resolve(sim, tokenize, true, store + racing + [entry], input, nextResponse, nextRacing)
           == Resolution(Reply(apiResponse.value, true), false, None)
  {
    var entry := QAEntry(input, apiResponse.value);
    var seen := store + racing;
    assert forall i :: 0 <= i < |store| ==> seen[i] == store[i];
    SelfQualifies(sim, tokenize, input, entry.answer);
    var next := seen + [entry];
    assert next[|next| - 1] == entry;
  }

  /** The file after getResponse: other requests' saves during the await,
      then this request's own save, if any. */
  function FileAfter(file: FileState, res: Resolution, racing: seq<QAEntry>): FileState
  {
    var raced := if res.asked then AppendAll(file, racing) else file;
    if res.saved.Some? then Append(raced, res.saved.value) else raced
  }

  /** Loading after getResponse gives the earlier entries, then the racing
      saves (only on a miss, where the await happens), then the own save. */
  lemma FileAfterThenLoad(file: FileState, res: Resolution, racing: seq<QAEntry>)
    ensures Load(FileAfter(file, res, racing)).data
         == Load(file).data + (if res.asked then racing else []) + (if res.saved.Some? then [res.saved.value] else [])
  {
    AppendAllThenLoad(file, racing);
    assert Load(file).data + [] == Load(file).data;
  }

  /** The response of the POST /api/chat handler. */
  datatype HttpResponse = Status400(error: string) | Status200(response: string, savedToDb: bool)

  /** The running server: database.json, the generator, the two library
      functions, configSave.dataSet and the module-level conversationHistory. */
  class ChatServer {
    const db: DatabaseFile
    const api: AnswerApi
    const sim: Similarity
    const tokenize: Tokenizer
    const dataSet: bool
    var conversationHistory: seq<string>

    constructor (db: DatabaseFile, api: AnswerApi, sim: Similarity, tokenize: Tokenizer, dataSet: bool)
      ensures this.db == db && this.api == api && this.sim == sim && this.tokenize == tokenize
      ensures this.dataSet == dataSet && conversationHistory == []
    {
      this.db := db;
      this.api := api;
      this.sim := sim;
      this.tokenize := tokenize;
      this.dataSet := dataSet;
      conversationHistory := [];
    }

    /** findSimilarQuestion: load the store and scan it, keeping the last
        qualifying entry. */
    method FindSimilarQuestion(input: string) returns (bestMatch: Option<QAEntry>)
      ensures bestMatch == LastMatch(sim, tokenize, input, db.Contents())
    {
      var database := db.LoadDatabase();
      var data := database.data;
      var inputTokens := tokenize(input);
      bestMatch := None;
      var i := 0;
      while i < |data|
        invariant 0 <= i <= |data|
        invariant bestMatch == LastMatch(sim, tokenize, input, data[..i])
      {
        var item := data[i];
        var itemTokens := tokenize(item.question);
        var similarity := sim(input, item.question);
        var tokenSimilarity := TokenSimilarity(inputTokens, itemTokens);
        LastMatchStep(sim, tokenize, input, data, i);
        if similarity >= 0.90 || AtLeast(tokenSimilarity, 90.0) {
          bestMatch := Some(item);
        }
        i := i + 1;
      }
      assert data[..i] == data;
    }

    /** Other requests resuming at the await and completing their saves. */
    method RacingSaves(racing: seq<QAEntry>)
      modifies db
      ensures db.file == AppendAll(old(db.file), racing)
    {
      var k := 0;
      while k < |racing|
        invariant 0 <= k <= |racing|
        invariant db.file == AppendAll(old(db.file), racing[..k])
      {
        db.SaveToDatabase(racing[k].question, racing[k].answer);
        assert racing[..k + 1][..k] == racing[..k];
        k := k + 1;
      }
      assert racing[..k] == racing;
    }

    /** getResponse. `racing` stands for the saves other requests make while
        this one awaits the generator. */
    method GetResponse(input: string, racing: seq<QAEntry>) returns (reply: Reply)
      modifies this`conversationHistory, db, api
      ensures conversationHistory == old(conversationHistory) + [input]
      ensures var res := Resolve(sim, tokenize, dataSet, old(db.Contents()), input, old(api.NextReply()), racing);
        && reply == res.reply
        && db.file == FileAfter(old(db.file), res, racing)
        && api.asked == old(api.asked) + (if res.asked then [input] else [])
        && api.replies == (if res.asked then old(api.Remaining()) else old(api.replies))
    {
      conversationHistory := conversationHistory + [input];
      ghost var store := db.Contents();
      ghost var file := db.file;
      var similarQuestion := FindSimilarQuestion(input);
      if similarQuestion.Some? {
        return Reply(similarQuestion.value.answer, true);
      }
      var apiResponse := api.FetchResponseFromApi(input);
      RacingSaves(racing);
      AppendAllThenLoad(file, racing);
      if Truthy(apiResponse) {
        var newSimilarQuestion := FindSimilarQuestion(input);
        if newSimilarQuestion.None? {
          if dataSet {
            db.SaveToDatabase(input, apiResponse.value);
            return Reply(apiResponse.value, true);
          } else {
            return Reply(apiResponse.value, false);
          }
        }
      }
      return Reply(Fallback, false);
    }

    /** The POST /api/chat handler: reject a missing or empty input with 400,
        otherwise answer the lowercased input. */
    method PostChat(body: Option<string>, racing: seq<QAEntry>) returns (res: HttpResponse)
      modifies this`conversationHistory, db, api
      ensures body.None? || body.value == "" ==>
        && res == Status400("Input is required.")
        && conversationHistory == old(conversationHistory)
        && db.file == old(db.file)
        && api.asked == old(api.asked) && api.replies == old(api.replies)
      ensures body.Some? && body.value != "" ==>
        var input := LowerCase(body.value);
        var r := Resolve(sim, tokenize, dataSet, old(db.Contents()), input, old(api.NextReply()), racing);
        && input != ""
        && res == Status200(r.reply.response, r.reply.savedToDb)
        && conversationHistory == old(conversationHistory) + [input]
        && db.file == FileAfter(old(db.file), r, racing)
        && api.asked == old(api.asked) + (if r.asked then [input] else [])
        && api.replies == (if r.asked then old(api.Remaining()) else old(api.replies))
    {
      if body.None? || body.value == "" {
        return Status400("Input is required.");
      }
      var reply := GetResponse(LowerCase(body.value), racing);
      res := Status200(reply.response, reply.savedToDb);
    }
  }

  /** Asking the same question twice in a row, with no other request in
      between: when the first answer was stored (a hit, or a save), the
      second call is a hit with the same answer; the generator is asked
      only by the first call, if at all, and the store grows only by the
      first call's own entry, if any. */
  method AskTwice(server: ChatServer, input: string) returns (first: Reply, second: Reply)
    requires |server.tokenize(input)| > 0 || server.sim(input, input) >= 0.90
    modifies server`conversationHistory, server.db, server.api
    ensures first.savedToDb ==> second == Reply(first.response, true)
    ensures first.savedToDb ==> |server.api.asked| <= |old(server.api.asked)| + 1
    ensures first.savedToDb ==>
      |server.api.asked| - |old(server.api.asked)| == |server.db.Contents()| - |old(server.db.Contents())|
    ensures |server.db.Contents()| <= |old(server.db.Contents())| + 1
    ensures server.conversationHistory == old(server.conversationHistory) + [input, input]
    ensures var res := Resolve(server.sim, server.tokenize, server.dataSet, old(server.db.Contents()),
                               input, old(server.api.NextReply()), []);
      && first == res.reply
      && (first.savedToDb ==> server.api.asked == old(server.api.asked) + (if res.asked then [input] else []))
      && (first.savedToDb ==>
            server.db.Contents() == old(server.db.Contents()) + (if res.saved.Some? then [res.saved.value] else []))
  {
    ghost var store := server.db.Contents();
    ghost var file := server.db.file;
    ghost var reply := server.api.NextReply();
    ghost var res := Resolve(server.sim, server.tokenize, server.dataSet, store, input, reply, []);
    first := server.GetResponse(input, []);
    FileAfterThenLoad(file, res, []);
    ghost var between := server.db.Contents();
    ghost var fileBetween := server.db.file;
    ghost var nextReply := server.api.NextReply();
    if res.saved.Some? {
      assert between == store + [] + [res.saved.value];
      RepeatedQuestionHits(server.sim, server.tokenize, store, input, reply, [], nextReply, []);
    } else {
      assert between == store;
    }
    second := server.GetResponse(input, []);
    FileAfterThenLoad(fileBetween, Resolve(server.sim, server.tokenize, server.dataSet, between, input, nextReply, []), []);
  }
}
