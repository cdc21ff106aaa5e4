/**
  The console variant (app-basic.js). findSimilarQuestion keeps the first
  entry with the strictly highest string similarity, starting from 0, and
  returns it only when that similarity is at least 0.90; getResponse
  answers from the store on a hit and otherwise saves every successful
  generation.
 */
module Console {
  import opened Store
  import opened Text
  import opened Generator

  /** The state of the scan: highestSimilarity and the index of bestMatch. */
  datatype Scan = Scan(highest: real, best: Option<nat>)

  /** The scan over `data`, updating only on a strictly higher similarity. */
  function ScanMax(sim: Similarity, input: string, data: seq<QAEntry>): (s: Scan)
    ensures 0.0 <= s.highest
    ensures s.best.None? <==> s.highest == 0.0
    ensures forall j :: 0 <= j < |data| ==> sim(input, data[j].question) <= s.highest
    ensures s.best.Some? ==>
      && s.best.value < |data|
      && sim(input, data[s.best.value].question) == s.highest
      && forall j :: 0 <= j < s.best.value ==> sim(input, data[j].question) < s.highest
    decreases |data|
  {
    if data == [] then Scan(0.0, None)
    else
      var last := |data| - 1;
      var prev := ScanMax(sim, input, data[..last]);
      var similarity := sim(input, data[last].question);
      if similarity > prev.highest then Scan(similarity, Some(last)) else prev
  }

  /** What findSimilarQuestion returns for the entries `data`: None exactly
      when every similarity is below 0.90; otherwise the first entry of
      greatest similarity, which is at least 0.90. */
  function BestMatch(sim: Similarity, input: string, data: seq<QAEntry>): (r: Option<QAEntry>)
    ensures r.None? <==> forall j :: 0 <= j < |data| ==> sim(input, data[j].question) < 0.90
    ensures r.Some? ==> exists k :: (
      && 0 <= k < |data| && data[k] == r.value
      && 0.90 <= sim(input, data[k].question)
      && (forall j :: 0 <= j < |data| ==> sim(input, data[j].question) <= sim(input, data[k].question))
      && (forall j :: 0 <= j < k ==> sim(input, data[j].question) < sim(input, data[k].question)))
  {
    var s := ScanMax(sim, input, data);
    if s.highest >= 0.90 then Some(data[s.best.value]) else None
  }

  /** An entry of similarity 0 is never bestMatch: the scan starts at 0 and
      only moves on a strictly greater similarity. */
  lemma ZeroNeverSelected(sim: Similarity, input: string, data: seq<QAEntry>, k: nat)
    requires k < |data| && sim(input, data[k].question) == 0.0
    ensures ScanMax(sim, input, data).best != Some(k)
  {
  }

  /** What one getResponse call does: the answer, whether it asked the
      generator, and the entry it saved, if any. */
  datatype Outcome = Outcome(answer: string, asked: bool, saved: Option<QAEntry>)

  /** getResponse on the entries `store` with the generator reply `apiResponse`. */
  function Respond(sim: Similarity, store: seq<QAEntry>, input: string, apiResponse: Option<string>): (out: Outcome)
    ensures out.asked <==> forall j :: 0 <= j < |store| ==> sim(input, store[j].question) < 0.90
    ensures out.saved.Some? <==> out.asked && Truthy(apiResponse)
    ensures out.saved.Some? ==> out.saved.value == QAEntry(input, out.answer) && out.answer != ""
    ensures out.asked && !Truthy(apiResponse) ==> out.answer == Fallback
  {
    match BestMatch(sim, input, store)
    case Some(similar) => Outcome(similar.answer, false, None)
    case None =>
      if Truthy(apiResponse) then Outcome(apiResponse.value, true, Some(QAEntry(input, apiResponse.value)))
      else Outcome(Fallback, true, None)
  }

  /** A hit returns the stored answer of the first entry of greatest
      similarity without asking the generator or saving; a miss asks, and
      saves (input, reply) exactly when the reply is truthy, otherwise
      answering with the fallback. */
  lemma RespondCases(sim: Similarity, store: seq<QAEntry>, input: string, apiResponse: Option<string>)
    ensures var out := Respond(sim, store, input, apiResponse);
      && (out.asked <==> forall j :: 0 <= j < |store| ==> sim(input, store[j].question) < 0.90)
      && (!out.asked ==> out.saved.None? && exists k :: (
            && 0 <= k < |store| && out.answer == store[k].answer
            && 0.90 <= sim(input, store[k].question)
            && (forall j :: 0 <= j < |store| ==> sim(input, store[j].question) <= sim(input, store[k].question))
            && (forall j :: 0 <= j < k ==> sim(input, store[j].question) < sim(input, store[k].question))))
      && (out.asked && Truthy(apiResponse) ==>
            out.answer == apiResponse.value && out.saved == Some(QAEntry(input, apiResponse.value)))
      && (out.asked && !Truthy(apiResponse) ==> out.answer == Fallback && out.saved.None?)
  {
  }

  /** After a miss and a save, asking the same question again returns the
      saved answer, provided the question is at least 0.90 similar to
      itself: the new entry is then the only one reaching 0.90, so it is the
      strict maximum. */
  lemma RepeatedQuestionHits(sim: Similarity, store: seq<QAEntry>, input: string,
                             apiResponse: Option<string>, nextResponse: Option<string>)
    requires sim(input, input) >= 0.90
    requires Respond(sim, store, input, apiResponse).saved.Some?
    ensures var first := Respond(sim, store, input, apiResponse);
      Respond(sim, store + [first.saved.value], input, nextResponse) == Outcome(first.answer, false, None)
  {
    var first := Respond(sim, store, input, apiResponse);
    var entry := first.saved.value;
    var next := store + [entry];
    assert forall j :: 0 <= j < |store| ==> next[j] == store[j];
    assert next[|store|] == entry;
    var r := BestMatch(sim, input, next);
    assert r.Some?;
    var k :| 0 <= k < |next| && next[k] == r.value && 0.90 <= sim(input, next[k].question);
    assert k == |store|;
  }

  /** Once a question is stored, asking it again never reaches the
      generator, provided it is at least 0.90 similar to itself; the answer
      may still come from an earlier entry of equal or higher similarity. */
  lemma StoredQuestionStaysHit(sim: Similarity, store: seq<QAEntry>, input: string, answer: string,
                               apiResponse: Option<string>)
    requires sim(input, input) >= 0.90
    requires QAEntry(input, answer) in store
    ensures !Respond(sim, store, input, apiResponse).asked
  {
    var k :| 0 <= k < |store| && store[k] == QAEntry(input, answer);
    assert sim(input, store[k].question) >= 0.90;
  }

  /** The console program: database.json, the generator and the similarity. */
  class ChatConsole {
    const db: DatabaseFile
    const api: AnswerApi
    const sim: Similarity

    constructor (db: DatabaseFile, api: AnswerApi, sim: Similarity)
      ensures this.db == db && this.api == api && this.sim == sim
    {
      this.db := db;
      this.api := api;
      this.sim := sim;
    }

    /** findSimilarQuestion: load the store, find the first entry of
        strictly highest similarity, then apply the 0.90 threshold. */
    method FindSimilarQuestion(input: string) returns (found: Option<QAEntry>)
      ensures found == BestMatch(sim, input, db.Contents())
    {
      var database := db.LoadDatabase();
      var data := database.data;
      var highestSimilarity: real := 0.0;
      var bestMatch: Option<QAEntry> := None;
      ghost var bestIndex: Option<nat> := None;
      var i := 0;
      while i < |data|
        invariant 0 <= i <= |data|
        invariant ScanMax(sim, input, data[..i]) == Scan(highestSimilarity, bestIndex)
        invariant bestIndex.Some? ==> bestIndex.value < i
        invariant bestMatch == if bestIndex.Some? then Some(data[bestIndex.value]) else None
      {
        var item := data[i];
        var similarity := sim(input, item.question);
        assert data[..i + 1][..i] == data[..i];
        if similarity > highestSimilarity {
          highestSimilarity := similarity;
          bestMatch := Some(item);
          bestIndex := Some(i);
        }
        i := i + 1;
      }
      assert data[..i] == data;
      found := if highestSimilarity >= 0.90 then bestMatch else None;
    }

    /** getResponse: the stored answer on a hit; otherwise the generator's
        reply, saved when truthy, or the fallback. */
    method GetResponse(input: string) returns (answer: string)
      modifies db, api
      ensures var out := Respond(sim, old(db.Contents()), input, old(api.NextReply()));
        && answer == out.answer
        && db.file == (if out.saved.Some? then Append(old(db.file), out.saved.value) else old(db.file))
        && api.asked == old(api.asked) + (if out.asked then [input] else [])
        && api.replies == (if out.asked then old(api.Remaining()) else old(api.replies))
    {
      var similarQuestion := FindSimilarQuestion(input);
      if similarQuestion.Some? {
        return similarQuestion.value.answer;
      }
      var apiResponse := api.FetchResponseFromApi(input);
      if Truthy(apiResponse) {
        db.SaveToDatabase(input, apiResponse.value);
      }
      answer := if Truthy(apiResponse) then apiResponse.value else Fallback;
    }
  }
}
