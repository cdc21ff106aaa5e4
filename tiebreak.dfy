/**
  The two variants resolve ties differently: among entries of equal,
  greatest similarity, the server (app.js) answers from the last qualifying
  one and the console program (app-basic.js) from the first one.
 */
module TieBreak {
  import opened Store
  import opened Text
  import Server
  import Console

  /** Two different entries i < k with the same greatest similarity, at
      least 0.90, with i the first to reach it and k the last entry that
      qualifies for the server: the server answers from k, the console
      program from i. */
  lemma VariantsPickDifferentTiedEntries(sim: Similarity, tokenize: Tokenizer, input: string,
                                         store: seq<QAEntry>, i: nat, k: nat)
    requires i < k < |store| && store[i] != store[k]
    requires sim(input, store[i].question) == sim(input, store[k].question) >= 0.90
    requires forall j :: 0 <= j < |store| ==> sim(input, store[j].question) <= sim(input, store[i].question)
    requires forall j :: 0 <= j < i ==> sim(input, store[j].question) < sim(input, store[i].question)
    requires forall j :: k < j < |store| ==> !Server.Qualifies(sim, tokenize, input, store[j])
    ensures Server.LastMatch(sim, tokenize, input, store) == Some(store[k])
    ensures Console.BestMatch(sim, input, store) == Some(store[i])
    ensures Server.LastMatch(sim, tokenize, input, store) != Console.BestMatch(sim, input, store)
  {
    assert Server.Qualifies(sim, tokenize, input, store[k]);
    var last := Server.LastMatch(sim, tokenize, input, store);
    var l :| 0 <= l < |store| && store[l] == last.value && Server.Qualifies(sim, tokenize, input, store[l])
             && forall j :: l < j < |store| ==> !Server.Qualifies(sim, tokenize, input, store[j]);
    assert l == k;
    var best := Console.BestMatch(sim, input, store);
    var b :| 0 <= b < |store| && store[b] == best.value && 0.90 <= sim(input, store[b].question)
             && (forall j :: 0 <= j < |store| ==> sim(input, store[j].question) <= sim(input, store[b].question))
             && (forall j :: 0 <= j < b ==> sim(input, store[j].question) < sim(input, store[b].question));
    assert b == i;
  }

  /** A concrete instance: constant similarity 1.0, no tokens. */
  lemma VariantsDisagreeOnTies()
    ensures var sim: Similarity := (a: string, b: string) => 1.0;
      var tokenize: Tokenizer := (s: string) => [];
      var store := [QAEntry("what is 2+2", "4"), QAEntry("what is 2 + 2", "four")];
      && Server.LastMatch(sim, tokenize, "what is 2+2", store) == Some(store[1])
      && Console.BestMatch(sim, "what is 2+2", store) == Some(store[0])
  {
    var sim: Similarity := (a: string, b: string) => 1.0;
    var tokenize: Tokenizer := (s: string) => [];
    var store := [QAEntry("what is 2+2", "4"), QAEntry("what is 2 + 2", "four")];
    assert store[..1] == [store[0]];
    assert [store[0]][..0] == [];
    assert Console.ScanMax(sim, "what is 2+2", [store[0]]) == Console.Scan(1.0, Some(0));
  }
}
