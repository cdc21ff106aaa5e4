# Cache-first question resolver: a Dafny model

The chatbot answers a question from a small cache of `{question, answer}`
pairs kept in `database.json`. It goes to a remote text-generation service
only when no cached question is near enough. The repository has two
programs with this logic:

- **the server** (`app.js`): an Express handler that lowercases the input
  and rejects an empty one. Its `findSimilarQuestion` keeps the **last**
  stored entry whose string similarity is at least 0.90 **or** whose token
  overlap is at least 90%. Its `getResponse` records the input in
  `conversationHistory`. On a miss it asks the generator, looks in the store
  again, and saves the new pair only when that second look still misses and
  `configSave.dataSet` is on.
- **the console program** (`app-basic.js`). Its `findSimilarQuestion`
  keeps the **first** entry of strictly highest similarity, starting from 0,
  and applies the 0.90 threshold at the end. Its `getResponse` saves every
  successful generation.

Both programs carry identical `loadDatabase` and `saveToDatabase`
functions (`app.js:24-38`, `app-basic.js:44-59`). Module `Store` models
them once.

Modules:

- `Store` (store.dfy): the entries, the state of `database.json`
  (`Unreadable` or `Parsed`) and the class `DatabaseFile`, which holds that
  state. `LoadDatabase` falls back to `{data: []}`. `SaveToDatabase`
  reloads, appends one entry and writes the whole file back.
- `Text` (text.dfy): the library functions. The similarity is any function
  into [0, 1] and the tokenizer is any function from a string to a token
  list. `toLowerCase` is modelled on ASCII letters.
- `Generator` (generator.dfy): `fetchResponseFromAPI` as an oracle object.
  Each call records the question and returns the next scripted reply, where
  `None` is an error. It also holds JavaScript truthiness of the reply and
  the fallback string.
- `Server` (server.dfy): the model of `app.js`. `LastMatch` and `Resolve`
  are its specification functions. `ChatServer` holds its state: the file,
  the generator, `dataSet` and `conversationHistory`.
- `Console` (console.dfy): the model of `app-basic.js`. `ScanMax`,
  `BestMatch` and `Respond` are its specification functions and
  `ChatConsole` is the program.
- `TieBreak` (tiebreak.dfy): among tied entries of greatest similarity the
  two programs return different ones, stated in general and on an example.

Token overlap is modelled as the JavaScript number it is:
`(common / inputTokens.length) * 100` with exact real arithmetic. An empty
token list gives `0 / 0`, which is NaN, and a comparison with NaN is false.
`TokenOverlapExact` shows that the test holds exactly when
`100 * |common| >= 90 * |inputTokens|` and `|inputTokens| > 0`.

The only `await` in the server's `getResponse` is the generator call.
Requests that resume earlier can save entries to `database.json` in the
meantime. That is the only way the second look (line 85) can find a match.
Those saves are a parameter `racing` of `GetResponse`. With `racing == []`,
`SequentialRecheckMisses` proves that the second look always misses.

The model follows the code, which in particular:

- lowercases the input but does not trim it, and does not reject a
  whitespace-only input: only a missing or empty input gets status 400
  (`app.js:101-105`);
- sets `savedToDb` to `true` on a cache hit and on a save, and to `false`
  only when nothing was stored (`app.js:81, 89, 91, 95`);
- discards the generated answer and replies with the fallback string when
  the second look finds a match (`app.js:85-95`);
- in the console program, saves an empty question if one is typed
  (`app-basic.js:107-109`).

`Server.Resolve` and `Console.Respond` specify one `getResponse` call as a
value. Their own `ensures` and the `Resolve*` and `Respond*` lemmas are
their contract.

## Model

| member | source | states |
|---|---|---|
| `Store.DatabaseFile.LoadDatabase` | app.js:24-32 | never fails; an unreadable or unparsable file yields `{data: []}`, otherwise the parsed object |
| `Store.DatabaseFile.SaveToDatabase` | app.js:34-38 | the new file is the loaded entries plus exactly one `{question, answer}` at the end, prior entries and order unchanged; an unreadable file is replaced |
| `Store.AppendAllThenLoad` | app-basic.js:44-59 | round trip: saving entries then loading gives the earlier entries followed by the saved ones, in order |
| `Generator.AnswerApi.FetchResponseFromApi` | app.js:40-49 | each call consumes one reply of the oracle (an error is `None`) and records the question asked |
| `Text.LowerCase` | app.js:105 | lowercasing keeps the length, leaves no ASCII capital, maps each capital to its lower-case letter and keeps every other character |
| `Text.LowerCaseIdempotent` | app.js:105 | a lowercased question lowercases to itself |
| `Server.CommonTokens` | app.js:65 | the filter keeps each input token exactly as often as in the input when the item contains it, and drops it otherwise |
| `Server.AllTokensCommon` | app.js:65 | when every input token occurs in the item, the filter returns the input tokens unchanged |
| `Server.TokenSimilarity` | app.js:66 | the overlap is NaN exactly when the input has no tokens, and otherwise lies in [0, 100] |
| `Server.TokenOverlapExact` | app.js:66-68 | the overlap is at least 90 exactly when the input has tokens and 100 times the number of common tokens is at least 90 times the number of input tokens |
| `Server.QualifiesExact` | app.js:63-68 | the match predicate `Qualifies` holds exactly when the similarity is at least 0.90, or the input has tokens and 100 times the number of common tokens is at least 90 times the number of input tokens |
| `Server.LastMatch` | app.js:62-73 | the result is null exactly when no entry qualifies (similarity at least 0.90 or overlap at least 90); otherwise it is a qualifying entry after which none qualifies |
| `Server.SelfQualifies` | app.js:63-68 | a question with a non-empty token list, or with self-similarity at least 0.90, matches an entry stored under that question |
| `Server.ChatServer.FindSimilarQuestion` | app.js:51-74 | the scan over the loaded store returns exactly the last qualifying entry, or null |
| `Server.Resolve` | app.js:76-96 | one getResponse call: the generator is asked exactly when no stored entry qualifies; `savedToDb` is true exactly on a hit or an own save; a saved entry is (input, reply) with a non-empty reply, only with `dataSet` on and a truthy reply; a falsy reply gives `(Fallback, false)` |
| `Server.ResolveHit` | app.js:79-81 | on a hit the reply is the stored answer of the last qualifying entry with `savedToDb` true; the generator is not asked and nothing is saved |
| `Server.ResolveMiss` | app.js:82-95 | on a miss the generator is asked; an entry is saved exactly when the reply is truthy, the second look still misses and `dataSet` is on; the saved entry is (input, reply) with a non-empty answer; a truthy reply with a second look that misses gives `(reply, dataSet)`, and every other case (a falsy reply, or a racing save that makes the second look hit) gives `(Fallback, false)` |
| `Server.SequentialRecheckMisses` | app.js:83-92 | with no save by another request during the await, a truthy reply is always returned, with `savedToDb == dataSet`, and it is saved exactly when `dataSet` is on |
| `Server.RepeatedQuestionHits` | app.js:76-96 | idempotence: when neither look finds a match and the reply is truthy, `dataSet` on saves (input, reply); the same question asked again is then a hit returning that answer without a generator call, provided its tokens are non-empty or its self-similarity is at least 0.90 |
| `Server.ChatServer.RacingSaves` | app.js:83-85 | saves by requests that resume during the await append their entries to the file in order |
| `Server.ChatServer.GetResponse` | app.js:76-97 | history grows by the input; the reply, the new file (unchanged, or the racing saves and at most one own entry appended) and the generator calls are those of `Resolve` |
| `Server.FileAfterThenLoad` | app.js:83-89 | after getResponse the store holds the earlier entries, then (on a miss only) the racing saves, then at most the own saved entry |
| `Server.ChatServer.PostChat` | app.js:99-107 | a missing or empty input gets 400 "Input is required." and changes nothing; otherwise the lowercased (still non-empty) input is resolved and its reply returned |
| `Server.AskTwice` | app.js:76-96 | asking one question twice in sequence: the first reply is that of `Resolve`; if the first answer was stored, the second is a hit with the same answer, the generator is asked only by the first call (and only on its miss) and the store grows only by the first call's own saved entry; in every case the store grows by at most one entry |
| `Console.ScanMax` | app-basic.js:84-94 | the scan ends with the maximum similarity (or 0) and the first index attaining it; no index is kept when every similarity is 0 |
| `Console.BestMatch` | app-basic.js:73-97 | null exactly when every similarity is below 0.90; otherwise the first entry of greatest similarity, which is at least 0.90 |
| `Console.ZeroNeverSelected` | app-basic.js:84-93 | an entry of similarity 0 is never the best match |
| `Console.ChatConsole.FindSimilarQuestion` | app-basic.js:73-97 | the loop over the loaded store returns exactly `BestMatch` |
| `Console.Respond` | app-basic.js:100-112 | one getResponse call: the generator is asked exactly when every similarity is below 0.90; an entry is saved exactly when it was asked and the reply is truthy, and the saved entry is (input, answer) with a non-empty answer; a falsy reply gives the fallback |
| `Console.RespondCases` | app-basic.js:84-113 | a hit returns the answer of the first stored entry of greatest similarity, which is at least 0.90, with no generator call and no save; a miss asks the generator and saves (input, reply) exactly when the reply is truthy, else returns the fallback |
| `Console.RepeatedQuestionHits` | app-basic.js:100-112 | after a miss and a save, the same question asked again returns the saved answer, provided its self-similarity is at least 0.90 |
| `Console.StoredQuestionStaysHit` | app-basic.js:101-104 | once a question with self-similarity at least 0.90 is stored, asking it never reaches the generator |
| `Console.ChatConsole.GetResponse` | app-basic.js:100-113 | the answer, the new file (unchanged or exactly one entry appended) and the generator calls are those of `Respond` |
| `TieBreak.VariantsPickDifferentTiedEntries` | app.js:62-71 | for two different entries i < k of equal greatest similarity, at least 0.90, where i is the first to reach it and k is the last qualifying entry, the server returns entry k and the console program entry i (app-basic.js:88-96) |
| `TieBreak.VariantsDisagreeOnTies` | app.js:68-70 | an example: with constant similarity 1.0 and no tokens, on a two-entry store the server returns the second entry and the console program the first |

## Left out

- The neural network (`synaptic` layers and `trainModel`, `app-basic.js:9-41`) is never consulted for an answer.
- The TF-IDF index (`app.js:53-57`, `app-basic.js:75-83`) is built but never affects the result.
- `compareTwoStrings` and `WordTokenizer` are library code. They stay abstract functions. Consequently, that a string is 1.0-similar to itself is not assumed; the idempotence lemmas take it, or a non-empty token list, as a hypothesis.
- Floating-point rounding of the token overlap is not modelled: the division and the comparison use exact reals.
- `toLowerCase` is modelled only on ASCII letters; other Unicode case mappings are not modelled.
- A request body whose `input` is a non-string truthy value is not modelled: the body is either absent or a string.
- The HTTP call in `fetchResponseFromAPI` and the persona prompt that `app.js` prepends to the question are network I/O. The oracle records the bare question.
- JSON serialisation is taken to round-trip. A file that parses as JSON but lacks a `data` array is not modelled; the source would throw later on such a file.
- A failing `writeFileSync` is not modelled: every save succeeds.
- Concurrency is modelled only as the saves other requests complete while the server awaits the generator. Those requests' own history entries and generator calls are not recorded.
- Express setup, CORS, static files, `app.listen`, console logging and the readline `chat` loop of `app-basic.js` (which also lowercases its input) are plumbing.
- `public/script.js` (DOM, `fetch`, markdown rendering, `localStorage`, HTML escaping) runs in the browser and is not part of this model.
