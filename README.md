# HR help-desk case similarity: a verified model

The backend of an HR help-desk tool stores HR cases in a JSON file and serves
them over a small HTTP API. For any case it also finds the related cases: it
embeds each case's short and long description with a sentence-embedding model,
scores every other case by cosine similarity, and returns the best `topK` as
percentage relevances.

This project models two parts of that backend in Dafny and proves what they
promise:

- **The ranking engine** (`backend/ai/similarity.js`), in `similarity.dfy`:
  - the model handle set by `initModel`;
  - the embedding cache of `getEmbedding`, keyed by the trimmed, lower-cased text;
  - the guard structure of `cosineSimilarity`;
  - the `getRelatedCasesByCaseNumber` pipeline:
    1. find the target case, ignoring letter case;
    2. drop every record with the target's exact case number;
    3. score the rest;
    4. turn each score into a relevance with `Math.round` (0 for NaN);
    5. sort stably by descending similarity;
    6. keep the first `topK` (`slice(0, topK)` semantics).
- **The case routes** (`backend/routes/hrCases.js`), in `hr_cases.dfy`:
  - listing the first ten cases;
  - lookup by upper-cased case number;
  - the mapping to the front end's presentation record;
  - `POST /:caseNumber/solution`, which validates the body and updates the
    stored record in place.

The two support modules are:

- `text.dfy`: the string operations both files rely on. These are `trim`
  (the ECMAScript white-space and line-terminator set), `toLowerCase` and
  `toUpperCase` (ASCII letters), and the embedding-cache key.
- `common.dfy`: `Option`, `Result`, and `FirstWhere`, the first-match search
  behind JavaScript's `find` and `findIndex`.

The module-level state of `similarity.js` is a class, `Similarity.Embedder`:

- `ready` is the model handle;
- `cache` is the `embedCache` map;
- a ghost counter records how often the model ran;
- a ghost map records, for each cached key, the text the model was run on.

Its invariant `Valid` says that the model ran once per cached key, that every
cached vector is the model's vector of the text recorded for its key, and that
this text normalises to that key.
The pure functions `Store` and `EmbedAll` give the cache one lookup, and a
sequence of lookups, leave behind; the methods are proved to leave exactly that
cache.

Its methods are proved against pure specification functions:

- `RelatedCases` returns exactly `Rank(...)` over the cache it leaves behind.
- The lemmas `RankLookup`, `RankRelatedEntries`, `RankLength` and `RankOrder`
  state what that ranking is.

The POST handler works on an `array` of records and is proved equal to the
pure `Solve`, about which the remaining properties are proved.

Two facts about the code are easy to miss:

- **Relevance is not clamped to [0, 100].** The code computes
  `Math.round(sim * 100)` with no clamp, so a negative cosine gives a negative
  relevance. `RelevanceRange` proves the range is [-100, 100] and that a cosine
  below -0.005 gives a negative relevance.
- **A length mismatch is not an error.** Comparing vectors of different
  lengths returns a score of 0, the same as for a missing argument or a zero
  vector. `Cosine` and `CosineGuards` follow the code.

## Model

| member | source | states |
|---|---|---|
| Common.FirstWhere | backend/ai/similarity.js:48-50 | no index exactly when no element matches; otherwise the index of a matching element with no match before it (`find`/`findIndex`) |
| Common.FirstWhereUpdate | backend/routes/hrCases.js:117-121 | replacing an element by one the predicate judges the same way leaves the first match where it was |
| Text.Lower | backend/ai/similarity.js:22 | `toLowerCase` keeps the length and maps every character separately |
| Text.Upper | backend/routes/hrCases.js:33 | `toUpperCase` keeps the length and maps every character separately |
| Text.TrimStartSpec | backend/ai/similarity.js:22 | the result is a suffix, everything removed is white space, and it does not start with white space |
| Text.TrimEndSpec | backend/ai/similarity.js:22 | the result is a prefix, everything removed is white space, and it does not end with white space |
| Text.TrimParts | backend/ai/similarity.js:22 | every text is leading white space, its trimmed form (which has no white space at either end), then trailing white space |
| Text.TrimUnique | backend/ai/similarity.js:22 | a text with no white space at either end, surrounded by any white space, trims back to itself |
| Text.TrimLower | backend/ai/similarity.js:22 | trimming and lower-casing commute |
| Text.KeyIgnoresCase | backend/ai/similarity.js:22 | texts with equal lower-case forms have the same cache key |
| Text.KeyIgnoresSurroundingSpace | backend/ai/similarity.js:22 | white space around a text does not change its cache key |
| Text.SameKey | backend/ai/similarity.js:22-23 | a text differing from another only in letter case and surrounding white space shares its cache key |
| Text.TrimIdempotent | backend/ai/similarity.js:22 | trimming twice is trimming once |
| Text.LowerIdempotent | backend/ai/similarity.js:22 | lower-casing twice is lower-casing once |
| Text.KeyIdempotent | backend/ai/similarity.js:22 | a cache key is its own key |
| Text.UpperHasNoLowerLetter | backend/routes/hrCases.js:33 | an upper-cased case number holds no lower-case letter |
| Text.UpperIdempotent | backend/routes/hrCases.js:33 | upper-casing twice is upper-casing once |
| Text.Trim | backend/ai/similarity.js:22 | `trim` never lengthens a text; `TrimParts`, `TrimUnique` and `TrimIdempotent` state what it removes |
| Text.Key | backend/ai/similarity.js:22 | a cache key is never longer than its text; `KeyIgnoresCase`, `KeyIgnoresSurroundingSpace` and `KeyIdempotent` state which texts share a key |
| Similarity.ZeroVectorHasNoMagnitude | backend/ai/similarity.js:40-41 | a vector whose components are all zero (the empty one included) has magnitude zero |
| Similarity.Cosine | backend/ai/similarity.js:37-43 | the score is either the guard's 0 or the quotient of two present vectors; `CosineGuards` says which |
| Similarity.CosineGuards | backend/ai/similarity.js:37-43 | the score is 0 for a missing argument, a length mismatch or a zero vector; any other score comes from two equal-length non-zero vectors through the quotient |
| Similarity.Relevance | backend/ai/similarity.js:63 | NaN gives 0; otherwise the result is `Math.round(sim * 100)`, the integer r with r <= 100·sim + 0.5 < r + 1 |
| Similarity.RelevanceMonotone | backend/ai/similarity.js:63 | a higher similarity never gets a lower relevance |
| Similarity.RelevanceRange | backend/ai/similarity.js:63 | a cosine in [-1, 1] gives a relevance in [-100, 100], negative below -0.005 (no clamp) |
| Similarity.CaseText | backend/ai/similarity.js:53-60 | the embedded text is the short description, one space, then the long description |
| Similarity.CaseTextSplits | backend/ai/similarity.js:53-60 | when short descriptions hold no space, equal embedded texts mean equal descriptions |
| Similarity.FindCase | backend/ai/similarity.js:48-51 | no target exactly when no case number matches ignoring letter case; otherwise the first matching case |
| Similarity.Others | backend/ai/similarity.js:57-58 | a case is kept exactly when it is in the corpus and its case number differs, compared exactly, from the excluded one |
| Similarity.OthersCount | backend/ai/similarity.js:57-58 | the filter keeps every copy of a case with another number and no copy of a case with the excluded one (multiset) |
| Similarity.OthersAppend | backend/ai/similarity.js:57-58 | filtering a concatenation is concatenating the filtered parts, so the candidates keep their corpus order |
| Similarity.ScoreAll | backend/ai/similarity.js:59-65 | one entry per candidate, in order: the candidate itself, its cosine against the target's vector, and the relevance of that cosine |
| Similarity.Above | backend/ai/similarity.js:68 | `x` sorts before `y` exactly when the comparator `y.similarity - x.similarity` is negative; a NaN on either side never compares |
| Similarity.AboveStrictOrder | backend/ai/similarity.js:68 | the comparator is consistent: irreflexive, asymmetric and transitive |
| Similarity.Insert | backend/ai/similarity.js:68 | inserting adds exactly the new entry (multiset) |
| Similarity.SortBySimilarity | backend/ai/similarity.js:68 | the sort is a permutation of its input |
| Similarity.InsertSplit | backend/ai/similarity.js:68 | the new entry goes after every entry it does not beat and before the first one it beats |
| Similarity.InsertSorted | backend/ai/similarity.js:68 | inserting into a list ordered by descending similarity keeps it ordered |
| Similarity.PrefixBeatsSuffix | backend/ai/similarity.js:68-69 | in an ordered list nothing after a cut beats anything before it |
| Similarity.SortSorted | backend/ai/similarity.js:68 | the sort's output is ordered by non-increasing similarity |
| Similarity.InsertStable | backend/ai/similarity.js:68 | among equal similarities, the inserted entry comes after those already present |
| Similarity.SortStable | backend/ai/similarity.js:68 | entries of equal similarity keep their input order |
| Similarity.SliceEnd | backend/ai/similarity.js:69 | the end index of `slice(0, end)`: the smaller of `end` and the length for a non-negative `end`; the length plus `end`, but not below 0, for a negative one |
| Similarity.Take | backend/ai/similarity.js:69 | `slice(0, end)` is a prefix of the list with `SliceEnd` entries |
| Similarity.TakeKeepsBest | backend/ai/similarity.js:68-69 | cutting an ordered list leaves out nothing that beats an entry kept |
| Similarity.TopOfSorted | backend/ai/similarity.js:68-69 | the first `topK` of the sorted candidates are ordered, keep the input order among equal similarities, come from the candidates and are the best of them |
| Similarity.Rank | backend/ai/similarity.js:45-70 | the target is the lookup's result and a missing target has nothing related; `RankLookup`, `RankRelatedEntries`, `RankLength` and `RankOrder` state the rest |
| Similarity.RankLookup | backend/ai/similarity.js:48-51 | no target exactly when no case number matches, and then nothing is related; otherwise the target is the first match |
| Similarity.RankRelatedEntries | backend/ai/similarity.js:56-65 | every related entry is a corpus case other than the target, scored by the cosine of its cached vector against the target's, with the matching relevance |
| Similarity.RankLength | backend/ai/similarity.js:69 | at most `topK` entries for a non-negative `topK`, and then exactly the smaller of `topK` and the number of candidates; in general exactly as many as `slice(0, topK)` keeps |
| Similarity.DefaultRankLength | backend/ai/similarity.js:45 | with the default `topK` of 5, which the related route (backend/routes/hrCases.js line 56) relies on, the ranking holds min(5, number of candidates) entries; `RankOrder` says they are the best ones |
| Similarity.RankOrder | backend/ai/similarity.js:68-69 | related entries are ordered by descending similarity, stable, drawn from the candidates, and no candidate left out beats one kept |
| Similarity.Embedder.constructor | backend/ai/similarity.js:4-5 | the module starts with no model handle and an empty cache |
| Similarity.Embedder.InitModel | backend/ai/similarity.js:10-15 | afterwards the handle is set; a second call changes nothing |
| Similarity.Embedder.GetEmbedding | backend/ai/similarity.js:20-32 | fails when there is no handle; a cache hit returns the stored vector without running the model; a miss runs the model on the text as given and stores the vector under the key; the cache gains exactly the text's key; entries are only ever added; every cached vector stays the model's vector of a text with that key |
| Similarity.CaseKeysMembers | backend/ai/similarity.js:59-61 | the key set of a list of cases holds exactly the keys of their texts |
| Similarity.Embedder.EmbedLoaded | backend/ai/similarity.js:20-32 | with the model loaded, the cache becomes `Store(old cache, model, text)`: a hit keeps it, a miss adds the model's vector of the text itself; the vector returned is the one stored under the text's key |
| Similarity.Store | backend/ai/similarity.js:22-30 | after a lookup the text's key is always cached |
| Similarity.StoreOrigin | backend/ai/similarity.js:23-30 | a lookup keeps every cached entry, and the only entry it can add is the model's vector of the text, under the text's key |
| Similarity.EmbedAllStep | backend/ai/similarity.js:59-61 | embedding one more candidate is one more lookup on top of the cache the earlier ones left |
| Similarity.EmbedAllAppend | backend/ai/similarity.js:54-61 | embedding one list of texts and then another is embedding their concatenation |
| Similarity.EmbedTargetFirst | backend/ai/similarity.js:54-61 | embedding the target and then the candidates is embedding the list of the target followed by the candidates |
| Similarity.EmbedAllKeys | backend/ai/similarity.js:54-61 | embedding a list of cases adds exactly the keys of their texts |
| Similarity.EmbedAllOrigin | backend/ai/similarity.js:26-30 | embedding keeps every cached entry, and every entry it adds is the model's vector of one of the cases' own texts, stored under that text's key |
| Similarity.Embedder.ScoreCandidates | backend/ai/similarity.js:56-66 | the cache becomes exactly `EmbedAll` of the candidates: it gains exactly their keys, and every new entry is the model's vector of a candidate's own text; the result is the candidates scored in input order |
| Similarity.Embedder.RelatedCases | backend/ai/similarity.js:45-70 | fails without a handle and changes nothing; a missed lookup leaves the cache as it was; otherwise the cache becomes exactly `EmbedAll` of the target followed by the candidates, so every new entry is the model's vector of the target's or a candidate's own text; every vector needed is cached; the result is `Rank` over that cache |
| Similarity.EmbedBothSpellings | backend/ai/similarity.js:20-32 | embedding two texts that differ only in letter case and in the white space around each runs the model at most once, returns the same vector twice, and that vector is the model's vector of a text with their key |
| HrCases.ListCases | backend/routes/hrCases.js:19 | a prefix of the stored cases, at most ten long, and all of them when there are fewer than ten |
| HrCases.FindTicketIndex | backend/routes/hrCases.js:117-118 | no index exactly when no `ticket_id` equals the upper-cased number; otherwise the first matching index |
| HrCases.GetCase | backend/routes/hrCases.js:88-93 | never a bad request; not found exactly when no `ticket_id` equals the upper-cased number; a found record is the first stored record that matches |
| HrCases.GetCaseIgnoresRequestCase | backend/routes/hrCases.js:89-90 | a request is answered as its upper-cased form would be |
| HrCases.LowerCaseIdsUnreachable | backend/routes/hrCases.js:89-90 | a record whose `ticket_id` holds a lower-case letter is never found |
| HrCases.FormatCase | backend/routes/hrCases.js:41-53 | the presentation record has no relevance and loses nothing but the solution and update time: the record can be rebuilt from it |
| HrCases.FormatRelated | backend/routes/hrCases.js:59-72 | a related entry is the same presentation record plus the relevance, unchanged |
| HrCases.RelatedRoute | backend/routes/hrCases.js:32-74 | not found exactly when the lookup misses; otherwise the formatted target and the formatted ranked records, in ranking order |
| HrCases.Truthy | backend/routes/hrCases.js:107-122 | a missing field and an empty string are falsy; any other string is truthy |
| HrCases.StatusesTruthy | backend/routes/hrCases.js:107 | each accepted status is a non-empty string, so sending it counts as truthy |
| HrCases.Validate | backend/routes/hrCases.js:103-109 | accepted exactly when `solution_text` is a string and a truthy `status` is one of the three statuses; the two error messages, in that order of checking |
| HrCases.ApplyEdit | backend/routes/hrCases.js:121-125 | the solution and update time are set, the status changes only when one was given, and no other field changes |
| HrCases.Solve | backend/routes/hrCases.js:101-132 | the handler keeps the number of records and answers a success with a stored record; `SolveRejections`, `SolveUpdatesOneRecord` and `SolveIdempotent` state the rest |
| HrCases.SolveRejections | backend/routes/hrCases.js:103-118 | a rejected request leaves the records unchanged; the body is checked before the lookup; not found exactly when a valid request matches no record |
| HrCases.SolveUpdatesOneRecord | backend/routes/hrCases.js:117-132 | a successful request changes only the first matching record and answers with it as updated |
| HrCases.SolveIdempotent | backend/routes/hrCases.js:101-132 | sending the same request twice with the same timestamp leaves the records, and gets the answer, that sending it once does |
| HrCases.PostSolution | backend/routes/hrCases.js:101-132 | the in-place update of the loaded records gives the response and the records `Solve` describes |

## Left out

- I/O is not modelled. This covers the HTTP layer (Express routing, status codes as numbers, JSON bodies), reading and writing the data file (including the temp-file rename) and console logging. Routes take the loaded records as a parameter and return them.
- The 500 responses are not modelled. They come from three sources. The first is a failed file read or write. The second is the related route itself (backend/routes/hrCases.js lines 75-78): it hands the ranking records that carry `ticket_id` and no `caseNumber`, so `c.caseNumber.toLowerCase()` (backend/ai/similarity.js line 49) throws a TypeError on the first record. The third is a rejected model call or model load.
- Failures of the embedding model and of its loading are not modelled. `model` is a total function, so it cannot express a rejected `embedder(text, …)` (backend/ai/similarity.js line 26) or a rejected `pipeline(…)` load (line 13). On such a rejection `getEmbedding` stores nothing, because the `set` comes after the `await`, and `initModel` leaves the handle unset.
- The embedding model (`@xenova/transformers` with mean pooling and normalisation) is a parameter, `model: string -> seq<real>`. Its output is not modelled.
- Floating-point arithmetic is not modelled. Vectors hold reals. The dot product divided by the magnitudes is an oracle, `quotient`, reached only through the guards; the guards test the sum of squares, which is zero exactly when its square root is. Rounding and NaN propagation inside the dot product are not captured.
- Similarity.CosineGuards: a non-zero vector of real components has a positive sum of squares, but this direction is not proved. The lemma states the guard conditions as they appear in the code.
- Similarity.Embedder.RelatedCases: the candidates are embedded one after another. `Promise.all` starts all embeddings concurrently, so two candidates with the same key can each miss the cache and run the model on their own spelling. Each then scores with its own spelling's vector, where the model gives the later one the first spelling's cached vector; the scores can differ, and the cache holds whichever vector was stored last.
- Similarity.Above: JavaScript leaves the sort order unspecified when a comparator yields NaN. The model treats a NaN similarity as incomparable, so it is never moved past another entry.
- Case conversion and `trim` cover the ASCII letters and the fixed ECMAScript white-space set. Unicode case mapping is not modelled.
- The two shapes of a case record do not compose. The related route hands records keyed by `ticket_id` to the ranking, and the ranking reads `caseNumber`. Each function is modelled over its own record shape, and `HrCases.RelatedRoute` takes the ranking's output as a parameter.
- The update timestamp (`new Date().toISOString()`) is a parameter.
- The server bootstrap (`backend/server.js`) and the React front end (`src/`) are not part of this model.
